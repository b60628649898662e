/**
 * One pass of the categoriser over the sessions folder (`run_all` and `run` in main.py): which
 * topic documents it looks at, which it skips, and what it writes into the others.
 */
module Processing {
  import opened Wrappers
  import opened Json
  import opened Storage
  import opened Titles
  import opened Categorize

  /** What a pass decides for one topic document before touching it. */
  datatype Check =
    | NoInputs   // `inputs` missing or falsy: skipped
    | UpToDate   // checked, formatted, and as many formatted texts as inputs: skipped
    | Broken     // `len` or `.values()` raises while deciding: the error is reported, nothing is written
    | Stale      // processed

  /** `sum(len(items) for items in fields.values())`; `None` where some `len` raises. */
  function ValuesLength(fields: seq<(string, Value)>): Option<nat> {
    if |fields| == 0 then Some(0)
    else
      match ValuesLength(fields[..|fields| - 1])
      case None => None
      case Some(s) =>
        match Len(fields[|fields| - 1].1)
        case None => None
        case Some(n) => Some(s + n)
  }

  /** The formatted count of `formatted`; `None` where `formatted.values()` or a `len` raises. */
  function FormattedCount(formatted: Value): Option<nat> {
    match formatted
    case Object(fields) => ValuesLength(fields)
    case _ => None
  }

  /** `data.get('inputs', [])` */
  function InputsValue(doc: Obj): Value {
    GetOr(doc, "inputs", List([]))
  }

  /** The skip rule of `run_all`, in the order the source evaluates it. */
  function CheckOf(doc: Obj): Check {
    var inputs := InputsValue(doc);
    if !Truthy(inputs) then NoInputs
    else if Truthy(GetOr(doc, "checked", Bool(false))) && Truthy(GetOr(doc, "formatted", Object([]))) then
      match FormattedCount(GetOr(doc, "formatted", Object([])))
      case None => Broken
      case Some(count) =>
        match Len(inputs)
        case None => Broken
        case Some(n) => if count == n then UpToDate else Stale
    else if Len(inputs).None? then Broken
    else Stale
  }

  /** The inputs as a list of texts; `None` for anything the embedder cannot encode. */
  function TextsOf(v: Value): Option<seq<string>> {
    match v
    case List(items) => StrsOf(items)
    case _ => None
  }

  function StrsOf(items: seq<Value>): Option<seq<string>> {
    if |items| == 0 then Some([])
    else
      match StrsOf(items[..|items| - 1])
      case None => None
      case Some(init) =>
        match items[|items| - 1]
        case Str(s) => Some(init + [s])
        case _ => None
  }

  /** Texts stored as a JSON list read back as the same texts. */
  lemma {:induction false} StrsOfStrList(texts: seq<string>)
    ensures StrsOf(StrList(texts)) == Some(texts)
  {
    if |texts| != 0 {
      var n := |texts| - 1;
      StrsOfStrList(texts[..n]);
      assert StrList(texts)[..n] == StrList(texts[..n]);
      assert texts[..n] + [texts[n]] == texts;
    }
  }

  /**
   * `run(filename)` on a document: the grouping of its inputs with the default cluster count stored
   * by `update_json_file`; unchanged when there are no inputs or when categorising raises.
   */
  function AfterRun(doc: Obj, categorize: Categorizer): Obj {
    var inputs := InputsValue(doc);
    if !Truthy(inputs) then doc
    else
      match TextsOf(inputs)
      case None => doc
      case Some(texts) =>
        match categorize(texts)
        case None => doc
        case Some(g) => UpdatedDoc(doc, g)
  }

  /** A document after `run_all` handled it: a stale one is marked, then run; any other is left alone. */
  function AfterPass(doc: Obj, categorize: Categorizer): Obj {
    if CheckOf(doc) == Stale then AfterRun(MarkedDoc(doc), categorize) else doc
  }

  /** What a pass makes of the file under `key`: only open topic files are looked at. */
  function PassFile(key: FileKey, doc: Obj, categorize: Categorizer): Obj {
    if IsOpenTopicFile(key.name) then AfterPass(doc, categorize) else doc
  }

  /** All documents after one pass. */
  function PassAll(files: map<FileKey, Obj>, categorize: Categorizer): map<FileKey, Obj> {
    map k | k in files :: PassFile(k, files[k], categorize)
  }

  // ---------------------------------------------------------------- the loops

  /** `run(filename)` on the sessions folder, with `categorize` standing for `categorize_texts(inputs)`. */
  method Run(fs: SessionsFolder, key: FileKey, categorize: Categorizer)
    requires key in fs.files && key.session in fs.sessions
    modifies fs
    ensures fs.present == old(fs.present) && fs.sessions == old(fs.sessions) && fs.files.Keys == old(fs.files).Keys
    ensures fs.files[key] == AfterRun(old(fs.files)[key], categorize)
    ensures forall k :: k in old(fs.files) && k != key ==> fs.files[k] == old(fs.files)[k]
  {
    var inputs := InputsValue(fs.files[key]);
    if !Truthy(inputs) {
      return;
    }
    var texts := TextsOf(inputs);
    if texts.None? {
      return;
    }
    var results := categorize(texts.value);
    if results.None? {
      return;
    }
    UpdateJsonFile(fs, key, results.value);
  }

  /** The body of the inner loop of `run_all` for one open topic file. */
  method ProcessFile(fs: SessionsFolder, key: FileKey, categorize: Categorizer)
    requires key in fs.files && key.session in fs.sessions
    modifies fs
    ensures fs.present == old(fs.present) && fs.sessions == old(fs.sessions) && fs.files.Keys == old(fs.files).Keys
    ensures fs.files[key] == AfterPass(old(fs.files)[key], categorize)
    ensures forall k :: k in old(fs.files) && k != key ==> fs.files[k] == old(fs.files)[k]
  {
    var doc := fs.files[key];
    if CheckOf(doc) != Stale {
      return;
    }
    var _ := MarkAsProcessing(fs, key);
    Run(fs, key, categorize);
  }

  /** The inner loop of `run_all` over the files of one session folder. */
  method ProcessFolder(fs: SessionsFolder, folder: string, categorize: Categorizer)
    requires folder in fs.sessions
    modifies fs
    ensures fs.present == old(fs.present) && fs.sessions == old(fs.sessions) && fs.files.Keys == old(fs.files).Keys
    ensures forall k :: k in old(fs.files) ==>
              fs.files[k] == if k.session == folder then PassFile(k, old(fs.files)[k], categorize) else old(fs.files)[k]
  {
    ghost var start := fs.files;
    var names := set k | k in fs.files && k.session == folder :: k.name;
    ghost var listed := names;
    while names != {}
      invariant fs.present == old(fs.present) && fs.sessions == old(fs.sessions)
      invariant names <= listed
      invariant fs.files.Keys == start.Keys
      invariant forall k :: k in start ==>
                  fs.files[k] == if k.session != folder || k.name in names then start[k]
                                 else PassFile(k, start[k], categorize)
      decreases names
    {
      var name :| name in names;
      var key := FileKey(folder, name);
      assert key in start;
      if IsOpenTopicFile(name) {
        ProcessFile(fs, key, categorize);
      }
      names := names - {name};
    }
  }

  /**
   * `run_all()`: nothing when the sessions folder is missing; otherwise every open topic file of
   * every session folder is handled once, and no other file changes.
   */
  method RunAll(fs: SessionsFolder, categorize: Categorizer)
    requires fs.View().Valid()
    modifies fs
    ensures fs.View() == if old(fs.present) then old(fs.View()).(files := PassAll(old(fs.files), categorize))
                         else old(fs.View())
  {
    if !fs.present {
      return;
    }
    ghost var start := fs.files;
    var folders := fs.sessions;
    while folders != {}
      invariant fs.present && fs.sessions == old(fs.sessions) && folders <= fs.sessions
      invariant fs.files.Keys == start.Keys
      invariant forall k :: k in start ==>
                  fs.files[k] == if k.session in folders then start[k] else PassFile(k, start[k], categorize)
      decreases folders
    {
      var folder :| folder in folders;
      ProcessFolder(fs, folder, categorize);
      folders := folders - {folder};
    }
    assert fs.files == PassAll(start, categorize);
  }

  // ---------------------------------------------------------------- properties of a pass

  /** A stored grouping counts exactly its texts. */
  lemma {:induction false} GroupingCount(g: Grouping)
    ensures FormattedCount(GroupingJson(g)) == Some(|Flatten(g)|)
  {
    if |g| != 0 {
      var n := |g| - 1;
      GroupingCount(g[..n]);
      assert GroupingJson(g).fields[..n] == GroupingJson(g[..n]).fields;
    }
  }

  /** A grouping of all the inputs is up to date: the next pass skips the file. */
  lemma UpdatedIsUpToDate(doc: Obj, texts: seq<string>, g: Grouping)
    requires InputsValue(doc) == List(StrList(texts)) && texts != []
    requires |Flatten(g)| == |texts|
    ensures CheckOf(UpdatedDoc(doc, g)) == UpToDate
  {
    var u := UpdatedDoc(doc, g);
    GroupingCount(g);
    assert g != [];
    assert InputsValue(u) == List(StrList(texts));
    assert GetOr(u, "formatted", Object([])) == GroupingJson(g);
    UpToDateWhen(u, |texts|);
  }

  /** The skip rule's up-to-date case: checked, formatted, and the two counts agree. */
  lemma UpToDateWhen(doc: Obj, n: nat)
    requires Truthy(InputsValue(doc)) && Len(InputsValue(doc)) == Some(n)
    requires Truthy(GetOr(doc, "checked", Bool(false)))
    requires Truthy(GetOr(doc, "formatted", Object([])))
    requires FormattedCount(GetOr(doc, "formatted", Object([]))) == Some(n)
    ensures CheckOf(doc) == UpToDate
  {
  }

  /**
   * After a pass stores a grouping that holds every current input once, the next pass skips the
   * file, so a second pass changes nothing.
   */
  lemma PassThenSkip(doc: Obj, texts: seq<string>, g: Grouping, categorize: Categorizer)
    requires CheckOf(doc) == Stale && InputsValue(doc) == List(StrList(texts)) && texts != []
    requires categorize(texts) == Some(g) && multiset(Flatten(g)) == multiset(texts)
    ensures CheckOf(AfterPass(doc, categorize)) == UpToDate
    ensures AfterPass(AfterPass(doc, categorize), categorize) == AfterPass(doc, categorize)
  {
    var marked := MarkedDoc(doc);
    assert InputsValue(marked) == InputsValue(doc);
    StrsOfStrList(texts);
    assert |multiset(Flatten(g))| == |multiset(texts)|;
    UpdatedIsUpToDate(marked, texts, g);
  }

  /**
   * With `categorize_texts` and labels in range, a pass over a stale document with at least as many
   * inputs as default clusters leaves it up to date.
   */
  lemma CategorizedPassThenSkip(doc: Obj, texts: seq<string>, cluster: Labeller, classify: Classifier)
    requires CheckOf(doc) == Stale && InputsValue(doc) == List(StrList(texts))
    requires |texts| >= DefaultClusterCount(|texts|)
    requires |cluster(texts, DefaultClusterCount(|texts|))| == |texts|
    requires forall i :: 0 <= i < |texts| ==> 0 <= cluster(texts, DefaultClusterCount(|texts|))[i] < DefaultClusterCount(|texts|)
    ensures CheckOf(AfterPass(doc, CategorizeWith(cluster, classify))) == UpToDate
  {
    var k := DefaultClusterCount(|texts|);
    CategorizedPartitions(texts, k, cluster, classify);
    var g := Categorized(texts, k, cluster, classify).value;
    assert CategorizeWith(cluster, classify)(texts) == Some(g);
    PassThenSkip(doc, texts, g, CategorizeWith(cluster, classify));
  }

  /**
   * A topic with a single input is marked on every pass but never categorised: the default two
   * clusters are more than KMeans accepts for one sample.
   */
  lemma OneInputNeverFormatted(doc: Obj, text: string, cluster: Labeller, classify: Classifier)
    requires InputsValue(doc) == List([Str(text)]) && CheckOf(doc) == Stale
    ensures AfterPass(doc, CategorizeWith(cluster, classify)) == MarkedDoc(doc)
  {
    assert InputsValue(MarkedDoc(doc)) == InputsValue(doc);
    assert [Str(text)] == StrList([text]);
    StrsOfStrList([text]);
    assert CategorizeWith(cluster, classify)([text]) == None;
  }

  /** A pass writes only `checked` and `formatted`; every other key keeps its value. */
  lemma AfterPassKeepsOtherKeys(doc: Obj, categorize: Categorizer)
    ensures forall k :: k != "checked" && k != "formatted" ==> Get(AfterPass(doc, categorize), k) == Get(doc, k)
  {
  }

  /** A new input after an up-to-date pass makes the document stale again. */
  lemma GrowthReprocesses(before: Obj, after: Obj, items: seq<Value>, text: string)
    requires InputsValue(before) == List(items) && InputsValue(after) == List(items + [Str(text)])
    requires Get(after, "checked") == Get(before, "checked") && Get(after, "formatted") == Get(before, "formatted")
    requires CheckOf(before) == UpToDate
    ensures CheckOf(after) == Stale
  {
  }

  /** A pass keeps the set of files and changes only open topic files. */
  lemma PassAllFrame(files: map<FileKey, Obj>, categorize: Categorizer)
    ensures PassAll(files, categorize).Keys == files.Keys
    ensures forall k :: k in files && !IsOpenTopicFile(k.name) ==> PassAll(files, categorize)[k] == files[k]
  {
  }
}
