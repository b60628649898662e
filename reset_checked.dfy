/**
 * reset_checked.py: clears the `checked` flag of every open topic document in every session
 * folder, so that the next `run_all` pass categorises those documents again, and reports how
 * many documents it changed.
 */
module ResetChecked {
  import opened Wrappers
  import opened Json
  import opened Storage
  import Processing

  /** `data.get('checked', False)` is truthy. */
  predicate IsChecked(doc: Obj) {
    Truthy(GetOr(doc, "checked", Bool(false)))
  }

  /** `data['checked'] = False`: the flag cleared, every other key unchanged. */
  function Reset(doc: Obj): (r: Obj)
    ensures Get(r, "checked") == Some(Bool(false))
    ensures forall k :: k != "checked" ==> Get(r, k) == Get(doc, k)
  {
    Set(doc, "checked", Bool(false))
  }

  /** A document the script rewrites: an open topic file whose `checked` is truthy. */
  predicate Eligible(key: FileKey, doc: Obj) {
    IsOpenTopicFile(key.name) && IsChecked(doc)
  }

  /** One document after the script: reset when eligible, untouched otherwise. */
  function ResetFile(key: FileKey, doc: Obj): Obj {
    if Eligible(key, doc) then Reset(doc) else doc
  }

  /** Every document after the script. */
  function ResetAll(files: map<FileKey, Obj>): map<FileKey, Obj> {
    map k | k in files :: ResetFile(k, files[k])
  }

  /** The eligible documents among `files` in session folder `folder`. */
  function EligibleIn(files: map<FileKey, Obj>, folder: string): set<FileKey> {
    set k | k in files && k.session == folder && Eligible(k, files[k])
  }

  /** The eligible documents among `files`. */
  function EligibleKeys(files: map<FileKey, Obj>): set<FileKey> {
    set k | k in files && Eligible(k, files[k])
  }

  /** The body of the inner loop for one file; says whether the document was reset. */
  method ResetOne(fs: SessionsFolder, key: FileKey) returns (reset: bool)
    requires key in fs.files && key.session in fs.sessions
    modifies fs
    ensures fs.present == old(fs.present) && fs.sessions == old(fs.sessions)
    ensures fs.files.Keys == old(fs.files).Keys
    ensures fs.files[key] == ResetFile(key, old(fs.files)[key])
    ensures forall k :: k in old(fs.files) && k != key ==> fs.files[k] == old(fs.files)[k]
    ensures reset == Eligible(key, old(fs.files)[key])
  {
    reset := false;
    if IsOpenTopicFile(key.name) {
      var data := fs.files[key];
      if IsChecked(data) {
        fs.Write(key, Reset(data));
        reset := true;
      }
    }
  }

  /** The inner loop over the files of one session folder; returns how many documents it reset. */
  method ResetFolder(fs: SessionsFolder, folder: string) returns (count: nat)
    requires folder in fs.sessions
    modifies fs
    ensures fs.present == old(fs.present) && fs.sessions == old(fs.sessions) && fs.files.Keys == old(fs.files).Keys
    ensures forall k :: k in old(fs.files) ==>
              fs.files[k] == if k.session == folder then ResetFile(k, old(fs.files)[k]) else old(fs.files)[k]
    ensures count == |EligibleIn(old(fs.files), folder)|
  {
    ghost var start := fs.files;
    ghost var eligible := EligibleIn(start, folder);
    var pending := set k | k in fs.files && k.session == folder;
    ghost var done: set<FileKey> := {};
    count := 0;
    while pending != {}
      invariant fs.present == old(fs.present) && fs.sessions == old(fs.sessions)
      invariant pending <= start.Keys
      invariant fs.files.Keys == start.Keys
      invariant forall k :: k in start && (k.session != folder || k in pending) ==> fs.files[k] == start[k]
      invariant forall k :: k in start && k.session == folder && k !in pending ==> fs.files[k] == ResetFile(k, start[k])
      invariant done <= eligible && count == |done|
      invariant forall k :: k in eligible ==> (k in done <==> k !in pending)
      decreases pending
    {
      var key :| key in pending;
      var reset := ResetOne(fs, key);
      if reset {
        assert key in eligible && key !in done;
        count := count + 1;
        done := done + {key};
      }
      pending := pending - {key};
    }
    assert done == eligible;
  }

  /** The outer loop over the session folders; returns how many documents it reset. */
  method ResetSessions(fs: SessionsFolder) returns (total: nat)
    requires fs.present && fs.View().Valid()
    modifies fs
    ensures fs.present && fs.sessions == old(fs.sessions) && fs.files.Keys == old(fs.files).Keys
    ensures forall k :: k in old(fs.files) ==> fs.files[k] == ResetFile(k, old(fs.files)[k])
    ensures total == |EligibleKeys(old(fs.files))|
  {
    ghost var start := fs.files;
    ghost var eligible := EligibleKeys(start);
    ghost var done: set<FileKey> := {};
    var folders := fs.sessions;
    total := 0;
    while folders != {}
      invariant fs.present && fs.sessions == old(fs.sessions) && folders <= fs.sessions
      invariant fs.files.Keys == start.Keys
      invariant forall k :: k in start ==>
                  fs.files[k] == if k.session in folders then start[k] else ResetFile(k, start[k])
      invariant done <= eligible && total == |done|
      invariant forall k :: k in eligible ==> (k in done <==> k.session !in folders)
      decreases folders
    {
      var folder :| folder in folders;
      ghost var here := EligibleIn(start, folder);
      EligibleInUnchanged(fs.files, start, folder);
      ghost var before := fs.files;
      var n := ResetFolder(fs, folder);
      forall k | k in start
        ensures fs.files[k] == if k.session in folders - {folder} then start[k] else ResetFile(k, start[k])
      {
        if k.session == folder {
          assert before[k] == start[k];
        } else {
          assert fs.files[k] == before[k];
        }
      }
      EligibleInPart(start, folder);
      CountStep(eligible, done, here, folders, folder);
      done := done + here;
      total := total + n;
      folders := folders - {folder};
    }
    assert done == eligible;
  }

  /** Documents of `folder` that did not change are eligible as before. */
  lemma EligibleInUnchanged(files: map<FileKey, Obj>, start: map<FileKey, Obj>, folder: string)
    requires files.Keys == start.Keys
    requires forall k :: k in start && k.session == folder ==> files[k] == start[k]
    ensures EligibleIn(files, folder) == EligibleIn(start, folder)
  {
  }

  /** The eligible documents of a folder are the eligible documents whose session is that folder. */
  lemma EligibleInPart(files: map<FileKey, Obj>, folder: string)
    ensures forall k :: k in EligibleIn(files, folder) <==> k in EligibleKeys(files) && k.session == folder
  {
  }

  /** Adding one folder's eligible documents to those of the folders already done. */
  lemma CountStep(eligible: set<FileKey>, done: set<FileKey>, here: set<FileKey>, folders: set<string>, folder: string)
    requires folder in folders && done <= eligible
    requires forall k :: k in eligible ==> (k in done <==> k.session !in folders)
    requires forall k :: k in here <==> k in eligible && k.session == folder
    ensures done * here == {} && done + here <= eligible
    ensures |done + here| == |done| + |here|
    ensures forall k :: k in eligible ==> (k in done + here <==> k.session !in folders - {folder})
  {
    assert done * here == {} by {
      forall k | k in here ensures k !in done { }
    }
  }

  /**
   * `reset_checked_status()`: `None` and nothing changed when the sessions folder is missing;
   * otherwise every document is replaced by ResetFile and the count is the number of eligible
   * documents.
   */
  method ResetCheckedStatus(fs: SessionsFolder) returns (count: Option<nat>)
    requires fs.View().Valid()
    modifies fs
    ensures !old(fs.present) ==> count == None && fs.View() == old(fs.View())
    ensures old(fs.present) ==> && count == Some(|EligibleKeys(old(fs.files))|)
                                && fs.View() == old(fs.View()).(files := ResetAll(old(fs.files)))
  {
    if !fs.present {
      return None;
    }
    var total := ResetSessions(fs);
    assert fs.files == ResetAll(old(fs.files));
    count := Some(total);
  }

  // ---------------------------------------------------------------- properties

  /** A document is rewritten exactly when it is eligible. */
  lemma ResetChangesExactlyEligible(key: FileKey, doc: Obj)
    ensures ResetFile(key, doc) != doc <==> Eligible(key, doc)
  {
    if Eligible(key, doc) {
      assert Get(ResetFile(key, doc), "checked") != Get(doc, "checked");
    }
  }

  /** After the script no document is eligible: a second run resets nothing and reports 0. */
  lemma SecondRunResetsNothing(files: map<FileKey, Obj>)
    ensures EligibleKeys(ResetAll(files)) == {}
    ensures ResetAll(ResetAll(files)) == ResetAll(files)
  {
    var once := ResetAll(files);
    forall k | k in once ensures !Eligible(k, once[k]) {
      if Eligible(k, files[k]) {
        assert Get(once[k], "checked") == Some(Bool(false));
      }
    }
    assert EligibleKeys(once) == {};
  }

  /**
   * A reset document with inputs is stale for `run_all`: the next pass categorises it again,
   * which is what the script is for.
   */
  lemma ResetForcesReprocessing(doc: Obj)
    requires Truthy(Processing.InputsValue(doc)) && Len(Processing.InputsValue(doc)).Some?
    ensures Processing.CheckOf(Reset(doc)) == Processing.Stale
  {
    assert Processing.InputsValue(Reset(doc)) == Processing.InputsValue(doc);
  }
}
