/**
 * The older categoriser script (testprogramrevamped.py). Its grouping, titles, `shorten_topic`
 * and `extract_key_nouns` are those of main.py (modules Categorize and Titles); only its
 * `update_json_file` differs: it stores `formatted` and leaves `checked` alone.
 */
module Revamped {
  import opened Wrappers
  import opened Json
  import opened Storage
  import opened Categorize
  import opened Processing

  /** `update_json_file(results)`: the loaded document with `formatted` set, nothing else changed. */
  function RevampedUpdatedDoc(doc: Obj, g: Grouping): (r: Obj)
    ensures Get(r, "formatted") == Some(GroupingJson(g))
    ensures forall k :: k != "formatted" ==> Get(r, k) == Get(doc, k)
  {
    Set(doc, "formatted", GroupingJson(g))
  }

  /** `update_json_file(results)` on the sessions folder. */
  method UpdateJsonFile(fs: SessionsFolder, key: FileKey, g: Grouping)
    requires key.session in fs.sessions
    modifies fs
    ensures fs.View() == old(fs.View()).(files := old(fs.files)[key := RevampedUpdatedDoc(LoadOrEmpty(old(fs.files), key), g)])
  {
    var existing := if key in fs.files then fs.files[key] else [];
    existing := Set(existing, "formatted", GroupingJson(g));
    fs.Write(key, existing);
  }

  /**
   * The script's main block on one document: when there are inputs, their grouping stored by
   * `update_json_file`; unchanged when there are none or categorising raises.
   */
  function RevampedRun(doc: Obj, categorize: Categorizer): Obj {
    var inputs := InputsValue(doc);
    if !Truthy(inputs) then doc
    else
      match TextsOf(inputs)
      case None => doc
      case Some(texts) =>
        match categorize(texts)
        case None => doc
        case Some(g) => RevampedUpdatedDoc(doc, g)
  }

  /** main.py's update is this script's update followed by the mark. */
  lemma UpdateIsRevampedThenMark(doc: Obj, g: Grouping)
    ensures UpdatedDoc(doc, g) == MarkedDoc(RevampedUpdatedDoc(doc, g))
  {
  }

  /** main.py's `run` on a marked document gives the marked result of this script's run. */
  lemma RunIsRevampedThenMark(doc: Obj, categorize: Categorizer)
    requires Get(doc, "checked") == Some(Bool(true))
    ensures AfterRun(doc, categorize) == MarkedDoc(RevampedRun(doc, categorize))
  {
    var inputs := InputsValue(doc);
    if !Truthy(inputs) || TextsOf(inputs).None? || categorize(TextsOf(inputs).value).None? {
      SetSameValue(doc, "checked", Bool(true));
    }
  }

  /**
   * A document this script categorised keeps an unset `checked`, so the next `run_all` pass still
   * treats it as stale and categorises it again.
   */
  lemma RevampedLeavesStale(doc: Obj, texts: seq<string>, g: Grouping)
    requires !Truthy(GetOr(doc, "checked", Bool(false)))
    requires InputsValue(doc) == List(StrList(texts)) && texts != []
    ensures CheckOf(RevampedUpdatedDoc(doc, g)) == Stale
  {
    assert InputsValue(RevampedUpdatedDoc(doc, g)) == InputsValue(doc);
    assert GetOr(RevampedUpdatedDoc(doc, g), "checked", Bool(false)) == GetOr(doc, "checked", Bool(false));
  }
}
