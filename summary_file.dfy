/**
 * `generate_summary_for_formatted`, the per-category loop shared by summarizer.py and
 * summarizer2.py: every category of a topic document's `formatted` object whose text list is
 * non-empty gets a summary, and the summaries are stored under the document's `summary` key.
 * The two scripts differ only in how one category's texts are summarised, which is a parameter.
 */
module SummaryFile {
  import opened Wrappers
  import opened Json
  import Processing

  /** How one category's texts become its summary. */
  type Summarize = seq<string> -> string

  /**
   * The strings `" ".join(texts)` goes through: the items of a list of strings, the characters
   * of a string, the keys of an object. `None` when the join raises (any other value, or a list
   * with an item that is not a string).
   */
  function Iterated(v: Value): Option<seq<string>> {
    match v
    case Str(s) => Some(seq(|s|, i requires 0 <= i < |s| => [s[i]]))
    case List(items) => Processing.StrsOf(items)
    case Object(fs) => Some(Keys(fs))
    case _ => None
  }

  /**
   * The `summaries` dict the loop builds over the entries of `formatted`, in order; `None` when
   * a category with a truthy value cannot be joined, which ends the script with an exception.
   */
  function SummariesOf(fields: Obj, summarize: Summarize): Option<Obj> {
    if |fields| == 0 then Some([])
    else
      match SummariesOf(fields[..|fields| - 1], summarize)
      case None => None
      case Some(acc) =>
        var (category, texts) := fields[|fields| - 1];
        if !Truthy(texts) then Some(acc)
        else
          match Iterated(texts)
          case None => None
          case Some(strs) => Some(Set(acc, category, Str(summarize(strs))))
  }

  /**
   * The document the script writes back: the loaded one with `summary` set to the summaries.
   * `None` when nothing is written: `formatted` is missing or falsy, is not an object, or one of
   * its categories cannot be joined.
   */
  function SummarizedDoc(doc: Obj, summarize: Summarize): Option<Obj> {
    var formatted := GetOr(doc, "formatted", Object([]));
    if !Truthy(formatted) then None
    else
      match formatted
      case Object(fields) =>
        (match SummariesOf(fields, summarize)
         case None => None
         case Some(s) => Some(Set(doc, "summary", Object(s))))
      case _ => None
  }

  /** Every category whose value is truthy can be joined. */
  predicate AllJoinable(fields: Obj) {
    forall i :: 0 <= i < |fields| && Truthy(fields[i].1) ==> Iterated(fields[i].1).Some?
  }

  /** `category` has an entry with a truthy value. */
  predicate HasTexts(fields: Obj, category: string) {
    exists i :: 0 <= i < |fields| && fields[i].0 == category && Truthy(fields[i].1)
  }

  /** The loop completes exactly when every non-empty category can be joined. */
  lemma {:induction false} SummariesOfDefined(fields: Obj, summarize: Summarize)
    ensures SummariesOf(fields, summarize).Some? <==> AllJoinable(fields)
  {
    if |fields| > 0 {
      var n := |fields| - 1;
      var init := fields[..n];
      SummariesOfDefined(init, summarize);
      assert forall i :: 0 <= i < n ==> init[i] == fields[i];
      if AllJoinable(fields) {
        assert AllJoinable(init);
      }
    }
  }

  /** When the loop completes, the summaries have a key for exactly the categories with texts. */
  lemma SummariesOfKeys(fields: Obj, summarize: Summarize)
    requires SummariesOf(fields, summarize).Some?
    ensures forall c :: c in Keys(SummariesOf(fields, summarize).value) <==> HasTexts(fields, c)
  {
    SummariesOfKeysHaveTexts(fields, summarize);
    SummariesOfTextsHaveKeys(fields, summarize);
  }

  /** Every key of the summaries is a category with texts. */
  lemma {:induction false} SummariesOfKeysHaveTexts(fields: Obj, summarize: Summarize)
    requires SummariesOf(fields, summarize).Some?
    ensures forall c :: c in Keys(SummariesOf(fields, summarize).value) ==> HasTexts(fields, c)
  {
    if |fields| > 0 {
      var n := |fields| - 1;
      var init := fields[..n];
      SummariesOfKeysHaveTexts(init, summarize);
      var r := SummariesOf(fields, summarize).value;
      forall c | c in Keys(r) ensures HasTexts(fields, c) {
        if HasTexts(init, c) {
          var i :| 0 <= i < n && init[i].0 == c && Truthy(init[i].1);
          assert fields[i] == init[i];
        } else {
          assert fields[n].0 == c && Truthy(fields[n].1);
        }
      }
    }
  }

  /** Every category with texts is a key of the summaries. */
  lemma {:induction false} SummariesOfTextsHaveKeys(fields: Obj, summarize: Summarize)
    requires SummariesOf(fields, summarize).Some?
    ensures forall c :: HasTexts(fields, c) ==> c in Keys(SummariesOf(fields, summarize).value)
  {
    if |fields| > 0 {
      var n := |fields| - 1;
      var init := fields[..n];
      SummariesOfTextsHaveKeys(init, summarize);
      var r := SummariesOf(fields, summarize).value;
      forall c | HasTexts(fields, c) ensures c in Keys(r) {
        var i :| 0 <= i < |fields| && fields[i].0 == c && Truthy(fields[i].1);
        if i < n {
          assert init[i] == fields[i];
          assert HasTexts(init, c);
        }
      }
    }
  }

  /** With distinct category names, each category with texts holds the summary of its own texts. */
  lemma {:induction false} SummariesOfValues(fields: Obj, summarize: Summarize)
    requires SummariesOf(fields, summarize).Some? && DistinctKeys(fields)
    ensures forall i :: 0 <= i < |fields| && Truthy(fields[i].1) ==>
              Iterated(fields[i].1).Some? &&
              Get(SummariesOf(fields, summarize).value, fields[i].0) == Some(Str(summarize(Iterated(fields[i].1).value)))
  {
    if |fields| > 0 {
      var n := |fields| - 1;
      var init := fields[..n];
      var (category, texts) := fields[n];
      assert DistinctKeys(init) by {
        assert forall i :: 0 <= i < n ==> init[i] == fields[i];
      }
      SummariesOfValues(init, summarize);
      var r := SummariesOf(fields, summarize).value;
      forall i | 0 <= i < |fields| && Truthy(fields[i].1)
        ensures Iterated(fields[i].1).Some? && Get(r, fields[i].0) == Some(Str(summarize(Iterated(fields[i].1).value)))
      {
        if i < n {
          assert init[i] == fields[i];
          assert fields[i].0 != category;
        }
      }
    }
  }

  /** Once a category cannot be joined, the loop over any longer prefix fails too. */
  lemma {:induction false} SummariesOfFailureStays(fields: Obj, j: nat, summarize: Summarize)
    requires j <= |fields| && SummariesOf(fields[..j], summarize).None?
    ensures SummariesOf(fields, summarize).None?
  {
    if j < |fields| {
      assert fields[..|fields| - 1][..j] == fields[..j];
      SummariesOfFailureStays(fields[..|fields| - 1], j, summarize);
    } else {
      assert fields[..j] == fields;
    }
  }

  /**
   * A document is written exactly when `formatted` is a non-empty object whose non-empty
   * categories can all be joined. The written document's `summary` names exactly the categories
   * with non-empty texts, and every other key keeps its value.
   */
  lemma SummarizedDocSpec(doc: Obj, summarize: Summarize)
    ensures SummarizedDoc(doc, summarize).Some? <==>
              var formatted := GetOr(doc, "formatted", Object([]));
              formatted.Object? && formatted.fields != [] && AllJoinable(formatted.fields)
    ensures SummarizedDoc(doc, summarize).Some? ==>
              var fields := GetOr(doc, "formatted", Object([])).fields;
              var r := SummarizedDoc(doc, summarize).value;
              && Get(r, "summary").Some? && Get(r, "summary").value.Object?
              && (forall c :: c in Keys(Get(r, "summary").value.fields) <==> HasTexts(fields, c))
              && (forall k :: k != "summary" ==> Get(r, k) == Get(doc, k))
  {
    var formatted := GetOr(doc, "formatted", Object([]));
    if formatted.Object? {
      SummariesOfDefined(formatted.fields, summarize);
      if SummariesOf(formatted.fields, summarize).Some? {
        SummariesOfKeys(formatted.fields, summarize);
      }
    }
  }

  /** `generate_summary_for_formatted` on a loaded file; `None` for a missing file or no write. */
  method GenerateSummaryForFormatted(file: Option<Obj>, summarize: Summarize) returns (written: Option<Obj>)
    ensures written == if file.None? then None else SummarizedDoc(file.value, summarize)
  {
    if file.None? {
      return None;
    }
    var data := file.value;
    var formatted := GetOr(data, "formatted", Object([]));
    if !Truthy(formatted) || !formatted.Object? {
      return None;
    }
    var fields := formatted.fields;
    var summaries: Obj := [];
    for i := 0 to |fields|
      invariant SummariesOf(fields[..i], summarize) == Some(summaries)
    {
      assert fields[..i + 1][..i] == fields[..i];
      var (category, texts) := fields[i];
      if !Truthy(texts) {
        continue;
      }
      var strs := Iterated(texts);
      if strs.None? {
        SummariesOfFailureStays(fields, i + 1, summarize);
        return None;
      }
      summaries := Set(summaries, category, Str(summarize(strs.value)));
    }
    assert fields[..|fields|] == fields;
    written := Some(Set(data, "summary", Object(summaries)));
  }
}
