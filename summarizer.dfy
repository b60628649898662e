/**
 * summarizer.py: a category's summary is a generated sentence when the paraphrasing model gives an
 * acceptable one, and otherwise a sentence built from a template and the category's key concepts.
 */
module Summarizer {
  import opened Wrappers
  import opened Text
  import Counter
  import Json
  import Titles
  import SummaryFile

  // ---------------------------------------------------------------- extract_key_concepts

  /** Words never taken as concepts. */
  const ConceptStopWords: seq<string> := [
    "the", "a", "an", "and", "or", "but", "in", "on", "at", "to", "for",
    "of", "with", "by", "from", "as", "is", "are", "was", "were", "be",
    "been", "being", "have", "has", "had", "do", "does", "did", "will",
    "would", "could", "should", "may", "might", "can", "this", "that",
    "these", "those", "their", "more", "over", "help", "reach"
  ]

  /** `w` is one of the stop words from index `i` on; `IsConceptStopWord(w, 0)` is `w in stop_words`. */
  predicate IsConceptStopWord(w: string, i: nat)
    decreases |ConceptStopWords| - i
  {
    i < |ConceptStopWords| && (ConceptStopWords[i] == w || IsConceptStopWord(w, i + 1))
  }

  /**
   * A cleaned word counts as a concept: non-empty, not a stop word, longer than 4 characters, and
   * ending in neither "ing" nor "ed".
   */
  predicate IsConcept(clean: string) {
    clean != [] && !IsConceptStopWord(clean, 0) && |clean| > 4
    && !EndsWith(clean, "ing") && !EndsWith(clean, "ed")
  }

  /** The cleaned words of `words` that count as concepts, in order. */
  function Concepts(words: seq<string>): seq<string> {
    if |words| == 0 then []
    else
      var clean := KeepWordChars(words[|words| - 1]);
      Concepts(words[..|words| - 1]) + if IsConcept(clean) then [clean] else []
  }

  /** Every collected concept is a concept. */
  lemma {:induction false} ConceptsAreConcepts(words: seq<string>)
    ensures forall x :: x in Concepts(words) ==> IsConcept(x)
  {
    if |words| > 0 {
      var init := words[..|words| - 1];
      var clean := KeepWordChars(words[|words| - 1]);
      ConceptsAreConcepts(init);
      assert Concepts(words) == Concepts(init) + if IsConcept(clean) then [clean] else [];
    }
  }

  /** Every word whose cleaned form is a concept is collected. */
  lemma {:induction false} ConceptsComplete(words: seq<string>)
    ensures forall i :: 0 <= i < |words| && IsConcept(KeepWordChars(words[i])) ==>
              KeepWordChars(words[i]) in Concepts(words)
  {
    if |words| > 0 {
      var n := |words| - 1;
      var init := words[..n];
      var clean := KeepWordChars(words[n]);
      ConceptsComplete(init);
      assert Concepts(words) == Concepts(init) + if IsConcept(clean) then [clean] else [];
      forall i | 0 <= i < |words| && IsConcept(KeepWordChars(words[i]))
        ensures KeepWordChars(words[i]) in Concepts(words)
      {
        if i < n {
          assert init[i] == words[i];
        }
      }
    }
  }

  /** How many concepts `extract_key_concepts` keeps. */
  const KeyConceptLimit: nat := 5

  /** `extract_key_concepts(text)`: the five most common concepts, the first seen among equals. */
  function KeyConcepts(text: string): seq<string> {
    var q := Concepts(Titles.ScannedWords(text));
    assert Counter.Of(q).Valid() by {
      Counter.OfCounts(q);
    }
    Counter.MostCommon(Counter.Of(q), KeyConceptLimit)
  }

  /**
   * At most five key concepts, as many as there are distinct concepts up to five; each is a
   * concept of the text; they are distinct and in non-increasing order of frequency; and no
   * concept left out occurs more often than one taken.
   */
  lemma KeyConceptsSpec(text: string)
    ensures var q := Concepts(Titles.ScannedWords(text));
            var r := KeyConcepts(text);
            && |r| <= 5
            && |r| == (if 5 <= |set x | x in q| then 5 else |set x | x in q|)
            && (forall x :: x in r ==> x in q && IsConcept(x))
            && (forall i, j :: 0 <= i < j < |r| ==> r[i] != r[j] && Counter.Count(q, r[i]) >= Counter.Count(q, r[j]))
            && (forall x, i :: x in q && x !in r && 0 <= i < |r| ==> Counter.Count(q, x) <= Counter.Count(q, r[i]))
  {
    var q := Concepts(Titles.ScannedWords(text));
    Counter.MostCommonOfList(q, KeyConceptLimit);
    ConceptsAreConcepts(Titles.ScannedWords(text));
  }

  /** The collecting loop of `extract_key_concepts`. */
  method CollectConcepts(words: seq<string>) returns (concepts: seq<string>)
    ensures concepts == Concepts(words)
  {
    concepts := [];
    for i := 0 to |words|
      invariant concepts == Concepts(words[..i])
    {
      assert words[..i + 1][..i] == words[..i];
      var clean := KeepWordChars(words[i]);
      if clean != [] && !IsConceptStopWord(clean, 0) && |clean| > 4 {
        if !EndsWith(clean, "ing") && !EndsWith(clean, "ed") {
          concepts := concepts + [clean];
        }
      }
    }
    assert words[..|words|] == words;
  }

  /** `extract_key_concepts` as written: collect the concepts, count them, keep the top five. */
  method ExtractKeyConcepts(text: string) returns (r: seq<string>)
    ensures r == KeyConcepts(text)
  {
    var concepts := CollectConcepts(Titles.ScannedWords(text));
    Counter.OfCounts(concepts);
    r := Counter.MostCommon(Counter.Of(concepts), KeyConceptLimit);
  }

  // ---------------------------------------------------------------- create_manual_summary

  /** `create_manual_summary(texts, key_concepts)` with `num = len(texts)`. */
  function ManualSummary(num: nat, concepts: seq<string>): string {
    if |concepts| == 0 then "Collection of " + Dec(num) + " related entries."
    else if num == 1 then "Focuses on " + concepts[0] + "."
    else if |concepts| >= 3 then
      "Covers " + concepts[0] + ", " + concepts[1] + ", and " + concepts[2] + " across " + Dec(num) + " entries."
    else if |concepts| == 2 then
      "Discusses " + concepts[0] + " and " + concepts[1] + " in " + Dec(num) + " entries."
    else "Explores " + concepts[0] + " through " + Dec(num) + " different perspectives."
  }

  /** `s` occurs somewhere in `t`. */
  ghost predicate Mentions(t: string, s: string) {
    exists i: nat :: i <= |t| && OccursAt(t, s, i)
  }

  /**
   * The template is picked by its opening word: "Collection" exactly when there are no concepts,
   * "Focuses" exactly when there are concepts and one text (whatever the number of concepts),
   * otherwise "Covers", "Discusses" or "Explores" for three or more, two, or one concept.
   */
  lemma ManualSummaryTemplate(num: nat, concepts: seq<string>)
    ensures var r := ManualSummary(num, concepts);
            && (StartsWith(r, "Collection of ") <==> |concepts| == 0)
            && (StartsWith(r, "Focuses on ") <==> |concepts| > 0 && num == 1)
            && (StartsWith(r, "Covers ") <==> |concepts| >= 3 && num != 1)
            && (StartsWith(r, "Discusses ") <==> |concepts| == 2 && num != 1)
            && (StartsWith(r, "Explores ") <==> |concepts| == 1 && num != 1)
  {
    var r := ManualSummary(num, concepts);
    var col, foc, cov, dis, exp := "Collection of ", "Focuses on ", "Covers ", "Discusses ", "Explores ";
    if |concepts| == 0 {
      assert StartsWith(r, col);
      OpeningsDiffer(r, col, foc, 0);
      OpeningsDiffer(r, col, cov, 2);
      OpeningsDiffer(r, col, dis, 0);
      OpeningsDiffer(r, col, exp, 0);
    } else if num == 1 {
      assert StartsWith(r, foc);
      OpeningsDiffer(r, foc, col, 0);
      OpeningsDiffer(r, foc, cov, 0);
      OpeningsDiffer(r, foc, dis, 0);
      OpeningsDiffer(r, foc, exp, 0);
    } else if |concepts| >= 3 {
      assert StartsWith(r, cov);
      OpeningsDiffer(r, cov, col, 2);
      OpeningsDiffer(r, cov, foc, 0);
      OpeningsDiffer(r, cov, dis, 0);
      OpeningsDiffer(r, cov, exp, 0);
    } else if |concepts| == 2 {
      assert StartsWith(r, dis);
      OpeningsDiffer(r, dis, col, 0);
      OpeningsDiffer(r, dis, foc, 0);
      OpeningsDiffer(r, dis, cov, 0);
      OpeningsDiffer(r, dis, exp, 0);
    } else {
      assert StartsWith(r, exp);
      OpeningsDiffer(r, exp, col, 0);
      OpeningsDiffer(r, exp, foc, 0);
      OpeningsDiffer(r, exp, cov, 0);
      OpeningsDiffer(r, exp, dis, 0);
    }
  }

  /** A string cannot start with two openings that differ at some index. */
  lemma OpeningsDiffer(r: string, a: string, b: string, i: nat)
    requires i < |a| && i < |b| && a[i] != b[i] && StartsWith(r, a)
    ensures !StartsWith(r, b)
  {
    assert r[i] == a[i];
  }

  /** `s` is found in `a + s + b`. */
  lemma MentionsMiddle(a: string, s: string, b: string)
    ensures Mentions(a + s + b, s)
  {
    var t := a + s + b;
    assert OccursAt(t, s, |a|);
  }

  /** The summary names the first concept when there is one. */
  lemma ManualSummaryNamesConcept(num: nat, concepts: seq<string>)
    requires |concepts| > 0
    ensures Mentions(ManualSummary(num, concepts), concepts[0])
  {
    var r := ManualSummary(num, concepts);
    var p := if num == 1 then "Focuses on " else if |concepts| >= 3 then "Covers "
             else if |concepts| == 2 then "Discusses " else "Explores ";
    assert r[|p|..|p| + |concepts[0]|] == concepts[0];
    MentionsAt(r, concepts[0], |p|);
  }

  /** `s` is found in `t` at index `i`. */
  lemma MentionsAt(t: string, s: string, i: nat)
    requires i + |s| <= |t| && t[i..i + |s|] == s
    ensures Mentions(t, s)
  {
    assert OccursAt(t, s, i);
  }

  /** The summary names the number of texts in every case but the single-text one. */
  lemma ManualSummaryNamesCount(num: nat, concepts: seq<string>)
    requires |concepts| == 0 || num != 1
    ensures Mentions(ManualSummary(num, concepts), Dec(num))
  {
    var c := concepts;
    var d := Dec(num);
    if |c| == 0 {
      MentionsMiddle("Collection of ", d, " related entries.");
    } else if |c| >= 3 {
      MentionsMiddle("Covers " + c[0] + ", " + c[1] + ", and " + c[2] + " across ", d, " entries.");
    } else if |c| == 2 {
      MentionsMiddle("Discusses " + c[0] + " and " + c[1] + " in ", d, " entries.");
    } else {
      MentionsMiddle("Explores " + c[0] + " through ", d, " different perspectives.");
    }
  }

  // ---------------------------------------------------------------- create_condensed_summary

  /** The prompt given to the paraphrasing model. */
  function Prompt(combined: string, concepts: seq<string>): string {
    if |concepts| < 2 then "Summarize in one sentence: " + Take(combined, 500)
    else "Write a brief summary about " + Join(", ", Take4(concepts)) + " based on: " + Take(combined, 400)
  }

  /** `key_concepts[:4]` */
  function Take4(concepts: seq<string>): (r: seq<string>)
    ensures |r| == if |concepts| < 4 then |concepts| else 4
    ensures r == concepts[..|r|]
  {
    if |concepts| <= 4 then concepts else concepts[..4]
  }

  /**
   * With fewer than two concepts the prompt asks for one sentence about the first 500 characters;
   * otherwise it asks for a summary about the first four concepts, with the first 400 characters.
   */
  lemma PromptShape(combined: string, concepts: seq<string>)
    ensures var p := Prompt(combined, concepts);
            && (StartsWith(p, "Summarize in one sentence: ") <==> |concepts| < 2)
            && (StartsWith(p, "Write a brief summary about ") <==> |concepts| >= 2)
            && (|concepts| < 2 ==> EndsWith(p, Take(combined, 500)))
            && (|concepts| >= 2 ==> EndsWith(p, " based on: " + Take(combined, 400)))
            && (|concepts| >= 2 ==>
                  p == "Write a brief summary about " + Join(", ", concepts[..if |concepts| < 4 then |concepts| else 4])
                       + " based on: " + Take(combined, 400))
  {
    var p := Prompt(combined, concepts);
    var one := "Summarize in one sentence: ";
    var brief := "Write a brief summary about ";
    if |concepts| < 2 {
      assert p[..|one|] == one;
      OpeningsDiffer(p, one, brief, 0);
      assert p[|p| - |Take(combined, 500)|..] == Take(combined, 500);
    } else {
      assert p[..|brief|] == brief;
      OpeningsDiffer(p, brief, one, 0);
      var tail := " based on: " + Take(combined, 400);
      assert p == brief + Join(", ", Take4(concepts)) + tail;
      assert p[|p| - |tail|..] == tail;
    }
  }

  /**
   * A generated summary is kept when it is non-empty, longer than 15 characters, and not the
   * opening of the combined text up to ASCII case.
   */
  predicate Accepted(summary: string, combined: string) {
    summary != [] && |summary| > 15 && Lower(summary) != Lower(Take(combined, |summary|))
  }

  /** A generated summary that only repeats the opening of the texts is never kept. */
  lemma CopiedOpeningRejected(summary: string, combined: string)
    requires StartsWith(combined, summary)
    ensures !Accepted(summary, combined)
  {
    assert Take(combined, |summary|) == summary;
  }

  /**
   * The paraphrasing model (`max_length=60`, `min_length=15`, greedy decoding) applied to a
   * prompt: its generated text, or `None` when the call raises.
   */
  type Paraphraser = string -> Option<string>

  /** `create_condensed_summary(texts, paraphraser)` */
  function CondensedSummary(texts: seq<string>, paraphrase: Paraphraser): string {
    var combined := Join(" ", texts);
    Condensed(|texts|, combined, KeyConcepts(combined), paraphrase)
  }

  /**
   * The choice `create_condensed_summary` makes for `num` texts joined into `combined`, with key
   * concepts `concepts`: the stripped generated text when it is accepted, the manual summary
   * otherwise.
   */
  function Condensed(num: nat, combined: string, concepts: seq<string>, paraphrase: Paraphraser): (r: string)
    ensures var p := paraphrase(Prompt(combined, concepts));
            p.Some? && Accepted(Strip(p.value, IsPySpace), combined) ==> r == Strip(p.value, IsPySpace)
    ensures var p := paraphrase(Prompt(combined, concepts));
            !(p.Some? && Accepted(Strip(p.value, IsPySpace), combined)) ==> r == ManualSummary(num, concepts)
  {
    match paraphrase(Prompt(combined, concepts))
    case Some(raw) =>
      var summary := Strip(raw, IsPySpace);
      if Accepted(summary, combined) then summary else ManualSummary(num, concepts)
    case None => ManualSummary(num, concepts)
  }

  /** A failing model, or one that only copies the opening of the texts, gives the manual summary. */
  lemma CondensedFallback(num: nat, combined: string, concepts: seq<string>, paraphrase: Paraphraser)
    requires var p := paraphrase(Prompt(combined, concepts));
             p.None? || StartsWith(combined, Strip(p.value, IsPySpace))
    ensures Condensed(num, combined, concepts, paraphrase) == ManualSummary(num, concepts)
  {
    var p := paraphrase(Prompt(combined, concepts));
    if p.Some? {
      CopiedOpeningRejected(Strip(p.value, IsPySpace), combined);
    }
  }

  /** summarizer.py's `generate_summary_for_formatted` on a loaded topic file. */
  function SummarizedByParaphrase(doc: Json.Obj, paraphrase: Paraphraser): Option<Json.Obj> {
    SummaryFile.SummarizedDoc(doc, texts => CondensedSummary(texts, paraphrase))
  }
}
