/**
 * summarizer2.py: a category's summary comes from a summarisation model whose output length is
 * bounded by the number of words in the category's texts; when the model fails, the texts
 * themselves, joined by spaces, are the summary.
 */
module Summarizer2 {
  import opened Wrappers
  import opened Text
  import Json
  import SummaryFile

  /**
   * `max_len = min(100, max(20, int(n * 0.4)))`, with `int(n * 0.4)` taken as `(2 * n) / 5`. The
   * double 0.4 exceeds 2/5 by 1/(5 * 2^53), so the two are equal for every word count below 2^50
   * and first differ at 3 * 2^50. After the clamp to [20, 100] they are equal for every word count,
   * since both give 100 from 250 words on.
   */
  function MaxLen(n: nat): nat {
    var forty := (2 * n) / 5;
    if forty < 20 then 20 else if forty > 100 then 100 else forty
  }

  /** `min_len = min(10, max_len - 15)` */
  function MinLen(maxLen: nat): int {
    if maxLen - 15 < 10 then maxLen - 15 else 10
  }

  /**
   * The upper bound is always between 20 and 100; inside that range it is 40% of the word count,
   * rounded down, and outside it is the nearer end of the range.
   */
  lemma MaxLenRange(n: nat)
    ensures 20 <= MaxLen(n) <= 100
    ensures 20 <= (2 * n) / 5 <= 100 ==> MaxLen(n) == (2 * n) / 5
    ensures n < 50 ==> MaxLen(n) == 20
    ensures n >= 250 ==> MaxLen(n) == 100
  {
  }

  /** More words never lower the upper bound. */
  lemma MaxLenMonotone(n: nat, m: nat)
    requires n <= m
    ensures MaxLen(n) <= MaxLen(m)
  {
  }

  /** The lower bound is between 5 and 10 and stays at least 15 below the upper bound. */
  lemma MinLenRange(n: nat)
    ensures 5 <= MinLen(MaxLen(n)) <= 10
    ensures MaxLen(n) - MinLen(MaxLen(n)) >= 15
    ensures MaxLen(n) >= 25 ==> MinLen(MaxLen(n)) == 10
  {
    MaxLenRange(n);
  }

  /** The number of words of the space-joined texts, `len(combined.split())`. */
  function WordCount(texts: seq<string>): nat {
    |Words(Join(" ", texts))|
  }

  /** The words of each text, added up. */
  function WordsIn(texts: seq<string>): nat {
    if |texts| == 0 then 0 else |Words(texts[0])| + WordsIn(texts[1..])
  }

  /** Joining with single spaces neither merges nor splits words: the count is the sum. */
  lemma {:induction false} WordCountAdds(texts: seq<string>)
    ensures WordCount(texts) == WordsIn(texts)
  {
    if |texts| > 1 {
      WordCountAdds(texts[1..]);
      var rest := Join(" ", texts[1..]);
      ConcatAssoc(texts[0], " ", rest);
      SplitAcrossSpace(texts[0], " " + rest, IsPySpace);
      SplitDropsLeadingSpace(" " + rest, IsPySpace);
      assert (" " + rest)[1..] == rest;
    } else if |texts| == 1 {
      assert WordsIn(texts[1..]) == 0;
    }
  }

  /**
   * The summarisation model (`no_repeat_ngram_size=3`, greedy decoding) applied to a text with a
   * maximum and a minimum length: its summary, or `None` when the call raises.
   */
  type Model = (string, nat, nat) -> Option<string>

  /** `create_summary(texts, summarizer)` */
  function CreateSummary(texts: seq<string>, model: Model): (r: string)
    ensures var combined := Join(" ", texts);
            var maxLen := MaxLen(WordCount(texts));
            && 5 <= MinLen(maxLen)
            && (model(combined, maxLen, MinLen(maxLen) as nat).None? ==> r == combined)
            && (model(combined, maxLen, MinLen(maxLen) as nat).Some? ==> r == model(combined, maxLen, MinLen(maxLen) as nat).value)
  {
    var combined := Join(" ", texts);
    var maxLen := MaxLen(WordCount(texts));
    MinLenRange(WordCount(texts));
    match model(combined, maxLen, MinLen(maxLen) as nat)
    case Some(summary) => summary
    case None => combined
  }

  /** summarizer2.py's `generate_summary_for_formatted` on a loaded topic file. */
  function SummarizedByModel(doc: Json.Obj, model: Model): Option<Json.Obj> {
    SummaryFile.SummarizedDoc(doc, texts => CreateSummary(texts, model))
  }
}
