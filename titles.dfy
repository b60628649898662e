/**
 * Cluster titles in the categoriser: a classifier label shortened to a few capitalised words, or,
 * when the classifier does not settle on a label, the most frequent key noun of the texts.
 */
module Titles {
  import opened Wrappers
  import opened Text
  import Counter

  /**
   * The zero-shot classifier applied to a text: its top candidate label when the label's score is
   * above 0.3, and `None` when the score is lower or the classifier raises.
   */
  type Classifier = string -> Option<string>

  // ---------------------------------------------------------------- shorten_topic

  /** `j` is the index of the first `" and "` in `t`. */
  predicate FirstAnd(t: string, j: nat) {
    OccursAt(t, " and ", j) && forall i :: 0 <= i < j ==> !OccursAt(t, " and ", i)
  }

  /**
   * A label is cut exactly when the part before its first `" and "` has at least two words, and
   * the cut keeps exactly that part.
   */
  function Truncated(topic: string): (r: string)
    ensures r != topic <==> exists j: nat :: FirstAnd(topic, j) && |Words(topic[..j])| >= 2
    ensures r != topic ==> |r| < |topic| && FirstAnd(topic, |r|) && r == topic[..|r|]
  {
    match IndexOf(topic, " and ")
    case Some(j) =>
      FirstAndAt(topic, j);
      if |Words(topic[..j])| >= 2 then topic[..j] else topic
    case None =>
      NoFirstAnd(topic);
      topic
  }

  /** The index `find` reports is the only first `" and "`. */
  lemma FirstAndAt(t: string, j: nat)
    requires IndexOf(t, " and ") == Some(j)
    ensures FirstAnd(t, j) && j < |t|
    ensures forall k: nat :: FirstAnd(t, k) ==> k == j
  {
  }

  /** Without an `" and "` there is no first one. */
  lemma NoFirstAnd(t: string)
    requires IndexOf(t, " and ") == None
    ensures forall k: nat :: !FirstAnd(t, k)
  {
  }

  /** `shorten_topic(topic)`: the (cut) label's words, each capitalised, joined by single spaces. */
  function ShortenTopic(topic: string): string {
    Join(" ", CapitalizeAll(Words(Truncated(topic))))
  }

  /** Letters are not whitespace. */
  lemma LettersAreNotPySpace()
    ensures forall c: char :: ('a' <= c <= 'z' || 'A' <= c <= 'Z') ==> !IsPySpace(c)
  {
  }

  /** Capitalising whitespace-free words gives whitespace-free words. */
  lemma CapitalizeAllWords(ws: seq<string>)
    requires forall w :: w in ws ==> IsWord(w, IsPySpace)
    ensures |CapitalizeAll(ws)| == |ws|
    ensures forall w :: w in CapitalizeAll(ws) ==> IsWord(w, IsPySpace)
  {
    LettersAreNotPySpace();
    forall w | w in CapitalizeAll(ws) ensures IsWord(w, IsPySpace) {
      var i :| 0 <= i < |ws| && CapitalizeAll(ws)[i] == w;
      assert ws[i] in ws;
      CapitalizeKeepsShape(ws[i], IsPySpace);
    }
  }

  /**
   * A shortened topic splits back into exactly the capitalised words of the (cut) label: words are
   * separated by single spaces and no word is empty.
   */
  lemma ShortenTopicWords(topic: string)
    ensures Words(ShortenTopic(topic)) == CapitalizeAll(Words(Truncated(topic)))
  {
    CapitalizeAllWords(Words(Truncated(topic)));
    SplitJoinRoundTrip(CapitalizeAll(Words(Truncated(topic))), " ", IsPySpace);
  }

  /** Every word of a shortened topic is already capitalised. */
  lemma ShortenTopicCapitalized(topic: string)
    ensures forall w :: w in Words(ShortenTopic(topic)) ==> Capitalize(w) == w
  {
    ShortenTopicWords(topic);
    CapitalizedAll(Words(Truncated(topic)));
  }

  /** Every word of CapitalizeAll is already capitalised. */
  lemma CapitalizedAll(ws: seq<string>)
    ensures forall w :: w in CapitalizeAll(ws) ==> Capitalize(w) == w
  {
    forall w | w in CapitalizeAll(ws) ensures Capitalize(w) == w {
      var i :| 0 <= i < |ws| && CapitalizeAll(ws)[i] == w;
      CapitalizeIdempotent(ws[i]);
    }
  }

  // ---------------------------------------------------------------- extract_key_nouns

  /** Words never taken as key nouns. */
  const StopWords: seq<string> := [
    "the", "a", "an", "and", "or", "but", "in", "on", "at", "to", "for",
    "of", "with", "by", "from", "is", "are", "was", "were", "been", "be",
    "have", "has", "had", "do", "does", "did", "will", "would", "could",
    "should", "may", "might", "must", "can", "this", "that", "these", "those",
    "i", "you", "he", "she", "it", "we", "they", "them", "their", "its",
    "new", "released", "announced", "introduced", "discovered", "continues"
  ]

  /** A cleaned word counts as a key noun: not a stop word, longer than 4 characters, not a number. */
  predicate IsKeyNoun(clean: string) {
    !IsStopWord(clean, 0) && |clean| > 4 && !AllDigits(clean)
  }

  /** `w` is one of the stop words from index `i` on; `IsStopWord(w, 0)` is `w in stop_words`. */
  predicate IsStopWord(w: string, i: nat)
    decreases |StopWords| - i
  {
    i < |StopWords| && (StopWords[i] == w || IsStopWord(w, i + 1))
  }

  /** The cleaned words of `words` that count as key nouns, in order. */
  function Candidates(words: seq<string>): seq<string> {
    if words == [] then []
    else
      var clean := KeepWordChars(words[|words| - 1]);
      Candidates(words[..|words| - 1]) + if IsKeyNoun(clean) then [clean] else []
  }

  /** Every candidate is a key noun. */
  lemma {:induction false} CandidatesAreKeyNouns(words: seq<string>)
    ensures forall x :: x in Candidates(words) ==> IsKeyNoun(x)
  {
    if words != [] {
      var init := words[..|words| - 1];
      var clean := KeepWordChars(words[|words| - 1]);
      CandidatesAreKeyNouns(init);
      assert Candidates(words) == Candidates(init) + if IsKeyNoun(clean) then [clean] else [];
    }
  }

  /** Every word whose cleaned form is a key noun is counted. */
  lemma {:induction false} CandidatesComplete(words: seq<string>)
    ensures forall i :: 0 <= i < |words| && IsKeyNoun(KeepWordChars(words[i])) ==>
              KeepWordChars(words[i]) in Candidates(words)
  {
    if words != [] {
      var n := |words| - 1;
      var init := words[..n];
      var clean := KeepWordChars(words[n]);
      CandidatesComplete(init);
      assert Candidates(words) == Candidates(init) + if IsKeyNoun(clean) then [clean] else [];
      forall i | 0 <= i < |words| && IsKeyNoun(KeepWordChars(words[i]))
        ensures KeepWordChars(words[i]) in Candidates(words)
      {
        if i < n {
          assert init[i] == words[i];
        }
      }
    }
  }

  /** Every candidate is made of word characters only. */
  lemma {:induction false} CandidatesAreWordChars(words: seq<string>)
    ensures forall x :: x in Candidates(words) ==> WordChars(x)
  {
    if words != [] {
      var init := words[..|words| - 1];
      var clean := KeepWordChars(words[|words| - 1]);
      CandidatesAreWordChars(init);
      assert Candidates(words) == Candidates(init) + if IsKeyNoun(clean) then [clean] else [];
    }
  }

  /** The text's words as `extract_key_nouns` scans them: lower-cased, split on whitespace. */
  function ScannedWords(text: string): seq<string> {
    Words(Lower(text))
  }

  /** The first entry of `most_common(1)` of the counted words, or `None` when there are none. */
  function TopWord(q: seq<string>): Option<string> {
    var c := Counter.Of(q);
    if c.keys == [] then None
    else
      assert c.Valid() && |Counter.MostCommon(c, 1)| == 1 by {
        Counter.OfCounts(q);
        Counter.MostCommonLength(c, 1);
      }
      Some(Counter.MostCommon(c, 1)[0])
  }

  /**
   * There is a top word exactly when there are words; it is one of them, and none of them occurs
   * more often.
   */
  lemma TopWordSpec(q: seq<string>)
    ensures TopWord(q).None? <==> q == []
    ensures TopWord(q).Some? ==> TopWord(q).value in q
    ensures TopWord(q).Some? ==> forall x :: x in q ==> Counter.Count(q, x) <= Counter.Count(q, TopWord(q).value)
  {
    Counter.OfCounts(q);
    var c := Counter.Of(q);
    if q != [] {
      assert q[0] in c.keys;
      Counter.MostCommonOfList(q, 1);
      var w := Counter.MostCommon(c, 1)[0];
      assert w in Counter.MostCommon(c, 1);
      forall x | x in q ensures Counter.Count(q, x) <= Counter.Count(q, w) {
        if x != w {
          assert x !in Counter.MostCommon(c, 1);
        }
      }
    } else {
      assert c.keys == [];
    }
  }

  /** The fallback title when no word qualifies. */
  const GeneralTopics: string := "General Topics"

  /**
   * `extract_key_nouns(text)`: "General Topics" when no word qualifies, otherwise the capitalised
   * qualifying word with the highest count, the first one seen among equals.
   */
  function KeyNoun(text: string): string {
    match TopWord(Candidates(ScannedWords(text)))
    case None => GeneralTopics
    case Some(w) => Capitalize(w)
  }

  /** The counting loop of `extract_key_nouns`. */
  method CountKeyNouns(words: seq<string>) returns (freq: Counter.Counter)
    ensures freq == Counter.Of(Candidates(words))
  {
    freq := Counter.Empty;
    for i := 0 to |words|
      invariant freq == Counter.Of(Candidates(words[..i]))
    {
      var clean := KeepWordChars(words[i]);
      ghost var q := Candidates(words[..i]);
      assert Candidates(words[..i + 1]) == q + if IsKeyNoun(clean) then [clean] else [] by {
        assert words[..i + 1][..i] == words[..i];
        assert words[..i + 1][i] == words[i];
      }
      if IsKeyNoun(clean) {
        assert (q + [clean])[..|q|] == q;
        freq := freq.Add(clean);
      } else {
        assert q + [] == q;
      }
    }
    assert words[..|words|] == words;
  }

  /** `extract_key_nouns` as written: count the qualifying words, then take the most common one. */
  method ExtractKeyNouns(text: string) returns (title: string)
    ensures title == KeyNoun(text)
  {
    var freq := CountKeyNouns(ScannedWords(text));
    if freq.keys == [] {
      return GeneralTopics;
    }
    Counter.OfCounts(Candidates(ScannedWords(text)));
    Counter.MostCommonLength(freq, 1);
    title := Capitalize(Counter.MostCommon(freq, 1)[0]);
  }

  /** Capitalising a string of word characters gives a string without a space. */
  lemma CapitalizedWordHasNoSpace(w: string)
    requires WordChars(w)
    ensures |Capitalize(w)| == |w| && forall i :: 0 <= i < |w| ==> Capitalize(w)[i] != ' '
  {
    if w != [] {
      var c := Capitalize(w);
      forall i | 0 <= i < |w| ensures c[i] != ' ' {
        if i == 0 {
          assert c[0] == UpperChar(w[0]);
        } else {
          assert c[i] == Lower(w[1..])[i - 1] == LowerChar(w[1..][i - 1]);
        }
      }
    }
  }

  /** The fallback title has a space at index 7. */
  lemma GeneralTopicsHasSpace()
    ensures |GeneralTopics| == 14 && GeneralTopics[7] == ' '
  {
  }

  /** The fallback is "General Topics" exactly when no word of the text qualifies. */
  lemma KeyNounGeneral(text: string)
    ensures KeyNoun(text) == GeneralTopics <==> Candidates(ScannedWords(text)) == []
  {
    var q := Candidates(ScannedWords(text));
    TopWordSpec(q);
    if q != [] {
      var w := TopWord(q).value;
      CandidatesAreWordChars(ScannedWords(text));
      CapitalizedWordHasNoSpace(w);
      GeneralTopicsHasSpace();
    }
  }

  /**
   * When some word qualifies, the title is a qualifying word, capitalised, and no qualifying word
   * occurs more often than it.
   */
  lemma KeyNounMostFrequent(text: string)
    requires Candidates(ScannedWords(text)) != []
    ensures exists w :: && w in Candidates(ScannedWords(text))
                        && KeyNoun(text) == Capitalize(w)
                        && forall x :: x in Candidates(ScannedWords(text)) ==>
                             Counter.Count(Candidates(ScannedWords(text)), x) <= Counter.Count(Candidates(ScannedWords(text)), w)
  {
    var q := Candidates(ScannedWords(text));
    TopWordSpec(q);
    var w := TopWord(q).value;
    assert KeyNoun(text) == Capitalize(w);
  }

  // ---------------------------------------------------------------- generate_title_from_cluster

  /**
   * `generate_title_from_cluster(texts)`: the shortened classifier label when the classifier accepts
   * one for the space-joined texts, the key noun of the joined texts otherwise.
   */
  function Title(texts: seq<string>, classify: Classifier): string {
    var combined := Join(" ", texts);
    match classify(combined)
    case Some(topic) => ShortenTopic(topic)
    case None => KeyNoun(combined)
  }
}
