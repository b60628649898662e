/**
 * The string operations the Python backend and the JavaScript frontend rely on:
 * whitespace classes, `str.split()`, `str.strip()`, `String.prototype.trim()`,
 * `' '.join(...)`, `str.lower()`, `str.capitalize()`, `str(n)`, slicing and searching.
 * Case mapping is modelled for ASCII letters only.
 */
module Text {
  import opened Wrappers

  // ---------------------------------------------------------------- characters

  /** Python's `str.isspace()`: the characters `str.split()` and `str.strip()` treat as whitespace. */
  predicate IsPySpace(c: char) {
    var n := c as int;
    n == 32 || 9 <= n <= 13 || 28 <= n <= 31 || n == 0x85 || n == 0xA0 || n == 0x1680
    || 0x2000 <= n <= 0x200A || n == 0x2028 || n == 0x2029 || n == 0x202F || n == 0x205F || n == 0x3000
  }

  /** JavaScript's `\s` class, which is also what `String.prototype.trim()` removes. */
  predicate IsJsSpace(c: char) {
    var n := c as int;
    n == 32 || 9 <= n <= 13 || n == 0xA0 || n == 0x1680
    || 0x2000 <= n <= 0x200A || n == 0x2028 || n == 0x2029 || n == 0x202F || n == 0x205F || n == 0x3000
    || n == 0xFEFF
  }

  predicate IsAsciiDigit(c: char) { '0' <= c <= '9' }

  /**
   * The regular-expression class `\w`: ASCII letters, digits and `_`; characters beyond ASCII
   * that are not whitespace are counted as word characters (letters such as 'ä').
   */
  predicate IsWordChar(c: char) {
    ('a' <= c <= 'z') || ('A' <= c <= 'Z') || IsAsciiDigit(c) || c == '_'
    || (c as int >= 128 && !IsPySpace(c))
  }

  function LowerChar(c: char): char {
    if 'A' <= c <= 'Z' then (c as int + 32) as char else c
  }

  function UpperChar(c: char): char {
    if 'a' <= c <= 'z' then (c as int - 32) as char else c
  }

  /** `s.lower()` */
  function Lower(s: string): string {
    seq(|s|, i requires 0 <= i < |s| => LowerChar(s[i]))
  }

  /** `w.capitalize()`: the first character upper-cased, the rest lower-cased. */
  function Capitalize(w: string): string {
    if w == [] then [] else [UpperChar(w[0])] + Lower(w[1..])
  }

  function CapitalizeAll(ws: seq<string>): seq<string> {
    seq(|ws|, i requires 0 <= i < |ws| => Capitalize(ws[i]))
  }

  // ---------------------------------------------------------------- predicates on strings

  /** No character of `s` satisfies `p`. */
  predicate NoneIn(s: string, p: char -> bool) {
    forall i :: 0 <= i < |s| ==> !p(s[i])
  }

  /** Every character of `s` satisfies `p`. */
  predicate AllIn(s: string, p: char -> bool) {
    forall i :: 0 <= i < |s| ==> p(s[i])
  }

  /** `s` neither starts nor ends with a character satisfying `p`. */
  predicate EndsClear(s: string, p: char -> bool) {
    s != [] ==> !p(s[0]) && !p(s[|s| - 1])
  }

  predicate StartsWith(s: string, prefix: string) {
    |prefix| <= |s| && s[..|prefix|] == prefix
  }

  /** `s.endswith(suffix)` */
  predicate EndsWith(s: string, suffix: string) {
    |suffix| <= |s| && s[|s| - |suffix|..] == suffix
  }

  /** `s[:n]`: Python slicing clamps an end beyond the string. */
  function Take(s: string, n: nat): string {
    if n <= |s| then s[..n] else s
  }

  /** `s.isdigit()` on ASCII: non-empty and made of digits only. */
  predicate AllDigits(s: string) {
    s != [] && forall i :: 0 <= i < |s| ==> IsAsciiDigit(s[i])
  }

  /** Every character of `s` is a word character. */
  predicate WordChars(s: string) {
    forall i :: 0 <= i < |s| ==> IsWordChar(s[i])
  }

  /** `re.sub(r'[^\w]', '', s)`: the word characters of `s`, in order. */
  function KeepWordChars(s: string): (r: string)
    ensures |r| <= |s|
    ensures WordChars(r)
    ensures WordChars(s) ==> r == s
  {
    if s == [] then []
    else if IsWordChar(s[0]) then
      assert WordChars(s) ==> WordChars(s[1..]) by {
        if WordChars(s) {
          forall i | 0 <= i < |s[1..]| ensures IsWordChar(s[1..][i]) {
            assert s[1..][i] == s[i + 1];
          }
        }
      }
      [s[0]] + KeepWordChars(s[1..])
    else KeepWordChars(s[1..])
  }

  /** Cleaning works character by character: it distributes over concatenation. */
  lemma {:induction false} KeepWordCharsConcat(a: string, b: string)
    ensures KeepWordChars(a + b) == KeepWordChars(a) + KeepWordChars(b)
  {
    if a != [] {
      assert (a + b)[0] == a[0] && (a + b)[1..] == a[1..] + b;
      KeepWordCharsConcat(a[1..], b);
    } else {
      assert a + b == b;
    }
  }

  // ---------------------------------------------------------------- searching

  /** `pat` occurs in `s` at index `j`. */
  predicate OccursAt(s: string, pat: string, j: nat) {
    j + |pat| <= |s| && s[j..j + |pat|] == pat
  }

  /** Index of the first occurrence of `pat` in `s` at or after `from`. */
  function IndexFrom(s: string, pat: string, from: nat): (r: Option<nat>)
    requires from <= |s|
    decreases |s| - from
    ensures r.Some? ==> from <= r.value && OccursAt(s, pat, r.value)
    ensures r.Some? ==> forall j :: from <= j < r.value ==> !OccursAt(s, pat, j)
    ensures r.None? ==> forall j :: from <= j ==> !OccursAt(s, pat, j)
  {
    if from + |pat| > |s| then None
    else if s[from..from + |pat|] == pat then Some(from)
    else IndexFrom(s, pat, from + 1)
  }

  /** `s.find(pat)`, with `None` for -1. */
  function IndexOf(s: string, pat: string): Option<nat> {
    IndexFrom(s, pat, 0)
  }

  // ---------------------------------------------------------------- join and split

  /** `sep.join(ws)` */
  function Join(sep: string, ws: seq<string>): string {
    if |ws| == 0 then []
    else if |ws| == 1 then ws[0]
    else ws[0] + sep + Join(sep, ws[1..])
  }

  /** A word: non-empty, and no character satisfies `sp`. */
  predicate IsWord(w: string, sp: char -> bool) {
    w != [] && NoneIn(w, sp)
  }

  /** `s` without its leading characters that satisfy `sp`. */
  function SkipSpace(s: string, sp: char -> bool): (r: string)
    ensures |r| <= |s| && r == s[|s| - |r|..]
    ensures r != [] ==> !sp(r[0])
    ensures NoneIn(s, sp) ==> r == s
  {
    if s != [] && sp(s[0]) then SkipSpace(s[1..], sp) else s
  }

  /** Length of the longest prefix of `s` with no character satisfying `sp`. */
  function WordLen(s: string, sp: char -> bool): (n: nat)
    ensures n <= |s| && NoneIn(s[..n], sp)
    ensures n < |s| ==> sp(s[n])
    ensures s != [] && !sp(s[0]) ==> n >= 1
  {
    if s == [] || sp(s[0]) then 0 else 1 + WordLen(s[1..], sp)
  }

  /**
   * The maximal runs of characters not satisfying `sp`, in order: Python's `s.split()` when `sp`
   * is IsPySpace.
   */
  function SplitOn(s: string, sp: char -> bool): (ws: seq<string>)
    decreases |s|
    ensures forall w :: w in ws ==> IsWord(w, sp)
  {
    var t := SkipSpace(s, sp);
    if t == [] then []
    else
      var n := WordLen(t, sp);
      var w := t[..n];
      assert IsWord(w, sp);
      [w] + SplitOn(t[n..], sp)
  }

  /** `s.split()` */
  function Words(s: string): seq<string> {
    SplitOn(s, IsPySpace)
  }

  /** `s` without its trailing characters that satisfy `sp`. */
  function TrimEnd(s: string, sp: char -> bool): (r: string)
    ensures |r| <= |s| && r == s[..|r|]
    ensures r != [] ==> !sp(r[|r| - 1])
  {
    if s != [] && sp(s[|s| - 1]) then TrimEnd(s[..|s| - 1], sp) else s
  }

  /** `s.strip()` when `sp` is IsPySpace, `s.trim()` when it is IsJsSpace. */
  function Strip(s: string, sp: char -> bool): string {
    TrimEnd(SkipSpace(s, sp), sp)
  }

  // ---------------------------------------------------------------- decimal numerals

  function DigitChar(d: nat): char
    requires d < 10
  {
    ('0' as int + d) as char
  }

  /** `str(n)` for a natural number. */
  function Dec(n: nat): (s: string)
    ensures s != [] && forall i :: 0 <= i < |s| ==> IsAsciiDigit(s[i])
    ensures |s| > 1 || n > 0 ==> s[0] != '0'
  {
    if n < 10 then [DigitChar(n)] else Dec(n / 10) + [DigitChar(n % 10)]
  }

  /** `int(s)` for a string of decimal digits. */
  function ParseDec(s: string): nat
    requires forall i :: 0 <= i < |s| ==> IsAsciiDigit(s[i])
  {
    if s == [] then 0
    else
      assert IsAsciiDigit(s[|s| - 1]);
      ParseDec(s[..|s| - 1]) * 10 + (s[|s| - 1] as int - '0' as int)
  }

  // ---------------------------------------------------------------- lemmas

  /** Reading back `str(n)` gives `n`. */
  lemma {:induction false} DecRoundTrip(n: nat)
    ensures ParseDec(Dec(n)) == n
  {
    if n >= 10 {
      var s := Dec(n);
      assert s[..|s| - 1] == Dec(n / 10);
      DecRoundTrip(n / 10);
    }
  }

  /** Distinct numbers have distinct numerals. */
  lemma DecInjective(m: nat, n: nat)
    requires Dec(m) == Dec(n)
    ensures m == n
  {
    DecRoundTrip(m);
    DecRoundTrip(n);
  }

  lemma {:induction false} WordLenOfWordThen(w: string, rest: string, sp: char -> bool)
    requires NoneIn(w, sp)
    requires rest != [] ==> sp(rest[0])
    ensures WordLen(w + rest, sp) == |w|
  {
    if w != [] {
      assert (w + rest)[1..] == w[1..] + rest;
      WordLenOfWordThen(w[1..], rest, sp);
    } else {
      assert w + rest == rest;
    }
  }

  lemma SkipSpaceOfSpaces(pre: string, rest: string, sp: char -> bool)
    requires forall i :: 0 <= i < |pre| ==> sp(pre[i])
    ensures SkipSpace(pre + rest, sp) == SkipSpace(rest, sp)
    decreases |pre|
  {
    if pre != [] {
      assert (pre + rest)[1..] == pre[1..] + rest;
      SkipSpaceOfSpaces(pre[1..], rest, sp);
    } else {
      assert pre + rest == rest;
    }
  }

  /** A word followed by a separator character splits into that word and the split of the rest. */
  lemma SplitOfWordThen(w: string, rest: string, sp: char -> bool)
    requires IsWord(w, sp)
    requires rest != [] && sp(rest[0])
    ensures SplitOn(w + rest, sp) == [w] + SplitOn(rest, sp)
  {
    var s := w + rest;
    assert s[0] == w[0];
    assert SkipSpace(s, sp) == s;
    WordLenOfWordThen(w, rest, sp);
    assert s[..|w|] == w;
    assert s[|w|..] == rest;
  }

  /** Leading separator characters do not change the split. */
  lemma SplitOfSpacesThen(pre: string, rest: string, sp: char -> bool)
    requires forall i :: 0 <= i < |pre| ==> sp(pre[i])
    ensures SplitOn(pre + rest, sp) == SplitOn(rest, sp)
  {
    SkipSpaceOfSpaces(pre, rest, sp);
    var t := SkipSpace(rest, sp);
    assert |t| <= |rest| <= |pre + rest|;
  }

  /**
   * Splitting a join undoes it: joining non-empty words free of separator characters with a
   * separator made only of separator characters, then splitting, gives back the words.
   */
  lemma {:induction false} SplitJoinRoundTrip(ws: seq<string>, sep: string, sp: char -> bool)
    requires sep != [] && forall i :: 0 <= i < |sep| ==> sp(sep[i])
    requires forall w :: w in ws ==> IsWord(w, sp)
    ensures SplitOn(Join(sep, ws), sp) == ws
  {
    if |ws| == 1 {
      assert SplitOn(Join(sep, ws), sp) == ws by {
        assert ws[0] in ws;
        SplitOfWord(ws[0], sp);
      }
    } else if |ws| > 1 {
      var w, rest := ws[0], Join(sep, ws[1..]);
      assert w in ws;
      ConcatAssoc(w, sep, rest);
      SplitOfWordSepThen(w, sep, rest, sp);
      assert forall x :: x in ws[1..] ==> x in ws;
      SplitJoinRoundTrip(ws[1..], sep, sp);
      HeadTail(ws);
    }
  }

  /** A word, a separator and more text split into the word and the split of the text. */
  lemma SplitOfWordSepThen(w: string, sep: string, rest: string, sp: char -> bool)
    requires IsWord(w, sp)
    requires sep != [] && forall i :: 0 <= i < |sep| ==> sp(sep[i])
    ensures SplitOn(w + (sep + rest), sp) == [w] + SplitOn(rest, sp)
  {
    assert (sep + rest)[0] == sep[0];
    SplitOfWordThen(w, sep + rest, sp);
    SplitOfSpacesThen(sep, rest, sp);
  }

  /** Splitting text that is cut at a separator splits each side on its own. */
  lemma {:induction false} SplitAcrossSpace(a: string, b: string, sp: char -> bool)
    requires b != [] && sp(b[0])
    ensures SplitOn(a + b, sp) == SplitOn(a, sp) + SplitOn(b, sp)
    decreases |a|
  {
    if a == [] {
      assert a + b == b;
    } else if sp(a[0]) {
      SplitAcrossSpace(a[1..], b, sp);
      SplitAcrossLeadingSpace(a, b, sp);
    } else if WordLen(a, sp) == |a| {
      SplitAcrossWord(a, b, sp);
    } else {
      SplitAcrossSpace(a[WordLen(a, sp)..], b, sp);
      SplitAcrossFirstWord(a, b, sp);
    }
  }

  /** The step of SplitAcrossSpace when `a` starts with a separator. */
  lemma SplitAcrossLeadingSpace(a: string, b: string, sp: char -> bool)
    requires a != [] && sp(a[0])
    requires SplitOn(a[1..] + b, sp) == SplitOn(a[1..], sp) + SplitOn(b, sp)
    ensures SplitOn(a + b, sp) == SplitOn(a, sp) + SplitOn(b, sp)
  {
    TailOfConcat(a, b);
    SplitDropsLeadingSpace(a, sp);
    SplitDropsLeadingSpace(a + b, sp);
  }

  /** Dropping the first character of `a + b` drops it from `a`. */
  lemma TailOfConcat(a: string, b: string)
    requires a != []
    ensures (a + b)[1..] == a[1..] + b
  {
  }

  /** The step of SplitAcrossSpace when `a` is one word. */
  lemma SplitAcrossWord(a: string, b: string, sp: char -> bool)
    requires a != [] && !sp(a[0]) && WordLen(a, sp) == |a|
    requires b != [] && sp(b[0])
    ensures SplitOn(a + b, sp) == SplitOn(a, sp) + SplitOn(b, sp)
  {
    assert a[..|a|] == a;
    SplitOfWordThen(a, b, sp);
    SplitOfWord(a, sp);
  }

  /** The step of SplitAcrossSpace when `a` has a first word followed by a separator. */
  lemma SplitAcrossFirstWord(a: string, b: string, sp: char -> bool)
    requires a != [] && !sp(a[0]) && WordLen(a, sp) < |a|
    requires SplitOn(a[WordLen(a, sp)..] + b, sp) == SplitOn(a[WordLen(a, sp)..], sp) + SplitOn(b, sp)
    ensures SplitOn(a + b, sp) == SplitOn(a, sp) + SplitOn(b, sp)
  {
    var n := WordLen(a, sp);
    var w, rest := a[..n], a[n..];
    SplitAfterFirstWord(a, b, sp);
    ConcatAssoc([w], SplitOn(rest, sp), SplitOn(b, sp));
  }

  /** A non-empty sequence is its first element followed by the rest. */
  lemma HeadTail<T>(s: seq<T>)
    requires s != []
    ensures s == [s[0]] + s[1..]
  {
  }

  /** A sequence is its prefix followed by its suffix. */
  lemma SliceSplit<T>(s: seq<T>, n: nat)
    requires n <= |s|
    ensures s == s[..n] + s[n..]
  {
  }

  /** Concatenation is associative. */
  lemma ConcatAssoc<T>(x: seq<T>, y: seq<T>, z: seq<T>)
    ensures x + (y + z) == (x + y) + z
  {
  }

  /** A leading separator is dropped. */
  lemma SplitDropsLeadingSpace(s: string, sp: char -> bool)
    requires s != [] && sp(s[0])
    ensures SplitOn(s, sp) == SplitOn(s[1..], sp)
  {
    assert SkipSpace(s, sp) == SkipSpace(s[1..], sp);
  }

  /** A first word of `a` that ends before the end of `a` is the first word of `a + b` too. */
  lemma SplitAfterFirstWord(a: string, b: string, sp: char -> bool)
    requires a != [] && !sp(a[0]) && WordLen(a, sp) < |a|
    ensures var n := WordLen(a, sp);
            && SplitOn(a, sp) == [a[..n]] + SplitOn(a[n..], sp)
            && SplitOn(a + b, sp) == [a[..n]] + SplitOn(a[n..] + b, sp)
  {
    var n := WordLen(a, sp);
    var w := a[..n];
    var rest := a[n..];
    assert IsWord(w, sp);
    assert w + rest == a;
    SplitOfWordThen(w, rest, sp);
    assert w + (rest + b) == a + b;
    SplitOfWordThen(w, rest + b, sp);
  }

  /** A string with no separator character is one word, or none when it is empty. */
  lemma SplitOfWord(s: string, sp: char -> bool)
    requires NoneIn(s, sp)
    ensures SplitOn(s, sp) == if s == [] then [] else [s]
  {
    if s != [] {
      WordLenOfWordThen(s, [], sp);
      assert s + [] == s;
      assert s[|s|..] == [];
    }
  }

  /** Capitalizing is idempotent. */
  lemma CapitalizeIdempotent(w: string)
    ensures Capitalize(Capitalize(w)) == Capitalize(w)
  {
    if w != [] {
      var c := Capitalize(w);
      assert c[1..] == Lower(w[1..]);
      assert Lower(c[1..]) == c[1..];
    }
  }

  /** Capitalizing changes only ASCII letters, so it keeps length and adds no whitespace. */
  lemma CapitalizeKeepsShape(w: string, sp: char -> bool)
    requires NoneIn(w, sp)
    requires forall c: char :: ('a' <= c <= 'z' || 'A' <= c <= 'Z') ==> !sp(c)
    ensures |Capitalize(w)| == |w|
    ensures NoneIn(Capitalize(w), sp)
  {
    if w != [] {
      var c := Capitalize(w);
      forall i | 0 <= i < |c| ensures !sp(c[i]) {
        if i == 0 {
          assert c[0] == UpperChar(w[0]);
        } else {
          assert c[i] == LowerChar(w[i]);
        }
      }
    }
  }

  // ---------------------------------------------------------------- stripping and splitting

  /** The characters `SkipSpace` drops are separators. */
  lemma {:induction false} SkippedAreSpaces(s: string, sp: char -> bool)
    ensures forall i :: 0 <= i < |s| - |SkipSpace(s, sp)| ==> sp(s[i])
    decreases |s|
  {
    if s != [] && sp(s[0]) {
      var t := s[1..];
      SkippedAreSpaces(t, sp);
      assert |SkipSpace(s, sp)| == |SkipSpace(t, sp)|;
      forall i | 0 < i < |s| - |SkipSpace(s, sp)| ensures sp(s[i]) {
        assert s[i] == t[i - 1];
      }
    }
  }

  /** The characters `TrimEnd` drops are separators. */
  lemma {:induction false} TrimmedAreSpaces(s: string, sp: char -> bool)
    ensures forall i :: |TrimEnd(s, sp)| <= i < |s| ==> sp(s[i])
    decreases |s|
  {
    if s != [] && sp(s[|s| - 1]) {
      TrimmedAreSpaces(s[..|s| - 1], sp);
    }
  }

  /** The input is its leading separators followed by what SkipSpace keeps. */
  lemma SkipSpaceSplits(s: string, sp: char -> bool)
    ensures s == s[..|s| - |SkipSpace(s, sp)|] + SkipSpace(s, sp)
  {
    var u := SkipSpace(s, sp);
    SliceSplit(s, |s| - |u|);
  }

  /** Leading separators do not change the split. */
  lemma SplitOfSkip(s: string, sp: char -> bool)
    ensures SplitOn(SkipSpace(s, sp), sp) == SplitOn(s, sp)
  {
    var u := SkipSpace(s, sp);
    SkipSpaceSplits(s, sp);
    PrefixOfSpaces(s, |s| - |u|, sp);
    SplitOfSpacesThen(s[..|s| - |u|], u, sp);
  }

  /** Separators after text do not change the split. */
  lemma SplitOfTextThenSpaces(a: string, b: string, sp: char -> bool)
    requires forall i :: 0 <= i < |b| ==> sp(b[i])
    ensures SplitOn(a + b, sp) == SplitOn(a, sp)
  {
    if b == [] {
      assert a + b == a;
    } else {
      SplitAcrossSpace(a, b, sp);
      assert b + [] == b;
      SplitOfSpacesThen(b, [], sp);
    }
  }

  /** Trailing separators do not change the split. */
  lemma SplitOfTrimEnd(u: string, sp: char -> bool)
    ensures SplitOn(TrimEnd(u, sp), sp) == SplitOn(u, sp)
  {
    var t := TrimEnd(u, sp);
    TrailingSpaces(u, t, sp);
    SliceSplit(u, |t|);
    SplitOfTextThenSpaces(t, u[|t|..], sp);
  }

  /** The suffix TrimEnd drops holds only separators. */
  lemma TrailingSpaces(u: string, t: string, sp: char -> bool)
    requires t == TrimEnd(u, sp)
    ensures |t| <= |u| && forall i :: 0 <= i < |u[|t|..]| ==> sp(u[|t|..][i])
  {
    TrimmedAreSpaces(u, sp);
    forall i | 0 <= i < |u[|t|..]| ensures sp(u[|t|..][i]) {
      assert u[|t|..][i] == u[|t| + i];
    }
  }

  /** Separators at either end do not change the split. */
  lemma SplitOfStrip(s: string, sp: char -> bool)
    ensures SplitOn(Strip(s, sp), sp) == SplitOn(s, sp)
  {
    SplitOfSkip(s, sp);
    SplitOfTrimEnd(SkipSpace(s, sp), sp);
  }

  /** Joining a word in front of a non-empty list puts the separator between. */
  lemma JoinCons(sep: string, w: string, ws: seq<string>)
    requires ws != []
    ensures Join(sep, [w] + ws) == w + sep + Join(sep, ws)
  {
    assert ([w] + ws)[1..] == ws;
  }

  /**
   * Text that starts with separators and ends with a non-separator is a non-empty run of
   * separators followed by text that starts and ends with a non-separator.
   */
  lemma SpacesThenText(rest: string, sp: char -> bool)
    requires rest != [] && sp(rest[0]) && !sp(rest[|rest| - 1])
    ensures var u := SkipSpace(rest, sp);
            && 0 < |rest| - |u| && u != [] && !sp(u[0]) && u[|u| - 1] == rest[|rest| - 1]
  {
    SkippedAreSpaces(rest, sp);
  }

  /** A prefix of the separators SkipSpace drops holds only separators. */
  lemma PrefixOfSpaces(s: string, k: nat, sp: char -> bool)
    requires k == |s| - |SkipSpace(s, sp)|
    ensures forall i :: 0 <= i < |s[..k]| ==> sp(s[..k][i])
  {
    SkippedAreSpaces(s, sp);
  }

  /** A join of words starts with the first word. */
  lemma JoinStartsWithFirst(sep: string, ws: seq<string>)
    requires ws != []
    ensures |Join(sep, ws)| >= |ws[0]| && Join(sep, ws)[..|ws[0]|] == ws[0]
  {
    if |ws| > 1 {
      assert Join(sep, ws) == ws[0] + (sep + Join(sep, ws[1..]));
    }
  }

  /** Slicing a suffix is slicing the whole. */
  lemma SliceOfSuffix<T>(s: seq<T>, i: nat, k: nat)
    requires i + k <= |s|
    ensures s[i..][..k] == s[i..i + k]
  {
  }

  /**
   * Stripping keeps the slice of the input that starts after the leading separators; everything
   * before and after that slice is a separator, and the slice neither starts nor ends with one.
   */
  lemma StripTrims(input: string, sp: char -> bool)
    ensures var t := Strip(input, sp);
            var i := |input| - |SkipSpace(input, sp)|;
            && i + |t| <= |input| && input[i..i + |t|] == t
            && AllIn(input[..i], sp) && AllIn(input[i + |t|..], sp)
            && EndsClear(t, sp)
  {
    StripIsSlice(input, sp);
    StripDropsSpaces(input, sp);
    var u := SkipSpace(input, sp);
    var t := TrimEnd(u, sp);
    if t != [] {
      assert t[0] == u[0];
    }
  }

  /** Stripping keeps the slice of the input that starts after the leading separators. */
  lemma StripIsSlice(input: string, sp: char -> bool)
    ensures var t := Strip(input, sp);
            var i := |input| - |SkipSpace(input, sp)|;
            i + |t| <= |input| && input[i..i + |t|] == t
  {
    var u := SkipSpace(input, sp);
    var t := TrimEnd(u, sp);
    var i := |input| - |u|;
    assert u == input[i..] && t == u[..|t|];
    SliceOfSuffix(input, i, |t|);
  }

  /** Everything stripping drops is a separator. */
  lemma StripDropsSpaces(input: string, sp: char -> bool)
    ensures var t := Strip(input, sp);
            var i := |input| - |SkipSpace(input, sp)|;
            AllIn(input[..i], sp) && AllIn(input[i + |t|..], sp)
  {
    var u := SkipSpace(input, sp);
    var t := TrimEnd(u, sp);
    var i := |input| - |u|;
    PrefixOfSpaces(input, i, sp);
    TrailingSpaces(u, t, sp);
    assert u == input[i..];
    SuffixOfSuffix(input, i, |t|);
  }

  /** A suffix of a suffix is a suffix of the whole. */
  lemma SuffixOfSuffix<T>(s: seq<T>, i: nat, k: nat)
    requires i + k <= |s|
    ensures s[i..][k..] == s[i + k..]
  {
  }
}
