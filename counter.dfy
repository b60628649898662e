/**
 * Python's `collections.Counter` over strings and its `most_common(n)`.
 * A counter remembers its keys in first-insertion order; `most_common(n)` returns the `n` keys
 * with the highest counts, ties going to the key inserted first (it behaves like a stable sort
 * by descending count, cut after `n`).
 */
module Counter {
  import opened Wrappers

  datatype Counter = Counter(keys: seq<string>, freq: map<string, nat>) {

    /** Keys are distinct and are exactly the counted strings. */
    ghost predicate Valid() {
      && (forall i, j :: 0 <= i < j < |keys| ==> keys[i] != keys[j])
      && (forall k :: k in freq <==> k in keys)
    }

    /** `c[x] += 1` */
    function Add(x: string): Counter {
      if x in freq then Counter(keys, freq[x := freq[x] + 1])
      else Counter(keys + [x], freq[x := 1])
    }
  }

  const Empty: Counter := Counter([], map[])

  /** `Counter(q)`: count the strings of `q` in order. */
  function Of(q: seq<string>): Counter {
    if q == [] then Empty else Of(q[..|q| - 1]).Add(q[|q| - 1])
  }

  /** `q.count(x)` */
  function Count(q: seq<string>, x: string): nat {
    if q == [] then 0 else Count(q[..|q| - 1], x) + (if q[|q| - 1] == x then 1 else 0)
  }

  /** A string not in the list occurs zero times. */
  lemma {:induction false} CountAbsent(q: seq<string>, x: string)
    requires x !in q
    ensures Count(q, x) == 0
  {
    if q != [] {
      assert x !in q[..|q| - 1];
      CountAbsent(q[..|q| - 1], x);
    }
  }

  /** Counting a list gives a valid counter whose keys are the list's strings and whose counts are their occurrences. */
  lemma {:induction false} OfCounts(q: seq<string>)
    ensures Of(q).Valid()
    ensures forall x :: x in Of(q).keys <==> x in q
    ensures forall x :: x in Of(q).freq ==> Of(q).freq[x] == Count(q, x)
  {
    if q != [] {
      var init, last := q[..|q| - 1], q[|q| - 1];
      OfCounts(init);
      var c := Of(init);
      assert q == init + [last];
      assert Of(q) == c.Add(last);
      forall x ensures Count(q, x) == Count(init, x) + (if last == x then 1 else 0) {
      }
      forall x ensures x in Of(q).keys <==> x in q {
        assert x in q <==> x in init || x == last;
      }
      var d := Of(q);
      if last !in c.freq {
        assert last !in c.keys;
        assert d.keys == c.keys + [last];
        forall i, j | 0 <= i < j < |d.keys| ensures d.keys[i] != d.keys[j] {
          if j == |c.keys| {
            assert d.keys[i] == c.keys[i];
          }
        }
      }
      forall x | x in d.freq ensures d.freq[x] == Count(q, x) {
        if x != last {
          assert d.freq[x] == c.freq[x];
        } else if last !in c.freq {
          CountAbsent(init, last);
        }
      }
    }
  }

  /** The counts of the keys, in key order. */
  function Counts(c: Counter): (w: seq<nat>)
    requires c.Valid()
    ensures |w| == |c.keys|
  {
    seq(|c.keys|, i requires 0 <= i < |c.keys| => c.freq[c.keys[i]])
  }

  /**
   * Index `i` comes before index `j` in `most_common` order over the counts `w`: a higher count,
   * or the same count and inserted earlier.
   */
  predicate Before(w: seq<nat>, i: nat, j: nat)
    requires i < |w| && j < |w|
  {
    w[i] > w[j] || (w[i] == w[j] && i < j)
  }

  /** Index of the first largest count among `w[..n]` outside `skip`. */
  function BestIn(w: seq<nat>, skip: set<nat>, n: nat): (b: Option<nat>)
    requires n <= |w|
    ensures b.Some? ==> b.value < n && b.value !in skip
    ensures b.Some? ==> forall j :: 0 <= j < n && j !in skip && j != b.value ==> Before(w, b.value, j)
    ensures b.None? <==> forall j :: 0 <= j < n ==> j in skip
  {
    if n == 0 then None
    else
      var b := BestIn(w, skip, n - 1);
      if n - 1 in skip then b
      else if b.None? || w[n - 1] > w[b.value] then Some(n - 1)
      else b
  }

  /** How many indices below `m` are outside `skip`. */
  function Outside(skip: set<nat>, m: nat): nat {
    if m == 0 then 0 else Outside(skip, m - 1) + (if m - 1 in skip then 0 else 1)
  }

  /** Adding one more index below `m` to `skip` leaves one fewer outside it. */
  lemma {:induction false} OutsideTake(skip: set<nat>, m: nat, b: nat)
    requires b < m && b !in skip
    ensures Outside(skip + {b}, m) == Outside(skip, m) - 1
    ensures Outside(skip, m) >= 1
  {
    if b < m - 1 {
      OutsideTake(skip, m - 1, b);
    } else {
      OutsideSame(skip, b, m - 1);
    }
  }

  /** Indices at or above `m` do not matter. */
  lemma {:induction false} OutsideSame(skip: set<nat>, b: nat, m: nat)
    requires b >= m
    ensures Outside(skip + {b}, m) == Outside(skip, m)
  {
    if m > 0 {
      OutsideSame(skip, b, m - 1);
    }
  }

  /** With every index below `m` in `skip`, none is outside. */
  lemma {:induction false} OutsideNone(skip: set<nat>, m: nat)
    requires forall j :: 0 <= j < m ==> j in skip
    ensures Outside(skip, m) == 0
  {
    if m > 0 {
      OutsideNone(skip, m - 1);
    }
  }

  /** Repeatedly take the best remaining index: the first `n` indices outside `skip` in ranking order. */
  function Select(w: seq<nat>, n: nat, skip: set<nat>): (r: seq<nat>)
    ensures forall p :: 0 <= p < |r| ==> r[p] < |w| && r[p] !in skip
    decreases n
  {
    if n == 0 then []
    else
      match BestIn(w, skip, |w|)
      case None => []
      case Some(b) => [b] + Select(w, n - 1, skip + {b})
  }

  /** Selection takes `n` of the remaining indices, or all of them when fewer remain. */
  lemma {:induction false} SelectLength(w: seq<nat>, n: nat, skip: set<nat>)
    decreases n
    ensures |Select(w, n, skip)| == if n <= Outside(skip, |w|) then n else Outside(skip, |w|)
  {
    if n > 0 {
      match BestIn(w, skip, |w|)
      case None =>
        OutsideNone(skip, |w|);
      case Some(b) =>
        SelectLength(w, n - 1, skip + {b});
        OutsideTake(skip, |w|, b);
    }
  }

  /** Selection takes distinct indices, each ranking before the ones after it. */
  lemma {:induction false} SelectOrdered(w: seq<nat>, n: nat, skip: set<nat>)
    decreases n
    ensures forall p, q :: 0 <= p < q < |Select(w, n, skip)| ==>
              Select(w, n, skip)[p] != Select(w, n, skip)[q] && Before(w, Select(w, n, skip)[p], Select(w, n, skip)[q])
  {
    if n > 0 {
      match BestIn(w, skip, |w|)
      case None =>
      case Some(b) =>
        var rest := Select(w, n - 1, skip + {b});
        SelectOrdered(w, n - 1, skip + {b});
        var r := [b] + rest;
        assert Select(w, n, skip) == r;
        forall p, q | 0 <= p < q < |r| ensures r[p] != r[q] && Before(w, r[p], r[q]) {
          if p == 0 {
            assert r[q] == rest[q - 1] && r[q] in rest;
          } else {
            assert r[p] == rest[p - 1] && r[q] == rest[q - 1];
          }
        }
    }
  }

  /** Every selected index ranks before every remaining index that was not selected. */
  lemma {:induction false} SelectBeatsRest(w: seq<nat>, n: nat, skip: set<nat>)
    decreases n
    ensures forall j: nat, p :: j < |w| && j !in skip && j !in Select(w, n, skip) && 0 <= p < |Select(w, n, skip)| ==>
              Before(w, Select(w, n, skip)[p], j)
  {
    if n > 0 {
      match BestIn(w, skip, |w|)
      case None =>
      case Some(b) =>
        var rest := Select(w, n - 1, skip + {b});
        SelectBeatsRest(w, n - 1, skip + {b});
        var r := [b] + rest;
        assert Select(w, n, skip) == r;
        forall j: nat, p | j < |w| && j !in skip && j !in r && 0 <= p < |r| ensures Before(w, r[p], j) {
          if p > 0 {
            assert r[p] == rest[p - 1];
          }
        }
    }
  }

  /** `most_common(n)`, keys only. */
  function MostCommon(c: Counter, n: nat): seq<string>
    requires c.Valid()
  {
    var idx := Select(Counts(c), n, {});
    seq(|idx|, p requires 0 <= p < |idx| => c.keys[idx[p]])
  }

  /** With nothing skipped, every index is outside. */
  lemma {:induction false} OutsideEmpty(m: nat)
    ensures Outside({}, m) == m
  {
    if m > 0 {
      OutsideEmpty(m - 1);
    }
  }

  /** `most_common(n)` takes `n` keys, or all of them when fewer, and only keys. */
  lemma MostCommonLength(c: Counter, n: nat)
    requires c.Valid()
    ensures |MostCommon(c, n)| == if n <= |c.keys| then n else |c.keys|
    ensures forall x :: x in MostCommon(c, n) ==> x in c.keys
  {
    SelectLength(Counts(c), n, {});
    OutsideEmpty(|c.keys|);
  }

  /** `most_common(n)` lists each key once, highest counts first, ties in insertion order. */
  lemma MostCommonOrdered(c: Counter, n: nat)
    requires c.Valid()
    ensures forall i, j :: 0 <= i < j < |MostCommon(c, n)| ==>
              && MostCommon(c, n)[i] != MostCommon(c, n)[j]
              && c.freq[MostCommon(c, n)[i]] >= c.freq[MostCommon(c, n)[j]]
              && (c.freq[MostCommon(c, n)[i]] == c.freq[MostCommon(c, n)[j]] ==>
                    Position(c.keys, MostCommon(c, n)[i]) < Position(c.keys, MostCommon(c, n)[j]))
  {
    var w := Counts(c);
    var idx := Select(w, n, {});
    var r := MostCommon(c, n);
    SelectOrdered(w, n, {});
    forall i, j | 0 <= i < j < |r|
      ensures r[i] != r[j] && c.freq[r[i]] >= c.freq[r[j]]
      ensures c.freq[r[i]] == c.freq[r[j]] ==> Position(c.keys, r[i]) < Position(c.keys, r[j])
    {
      assert Before(w, idx[i], idx[j]);
      PositionDistinct(c.keys, idx[i]);
      PositionDistinct(c.keys, idx[j]);
    }
  }

  /** No key left out of `most_common(n)` has a higher count than a key taken. */
  lemma MostCommonBeatsRest(c: Counter, n: nat)
    requires c.Valid()
    ensures forall x, i :: x in c.keys && x !in MostCommon(c, n) && 0 <= i < |MostCommon(c, n)| ==>
              c.freq[x] <= c.freq[MostCommon(c, n)[i]]
  {
    var w := Counts(c);
    var idx := Select(w, n, {});
    var r := MostCommon(c, n);
    SelectBeatsRest(w, n, {});
    forall x, i | x in c.keys && x !in r && 0 <= i < |r| ensures c.freq[x] <= c.freq[r[i]] {
      var j := Position(c.keys, x);
      forall p | 0 <= p < |idx| ensures idx[p] != j {
        assert r[p] == c.keys[idx[p]] && r[p] in r;
      }
      assert j !in idx;
      assert Before(w, idx[i], j);
      assert w[j] == c.freq[x] && r[i] == c.keys[idx[i]];
    }
  }

  /** In a list without repeats, the position of the element at index `i` is `i`. */
  lemma PositionDistinct(s: seq<string>, i: nat)
    requires forall p, q :: 0 <= p < q < |s| ==> s[p] != s[q]
    requires i < |s|
    ensures Position(s, s[i]) == i
  {
    var k := Position(s, s[i]);
    assert !(k < i) && !(i < k);
  }

  /**
   * `Counter(q).most_common(n)`: `n` of the distinct strings of `q` (all of them when fewer),
   * each once, in non-increasing order of occurrences, and no string left out occurs more often
   * than one taken.
   */
  lemma MostCommonOfList(q: seq<string>, n: nat)
    ensures Of(q).Valid()
    ensures |MostCommon(Of(q), n)| == if n <= |set x | x in q| then n else |set x | x in q|
    ensures forall x :: x in MostCommon(Of(q), n) ==> x in q
    ensures forall i, j :: 0 <= i < j < |MostCommon(Of(q), n)| ==>
              && MostCommon(Of(q), n)[i] != MostCommon(Of(q), n)[j]
              && Count(q, MostCommon(Of(q), n)[i]) >= Count(q, MostCommon(Of(q), n)[j])
    ensures forall x, i :: x in q && x !in MostCommon(Of(q), n) && 0 <= i < |MostCommon(Of(q), n)| ==>
              Count(q, x) <= Count(q, MostCommon(Of(q), n)[i])
  {
    OfCounts(q);
    var c := Of(q);
    MostCommonLength(c, n);
    MostCommonOrdered(c, n);
    MostCommonBeatsRest(c, n);
    KeysCardinality(c.keys);
    assert (set x | x in q) == (set x | x in c.keys);
  }

  /** An index of `x` in `s`. */
  function Position(s: seq<string>, x: string): (i: nat)
    requires x in s
    ensures i < |s| && s[i] == x
  {
    if s[0] == x then 0 else 1 + Position(s[1..], x)
  }

  /** A list of distinct strings has as many elements as its index range. */
  lemma {:induction false} KeysCardinality(s: seq<string>)
    requires forall i, j :: 0 <= i < j < |s| ==> s[i] != s[j]
    ensures |set x | x in s| == |s|
  {
    if s != [] {
      var init := s[..|s| - 1];
      KeysCardinality(init);
      assert (set x | x in s) == (set x | x in init) + {s[|s| - 1]};
      assert s[|s| - 1] !in init;
    }
  }
}
