/**
 * JSON documents as the backend reads and writes them. An object is kept as its list of
 * (key, value) fields in insertion order, which is how a Python `dict` iterates and how
 * `json.dump` writes it. Floating-point numbers do not occur in the documents and are not modelled.
 */
module Json {
  import opened Wrappers

  datatype Value =
    | Null
    | Bool(b: bool)
    | Int(i: int)
    | Str(s: string)
    | List(items: seq<Value>)
    | Object(fields: seq<(string, Value)>)

  /** A JSON object: fields in insertion order. */
  type Obj = seq<(string, Value)>

  /** Python truthiness of a decoded JSON value (`if value:`). */
  predicate Truthy(v: Value) {
    match v
    case Null => false
    case Bool(b) => b
    case Int(i) => i != 0
    case Str(s) => s != []
    case List(xs) => xs != []
    case Object(fs) => fs != []
  }

  /** `len(v)`; `None` where Python raises TypeError (numbers, booleans, null). */
  function Len(v: Value): Option<nat> {
    match v
    case Str(s) => Some(|s|)
    case List(xs) => Some(|xs|)
    case Object(fs) => Some(|fs|)
    case _ => None
  }

  /** The keys of `o`, in order. */
  function Keys(o: Obj): seq<string> {
    seq(|o|, i requires 0 <= i < |o| => o[i].0)
  }

  /** Every key occurs once, as in any Python dict. */
  predicate DistinctKeys(o: Obj) {
    forall i, j :: 0 <= i < j < |o| ==> o[i].0 != o[j].0
  }

  /** The keys of a field followed by an object. */
  lemma KeysOfCons(f: (string, Value), o: Obj)
    ensures Keys([f] + o) == [f.0] + Keys(o)
  {
  }

  /** The keys of a non-empty object: its first key, then the keys of the rest. */
  lemma KeysOfTail(o: Obj)
    requires o != []
    ensures Keys(o) == [o[0].0] + Keys(o[1..])
  {
    assert o == [o[0]] + o[1..];
    KeysOfCons(o[0], o[1..]);
  }

  /** `o.get(k)`, with `None` for a missing key. */
  function Get(o: Obj, k: string): (r: Option<Value>)
    ensures r.Some? <==> k in Keys(o)
  {
    if o == [] then None
    else if o[0].0 == k then
      assert Keys(o)[0] == k;
      Some(o[0].1)
    else
      KeysOfTail(o);
      Get(o[1..], k)
  }

  /** `o.get(k, d)` */
  function GetOr(o: Obj, k: string, d: Value): Value {
    Get(o, k).GetOr(d)
  }

  /**
   * `o[k] = v`: an existing key keeps its position and gets the new value; a new key goes at the end.
   */
  function Set(o: Obj, k: string, v: Value): (r: Obj)
    ensures Get(r, k) == Some(v)
    ensures forall k' :: k' != k ==> Get(r, k') == Get(o, k')
    ensures Keys(r) == if Get(o, k).Some? then Keys(o) else Keys(o) + [k]
  {
    if o == [] then [(k, v)]
    else if o[0].0 == k then
      KeysOfTail(o);
      KeysOfCons((k, v), o[1..]);
      GetOfCons((k, v), o[1..]);
      GetOfTail(o);
      [(k, v)] + o[1..]
    else
      var rest := Set(o[1..], k, v);
      SetBehindFirst(o, k, v, rest);
      [o[0]] + rest
  }

  /** Set's contract carries over from the tail to the whole when the first key differs. */
  lemma SetBehindFirst(o: Obj, k: string, v: Value, rest: Obj)
    requires o != [] && o[0].0 != k
    requires Get(rest, k) == Some(v)
    requires forall k' :: k' != k ==> Get(rest, k') == Get(o[1..], k')
    requires Keys(rest) == if Get(o[1..], k).Some? then Keys(o[1..]) else Keys(o[1..]) + [k]
    ensures Get([o[0]] + rest, k) == Some(v)
    ensures forall k' :: k' != k ==> Get([o[0]] + rest, k') == Get(o, k')
    ensures Keys([o[0]] + rest) == if Get(o, k).Some? then Keys(o) else Keys(o) + [k]
  {
    KeysOfTail(o);
    KeysOfCons(o[0], rest);
    GetOfCons(o[0], rest);
    GetOfTail(o);
    assert [o[0].0] + (Keys(o[1..]) + [k]) == ([o[0].0] + Keys(o[1..])) + [k];
  }

  /** Looking up a key in a field followed by an object. */
  lemma GetOfCons(f: (string, Value), o: Obj)
    ensures forall k :: Get([f] + o, k) == if f.0 == k then Some(f.1) else Get(o, k)
  {
    assert ([f] + o)[1..] == o;
  }

  /** Looking up a key in a non-empty object. */
  lemma GetOfTail(o: Obj)
    requires o != []
    ensures forall k :: Get(o, k) == if o[0].0 == k then Some(o[0].1) else Get(o[1..], k)
  {
  }

  /** Assigning the value a key already has changes nothing. */
  lemma {:induction false} SetSameValue(o: Obj, k: string, v: Value)
    requires Get(o, k) == Some(v)
    ensures Set(o, k, v) == o
  {
    if o != [] && o[0].0 != k {
      SetSameValue(o[1..], k, v);
    }
  }

  /** A second assignment to the same key overrides the first. */
  lemma {:induction false} SetTwice(o: Obj, k: string, v: Value, w: Value)
    ensures Set(Set(o, k, v), k, w) == Set(o, k, w)
  {
    if o != [] && o[0].0 != k {
      SetTwice(o[1..], k, v, w);
    }
  }

  /** Assignment keeps keys distinct. */
  lemma SetKeepsDistinct(o: Obj, k: string, v: Value)
    requires DistinctKeys(o)
    ensures DistinctKeys(Set(o, k, v))
  {
    var r := Set(o, k, v);
    forall i, j | 0 <= i < j < |r| ensures r[i].0 != r[j].0 {
      assert Keys(r)[i] == r[i].0 && Keys(r)[j] == r[j].0;
      if k !in Keys(o) && j == |o| {
        assert r[i].0 == Keys(o)[i] == o[i].0;
      } else {
        assert Keys(o)[i] == o[i].0 && Keys(o)[j] == o[j].0;
      }
    }
  }
}
