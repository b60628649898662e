/**
 * The categoriser's bookkeeping: inputs grouped by cluster label, each group titled, titles made
 * distinct with " (k)" suffixes, and the grouping written back into the topic document.
 */
module Categorize {
  import opened Wrappers
  import opened Text
  import opened Json
  import opened Titles
  import opened Storage

  /**
   * Sentence embedding followed by KMeans with the given cluster count: one cluster label per
   * input, in input order.
   */
  type Labeller = (seq<string>, nat) -> seq<int>

  /** How a group of texts gets its title. */
  type Namer = seq<string> -> string

  /** `generate_title_from_cluster` with the given classifier. */
  function TitleWith(classify: Classifier): Namer {
    texts => Title(texts, classify)
  }

  /** `results`: titles with their texts, in insertion order. */
  type Grouping = seq<(string, seq<string>)>

  /** `max(2, len(inputs) // 3)`: the cluster count when none is given. */
  function DefaultClusterCount(n: nat): (k: nat)
    ensures k >= 2 && k >= n / 3
    ensures k == 2 || k == n / 3
  {
    if n / 3 > 2 then n / 3 else 2
  }

  // ---------------------------------------------------------------- grouping

  /** `[inputs[i] for i in range(len(inputs)) if labels[i] == id]` */
  function Members(inputs: seq<string>, labels: seq<int>, id: int): seq<string>
    requires |labels| == |inputs|
  {
    if inputs == [] then []
    else
      var n := |inputs| - 1;
      Members(inputs[..n], labels[..n], id) + if labels[n] == id then [inputs[n]] else []
  }

  /** The inputs whose label lies in `[0, n)`, in order. */
  function LabelledBelow(inputs: seq<string>, labels: seq<int>, n: int): seq<string>
    requires |labels| == |inputs|
  {
    if inputs == [] then []
    else
      var m := |inputs| - 1;
      LabelledBelow(inputs[..m], labels[..m], n) + if 0 <= labels[m] < n then [inputs[m]] else []
  }

  /** The titles of a grouping. */
  function TitleSet(g: Grouping): set<string> {
    set e | e in g :: e.0
  }

  /** All texts of a grouping, group after group. */
  function Flatten(g: Grouping): seq<string> {
    if g == [] then [] else Flatten(g[..|g| - 1]) + g[|g| - 1].1
  }

  // ---------------------------------------------------------------- title de-duplication

  /** `f"{title} ({j})"` */
  function Suffixed(title: string, j: nat): string {
    title + " (" + Dec(j) + ")"
  }

  /** Different counters give different suffixed titles. */
  lemma SuffixedInjective(title: string, i: nat, j: nat)
    requires Suffixed(title, i) == Suffixed(title, j)
    ensures i == j
  {
    var s, t := Suffixed(title, i), Suffixed(title, j);
    assert Dec(i) == s[|title| + 2..|s| - 1];
    assert Dec(j) == t[|title| + 2..|t| - 1];
    DecInjective(i, j);
  }

  /** The suffixed titles with counters `1 .. j - 1`. */
  function Suffixes(title: string, j: nat): (r: set<string>)
    ensures forall m :: 1 <= m < j ==> Suffixed(title, m) in r
  {
    if j <= 1 then {} else Suffixes(title, j - 1) + {Suffixed(title, j - 1)}
  }

  /** A suffixed title with counter `m >= j` is not among those with counters below `j`. */
  lemma {:induction false} SuffixNotEarlier(title: string, j: nat, m: nat)
    requires m >= j
    ensures Suffixed(title, m) !in Suffixes(title, j)
  {
    if j > 1 {
      SuffixNotEarlier(title, j - 1, m);
      if Suffixed(title, m) == Suffixed(title, j - 1) {
        SuffixedInjective(title, m, j - 1);
      }
    }
  }

  /** The smallest counter from `j` on whose suffixed title is not taken. */
  function FirstFree(taken: set<string>, title: string, j: nat): (i: nat)
    requires j >= 1 && Suffixes(title, j) <= taken
    decreases taken - Suffixes(title, j)
    ensures i >= j && Suffixed(title, i) !in taken
    ensures forall m :: j <= m < i ==> Suffixed(title, m) in taken
  {
    if Suffixed(title, j) !in taken then j
    else
      assert Suffixed(title, j) !in Suffixes(title, j) by {
        SuffixNotEarlier(title, j, j);
      }
      FirstFree(taken, title, j + 1)
  }

  /** The title stored for a group: the title itself when free, else with the smallest free suffix. */
  function UniqueTitle(taken: set<string>, title: string): string {
    if title !in taken then title else Suffixed(title, FirstFree(taken, title, 1))
  }

  /**
   * The stored title is not taken yet; it is the title itself when that is free, and otherwise the
   * title with the smallest counter k >= 1 whose `" (k)"` form is free.
   */
  lemma UniqueTitleSmallest(taken: set<string>, title: string)
    ensures UniqueTitle(taken, title) !in taken
    ensures title !in taken ==> UniqueTitle(taken, title) == title
    ensures title in taken ==>
              exists k: nat :: k >= 1 && UniqueTitle(taken, title) == Suffixed(title, k)
                               && forall m :: 1 <= m < k ==> Suffixed(title, m) in taken
  {
    if title in taken {
      var k := FirstFree(taken, title, 1);
      assert UniqueTitle(taken, title) == Suffixed(title, k);
    }
  }

  // ---------------------------------------------------------------- categorize_texts

  /** The grouping after the loop has handled clusters `0 .. n - 1`. */
  function Build(inputs: seq<string>, labels: seq<int>, n: nat, name: Namer): Grouping
    requires |labels| == |inputs|
  {
    if n == 0 then []
    else
      var prev := Build(inputs, labels, n - 1, name);
      var texts := Members(inputs, labels, n - 1);
      if |texts| == 0 then prev
      else prev + [(UniqueTitle(TitleSet(prev), name(texts)), texts)]
  }

  /**
   * `categorize_texts(inputs, k)`: `None` where the clustering raises, which KMeans does for fewer
   * inputs than clusters (and for fewer than one cluster), and where a label is missing.
   */
  function Categorized(inputs: seq<string>, k: nat, cluster: Labeller, classify: Classifier): Option<Grouping> {
    if k < 1 || k > |inputs| then None
    else
      var labels := cluster(inputs, k);
      if |labels| < |inputs| then None
      else Some(Build(inputs, labels[..|inputs|], k, TitleWith(classify)))
  }

  /** The `while title in results` loop: counts up from 1 until `"<title> (<counter>)"` is free. */
  method Deduplicate(titles: set<string>, original: string) returns (title: string)
    ensures title == UniqueTitle(titles, original)
  {
    title := original;
    var counter := 1;
    while title in titles
      invariant counter >= 1
      invariant counter == 1 ==> title == original
      invariant counter > 1 ==> && original in titles
                                && title == Suffixed(original, counter - 1)
                                && Suffixes(original, counter - 1) <= titles
                                && FirstFree(titles, original, 1) == FirstFree(titles, original, counter - 1)
      decreases titles - Suffixes(original, counter - 1), if counter == 1 then 1 else 0
    {
      if counter > 1 {
        SuffixNotEarlier(original, counter - 1, counter - 1);
      }
      title := Suffixed(original, counter);
      counter := counter + 1;
    }
  }

  /** The loop over cluster ids of `categorize_texts`, filling `results`. */
  method GroupClusters(inputs: seq<string>, labels: seq<int>, k: nat, name: Namer) returns (groups: Grouping)
    requires |labels| == |inputs|
    ensures groups == Build(inputs, labels, k, name)
  {
    groups := [];
    var titles: set<string> := {};
    for id := 0 to k
      invariant groups == Build(inputs, labels, id, name)
      invariant titles == TitleSet(groups)
    {
      var texts := Members(inputs, labels, id);
      if |texts| == 0 {
        continue;
      }
      var title := Deduplicate(titles, name(texts));
      groups := groups + [(title, texts)];
      titles := titles + {title};
    }
  }

  /** `categorize_texts(inputs)` as `run` calls it: the default cluster count. */
  type Categorizer = seq<string> -> Option<Grouping>

  /** The categoriser `run` uses, for the given clustering and classifier. */
  function CategorizeWith(cluster: Labeller, classify: Classifier): Categorizer {
    texts => Categorized(texts, DefaultClusterCount(|texts|), cluster, classify)
  }

  /** `categorize_texts` as written: a loop over cluster ids filling `results`. */
  method CategorizeTexts(inputs: seq<string>, clusters: Option<nat>, cluster: Labeller, classify: Classifier)
    returns (results: Option<Grouping>)
    ensures results == Categorized(inputs, clusters.GetOr(DefaultClusterCount(|inputs|)), cluster, classify)
  {
    var k := clusters.GetOr(DefaultClusterCount(|inputs|));
    if k < 1 || k > |inputs| {
      return None;
    }
    var labels := cluster(inputs, k);
    if |labels| < |inputs| {
      return None;
    }
    var groups := GroupClusters(inputs, labels[..|inputs|], k, TitleWith(classify));
    return Some(groups);
  }

  // ---------------------------------------------------------------- properties of the grouping

  /** Titles are distinct, and no group is empty. */
  lemma {:induction false} BuildTitlesDistinct(inputs: seq<string>, labels: seq<int>, n: nat, name: Namer)
    requires |labels| == |inputs|
    ensures forall i, j :: 0 <= i < j < |Build(inputs, labels, n, name)| ==>
              Build(inputs, labels, n, name)[i].0 != Build(inputs, labels, n, name)[j].0
    ensures forall e :: e in Build(inputs, labels, n, name) ==> e.1 != []
  {
    if n > 0 {
      BuildTitlesDistinct(inputs, labels, n - 1, name);
      var prev := Build(inputs, labels, n - 1, name);
      var texts := Members(inputs, labels, n - 1);
      if |texts| != 0 {
        var t := UniqueTitle(TitleSet(prev), name(texts));
        UniqueTitleSmallest(TitleSet(prev), name(texts));
        var g := prev + [(t, texts)];
        forall i, j | 0 <= i < j < |g| ensures g[i].0 != g[j].0 {
          if j == |prev| {
            assert g[i] in prev;
          }
        }
      }
    }
  }

  /** Splitting by one more label value moves exactly that label's members into the covered part. */
  lemma {:induction false} LabelledBelowStep(inputs: seq<string>, labels: seq<int>, n: nat)
    requires |labels| == |inputs| && n > 0
    ensures multiset(LabelledBelow(inputs, labels, n))
            == multiset(LabelledBelow(inputs, labels, n - 1)) + multiset(Members(inputs, labels, n - 1))
  {
    if inputs != [] {
      var m := |inputs| - 1;
      LabelledBelowStep(inputs[..m], labels[..m], n);
    }
  }

  /** Appending a group appends its texts. */
  lemma FlattenSnoc(g: Grouping, e: (string, seq<string>))
    ensures Flatten(g + [e]) == Flatten(g) + e.1
  {
    assert (g + [e])[..|g|] == g;
  }

  /** Handling cluster `n - 1` adds exactly that cluster's members to the grouping. */
  lemma BuildStep(inputs: seq<string>, labels: seq<int>, n: nat, name: Namer)
    requires |labels| == |inputs| && n > 0
    ensures multiset(Flatten(Build(inputs, labels, n, name)))
            == multiset(Flatten(Build(inputs, labels, n - 1, name))) + multiset(Members(inputs, labels, n - 1))
  {
    var prev := Build(inputs, labels, n - 1, name);
    var texts := Members(inputs, labels, n - 1);
    if |texts| != 0 {
      var e := (UniqueTitle(TitleSet(prev), name(texts)), texts);
      FlattenSnoc(prev, e);
    }
  }

  /** The grouping of clusters `0 .. n - 1` holds exactly the inputs labelled below `n`, counted with multiplicity. */
  lemma {:induction false} BuildCovers(inputs: seq<string>, labels: seq<int>, n: nat, name: Namer)
    requires |labels| == |inputs|
    ensures multiset(Flatten(Build(inputs, labels, n, name))) == multiset(LabelledBelow(inputs, labels, n))
  {
    if n == 0 {
      LabelledBelowNone(inputs, labels);
    } else {
      BuildCovers(inputs, labels, n - 1, name);
      LabelledBelowStep(inputs, labels, n);
      BuildStep(inputs, labels, n, name);
    }
  }

  /** No input is labelled below 0. */
  lemma {:induction false} LabelledBelowNone(inputs: seq<string>, labels: seq<int>)
    requires |labels| == |inputs|
    ensures LabelledBelow(inputs, labels, 0) == []
  {
    if inputs != [] {
      LabelledBelowNone(inputs[..|inputs| - 1], labels[..|inputs| - 1]);
    }
  }

  /** When every label lies in `[0, n)`, every input is labelled below `n`. */
  lemma {:induction false} LabelledBelowAll(inputs: seq<string>, labels: seq<int>, n: nat)
    requires |labels| == |inputs|
    requires forall i :: 0 <= i < |labels| ==> 0 <= labels[i] < n
    ensures LabelledBelow(inputs, labels, n) == inputs
  {
    if inputs != [] {
      var m := |inputs| - 1;
      LabelledBelowAll(inputs[..m], labels[..m], n);
      assert inputs[..m] + [inputs[m]] == inputs;
    }
  }

  /** Every group of `g` is the group of one of the clusters `0 .. n - 1`. */
  predicate GroupsOfClusters(g: Grouping, inputs: seq<string>, labels: seq<int>, n: nat)
    requires |labels| == |inputs|
  {
    forall e :: e in g ==> exists id :: 0 <= id < n && e.1 == Members(inputs, labels, id)
  }

  /** Every group built for clusters `0 .. n - 1` is the group of one of those clusters. */
  lemma {:induction false} BuildGroupsAreMembers(inputs: seq<string>, labels: seq<int>, n: nat, name: Namer)
    requires |labels| == |inputs|
    ensures GroupsOfClusters(Build(inputs, labels, n, name), inputs, labels, n)
  {
    if n > 0 {
      BuildGroupsAreMembers(inputs, labels, n - 1, name);
      var prev := Build(inputs, labels, n - 1, name);
      var g := Build(inputs, labels, n, name);
      forall e | e in g ensures exists id :: 0 <= id < n && e.1 == Members(inputs, labels, id) {
        if e in prev {
          var id :| 0 <= id < n - 1 && e.1 == Members(inputs, labels, id);
          assert 0 <= id < n;
        } else {
          assert e.1 == Members(inputs, labels, n - 1);
        }
      }
    }
  }

  /**
   * With labels in `[0, k)`, the grouping is a partition of the inputs: every input appears in
   * exactly one group, as often as it occurs among the inputs; titles are distinct; no group is empty.
   */
  lemma CategorizedPartitions(inputs: seq<string>, k: nat, cluster: Labeller, classify: Classifier)
    requires 1 <= k <= |inputs|
    requires |cluster(inputs, k)| == |inputs|
    requires forall i :: 0 <= i < |inputs| ==> 0 <= cluster(inputs, k)[i] < k
    ensures Categorized(inputs, k, cluster, classify).Some?
    ensures multiset(Flatten(Categorized(inputs, k, cluster, classify).value)) == multiset(inputs)
    ensures forall i, j :: 0 <= i < j < |Categorized(inputs, k, cluster, classify).value| ==>
              Categorized(inputs, k, cluster, classify).value[i].0 != Categorized(inputs, k, cluster, classify).value[j].0
    ensures forall e :: e in Categorized(inputs, k, cluster, classify).value ==> e.1 != []
  {
    var labels := cluster(inputs, k);
    assert labels[..|inputs|] == labels;
    BuildCovers(inputs, labels, k, TitleWith(classify));
    LabelledBelowAll(inputs, labels, k);
    BuildTitlesDistinct(inputs, labels, k, TitleWith(classify));
  }

  /**
   * Every group of a grouping is the group of one cluster: with MembersInOrder, its texts are the
   * inputs labelled with that cluster, in their original order.
   */
  lemma CategorizedGroupsAreClusters(inputs: seq<string>, k: nat, cluster: Labeller, classify: Classifier)
    requires Categorized(inputs, k, cluster, classify).Some?
    ensures |cluster(inputs, k)| >= |inputs|
    ensures GroupsOfClusters(Categorized(inputs, k, cluster, classify).value, inputs, cluster(inputs, k)[..|inputs|], k)
  {
    BuildGroupsAreMembers(inputs, cluster(inputs, k)[..|inputs|], k, TitleWith(classify));
  }

  /** The group of cluster `id` takes each input at most as often as it occurs. */
  lemma {:induction false} MembersAreInputs(inputs: seq<string>, labels: seq<int>, id: int)
    requires |labels| == |inputs|
    ensures multiset(Members(inputs, labels, id)) <= multiset(inputs)
  {
    if inputs != [] {
      var m := |inputs| - 1;
      MembersAreInputs(inputs[..m], labels[..m], id);
      SliceSplit(inputs, m);
      assert inputs[m..] == [inputs[m]];
    }
  }

  /** The group of cluster `id` holds exactly the inputs labelled `id`. */
  lemma {:induction false} MembersAreLabelled(inputs: seq<string>, labels: seq<int>, id: int)
    requires |labels| == |inputs|
    ensures forall x :: x in Members(inputs, labels, id) <==> exists i :: 0 <= i < |inputs| && labels[i] == id && inputs[i] == x
  {
    if inputs != [] {
      var m := |inputs| - 1;
      MembersAreLabelled(inputs[..m], labels[..m], id);
      forall x ensures x in Members(inputs, labels, id) <==> exists i :: 0 <= i < |inputs| && labels[i] == id && inputs[i] == x {
        if x in Members(inputs, labels, id) && x !in Members(inputs[..m], labels[..m], id) {
          assert labels[m] == id && inputs[m] == x;
        }
        if exists i :: 0 <= i < |inputs| && labels[i] == id && inputs[i] == x {
          var i :| 0 <= i < |inputs| && labels[i] == id && inputs[i] == x;
          if i < m {
            assert labels[..m][i] == id && inputs[..m][i] == x;
          }
        }
      }
    }
  }

  /** The indices labelled `id`, in increasing order. */
  function LabelledIndices(labels: seq<int>, id: int): seq<nat> {
    if labels == [] then []
    else
      var n := |labels| - 1;
      LabelledIndices(labels[..n], id) + if labels[n] == id then [n] else []
  }

  /**
   * The group of cluster `id` keeps the inputs in their original order: it is the inputs taken at
   * a strictly increasing sequence of indices, which are exactly the indices labelled `id`.
   */
  lemma {:induction false} MembersInOrder(inputs: seq<string>, labels: seq<int>, id: int)
    requires |labels| == |inputs|
    ensures var ix, g := LabelledIndices(labels, id), Members(inputs, labels, id);
            && |g| == |ix|
            && (forall t :: 0 <= t < |ix| ==> ix[t] < |inputs| && g[t] == inputs[ix[t]])
            && (forall s, t :: 0 <= s < t < |ix| ==> ix[s] < ix[t])
            && (forall i :: 0 <= i < |inputs| ==> (labels[i] == id <==> i in ix))
  {
    if inputs != [] {
      var m := |inputs| - 1;
      MembersInOrder(inputs[..m], labels[..m], id);
      var ix0, g0 := LabelledIndices(labels[..m], id), Members(inputs[..m], labels[..m], id);
      var ix, g := LabelledIndices(labels, id), Members(inputs, labels, id);
      assert ix == ix0 + if labels[m] == id then [m] else [];
      assert g == g0 + if labels[m] == id then [inputs[m]] else [];
      forall t | 0 <= t < |ix0| ensures ix[t] == ix0[t] && g[t] == g0[t] && g[t] == inputs[ix[t]] {
        assert inputs[..m][ix0[t]] == inputs[ix0[t]];
      }
      forall i | 0 <= i < |inputs| ensures labels[i] == id <==> i in ix {
        if i < m {
          assert labels[..m][i] == labels[i];
          assert i in ix0 <==> i in ix;
        }
      }
    }
  }

  // ---------------------------------------------------------------- the topic document

  /** The grouping as stored under `formatted`: an object from title to list of texts. */
  function GroupingJson(g: Grouping): Value {
    Object(seq(|g|, i requires 0 <= i < |g| => (g[i].0, List(StrList(g[i].1)))))
  }

  function StrList(texts: seq<string>): seq<Value> {
    seq(|texts|, i requires 0 <= i < |texts| => Str(texts[i]))
  }

  /** `json.load` of a topic file, or `{}` when the file does not exist. */
  function LoadOrEmpty(files: map<FileKey, Obj>, key: FileKey): Obj {
    if key in files then files[key] else []
  }

  /** `mark_as_processing`: the loaded document with `checked` set, nothing else changed. */
  function MarkedDoc(doc: Obj): (r: Obj)
    ensures Get(r, "checked") == Some(Bool(true))
    ensures forall k :: k != "checked" ==> Get(r, k) == Get(doc, k)
  {
    Set(doc, "checked", Bool(true))
  }

  /** `update_json_file`: the loaded document with `formatted` and `checked` set, nothing else changed. */
  function UpdatedDoc(doc: Obj, g: Grouping): (r: Obj)
    ensures Get(r, "formatted") == Some(GroupingJson(g))
    ensures Get(r, "checked") == Some(Bool(true))
    ensures forall k :: k != "checked" && k != "formatted" ==> Get(r, k) == Get(doc, k)
  {
    Set(Set(doc, "formatted", GroupingJson(g)), "checked", Bool(true))
  }

  /** Marking an updated document changes nothing: `update_json_file` keeps the mark. */
  lemma MarkAfterUpdate(doc: Obj, g: Grouping)
    ensures MarkedDoc(UpdatedDoc(doc, g)) == UpdatedDoc(doc, g)
  {
    SetSameValue(UpdatedDoc(doc, g), "checked", Bool(true));
  }

  /** `mark_as_processing(path)` on the sessions folder; returns the document it wrote. */
  method MarkAsProcessing(fs: SessionsFolder, key: FileKey) returns (doc: Obj)
    requires key.session in fs.sessions
    modifies fs
    ensures doc == MarkedDoc(LoadOrEmpty(old(fs.files), key))
    ensures fs.View() == old(fs.View()).(files := old(fs.files)[key := doc])
  {
    var existing := if key in fs.files then fs.files[key] else [];
    existing := Set(existing, "checked", Bool(true));
    fs.Write(key, existing);
    return existing;
  }

  /** `update_json_file(path, results)` on the sessions folder; the server notification is not modelled. */
  method UpdateJsonFile(fs: SessionsFolder, key: FileKey, g: Grouping)
    requires key.session in fs.sessions
    modifies fs
    ensures fs.View() == old(fs.View()).(files := old(fs.files)[key := UpdatedDoc(LoadOrEmpty(old(fs.files), key), g)])
  {
    var existing := if key in fs.files then fs.files[key] else [];
    existing := Set(existing, "formatted", GroupingJson(g));
    existing := Set(existing, "checked", Bool(true));
    fs.Write(key, existing);
  }
}
