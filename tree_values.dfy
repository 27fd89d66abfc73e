/** The value of a call tree: each node has a name, its statistics, and its children
    in insertion order, with pairwise distinct names. The recursive operations of
    both tree classes (`addRecursive`, `copyTo`, and the destination side of
    `clearAndCopyTo`) are one merge, which adds or overwrites statistics. */
module TreeValues {
  import opened Histogram
  import opened PerfStats
  import opened Options

  datatype TreeValue = TreeNode(name: string, stats: TimeStatsValue, children: seq<TreeValue>)

  /** How a merge combines a destination node's statistics with the source's. */
  type Combiner = (TimeStatsValue, TimeStatsValue) -> TimeStatsValue

  /** `addRecursive`: the source's statistics are added (`incr`). */
  const ADD_STATS: Combiner := (dst, src) => TimeStatsAdded(dst, src)

  /** `copyTo`: the source's statistics overwrite the destination's (`set`). */
  const SET_STATS: Combiner := (dst, src) => src

  /** The number of nodes. */
  function Size(t: TreeValue): (n: nat)
    ensures n >= 1
    decreases t
  {
    1 + SizeAll(t.children)
  }

  function SizeAll(cs: seq<TreeValue>): nat
    decreases cs
  {
    if |cs| == 0 then 0 else SizeAll(cs[..|cs| - 1]) + Size(cs[|cs| - 1])
  }

  function Names(cs: seq<TreeValue>): (ns: seq<string>)
    ensures |ns| == |cs| && forall i | 0 <= i < |cs| :: ns[i] == cs[i].name
  {
    seq(|cs|, i requires 0 <= i < |cs| => cs[i].name)
  }

  predicate UniqueNames(cs: seq<TreeValue>)
  {
    forall i, j | 0 <= i < j < |cs| :: cs[i].name != cs[j].name
  }

  /** A new node: empty statistics, no children. */
  function EmptyTree(name: string): (t: TreeValue)
  {
    TreeNode(name, EmptyTimeStats(), [])
  }

  /** The position of the child with the given name, or the number of children. */
  function IndexOf(cs: seq<TreeValue>, name: string): (k: nat)
    ensures k <= |cs| && (k < |cs| ==> cs[k].name == name)
    ensures forall j | 0 <= j < k :: cs[j].name != name
    decreases |cs|
  {
    if |cs| == 0 || cs[0].name == name then 0 else 1 + IndexOf(cs[1..], name)
  }

  /** The first child with the name is the one IndexOf finds. */
  lemma IndexOfIs(cs: seq<TreeValue>, name: string, k: nat)
    requires k < |cs| && cs[k].name == name
    requires forall j | 0 <= j < k :: cs[j].name != name
    ensures IndexOf(cs, name) == k
  {
  }

  /** `findOrCreateChild(name)` on the child list: unchanged when the name is
      present, otherwise an empty child appended. */
  function WithChild(cs: seq<TreeValue>, name: string): (r: seq<TreeValue>)
    ensures IndexOf(cs, name) < |cs| ==> r == cs
    ensures IndexOf(cs, name) == |cs| ==> r == cs + [EmptyTree(name)]
    ensures IndexOf(r, name) == IndexOf(cs, name) < |r|
  {
    if IndexOf(cs, name) < |cs| then cs
    else IndexOfIs(cs + [EmptyTree(name)], name, |cs|); cs + [EmptyTree(name)]
  }

  /** Merges src into t: the statistics are combined and every child of src, in
      order, is merged into t's child of the same name, created when missing. */
  function MergeTree(combine: Combiner, t: TreeValue, src: TreeValue): (r: TreeValue)
    ensures r.name == t.name
    decreases Size(src), 3
  {
    TreeNode(t.name, combine(t.stats, src.stats), MergeChildren(combine, t.children, src.children))
  }

  /** Merges the source children srcs into the child list cs, first to last. */
  function MergeChildren(combine: Combiner, cs: seq<TreeValue>, srcs: seq<TreeValue>): (r: seq<TreeValue>)
    decreases SizeAll(srcs), 5
  {
    if |srcs| == 0 then cs
    else MergeChild(combine, MergeChildren(combine, cs, srcs[..|srcs| - 1]), srcs[|srcs| - 1])
  }

  /** Merges one source child into the same-named child of cs. */
  function MergeChild(combine: Combiner, cs: seq<TreeValue>, s: TreeValue): (r: seq<TreeValue>)
    decreases Size(s), 4
  {
    var ws := WithChild(cs, s.name);
    var k := IndexOf(ws, s.name);
    ws[k := MergeTree(combine, ws[k], s)]
  }

  /** The node a merge of a source child named `name` starts from: the existing
      child of that name, or a new empty one. */
  function Lookup(cs: seq<TreeValue>, name: string): (t: TreeValue)
    ensures t.name == name
  {
    var k := IndexOf(cs, name);
    if k < |cs| then cs[k] else EmptyTree(name)
  }

  /** A name appended to a name list unless already present. */
  function AddName(ns: seq<string>, n: string): seq<string>
  {
    if n in ns then ns else ns + [n]
  }

  /** The names ns followed by those of xs not yet seen, in xs's order. */
  function AddNames(ns: seq<string>, xs: seq<string>): seq<string>
  {
    if |xs| == 0 then ns else AddName(AddNames(ns, xs[..|xs| - 1]), xs[|xs| - 1])
  }

  /** A child with a name exists exactly when IndexOf finds it. */
  lemma IndexOfFound(cs: seq<TreeValue>, name: string)
    ensures IndexOf(cs, name) < |cs| <==> name in Names(cs)
  {
    if name in Names(cs) {
      var i :| 0 <= i < |cs| && Names(cs)[i] == name;
      assert cs[i].name == name;
    }
  }

  /** IndexOf only looks at the names. */
  lemma IndexOfSameNames(a: seq<TreeValue>, b: seq<TreeValue>, name: string)
    requires Names(a) == Names(b)
    ensures IndexOf(a, name) == IndexOf(b, name)
  {
    var k := IndexOf(a, name);
    assert |a| == |Names(a)| == |b|;
    assert forall j | 0 <= j < |a| :: a[j].name == Names(a)[j] == b[j].name;
    if k < |a| {
      IndexOfIs(b, name, k);
    } else {
      IndexOfFound(a, name);
      IndexOfFound(b, name);
    }
  }

  /** Looking up a name in a longer list whose first names are those of a shorter one. */
  lemma IndexOfExtended(a: seq<TreeValue>, b: seq<TreeValue>, name: string)
    requires |a| <= |b| && Names(b)[..|a|] == Names(a)
    requires name in Names(a)
    ensures IndexOf(b, name) == IndexOf(a, name) < |a|
  {
    IndexOfFound(a, name);
    var k := IndexOf(a, name);
    assert forall j | 0 <= j < |a| :: b[j].name == Names(b)[j] == Names(a)[j] == a[j].name;
    IndexOfIs(b, name, k);
  }

  /** One merged source child: the names are those of findOrCreateChild. */
  lemma MergeChildNames(combine: Combiner, cs: seq<TreeValue>, s: TreeValue)
    ensures Names(MergeChild(combine, cs, s)) == AddName(Names(cs), s.name)
  {
    IndexOfFound(cs, s.name);
    var ws := WithChild(cs, s.name);
    var r := MergeChild(combine, cs, s);
    assert Names(ws) == AddName(Names(cs), s.name);
    assert Names(r) == Names(ws);
  }

  /** Merging children never removes or reorders a child; the children of the
      result are the old ones followed by the source's new names, in source order. */
  lemma {:induction false} MergeChildrenNames(combine: Combiner, cs: seq<TreeValue>, srcs: seq<TreeValue>)
    ensures Names(MergeChildren(combine, cs, srcs)) == AddNames(Names(cs), Names(srcs))
    decreases |srcs|
  {
    if |srcs| > 0 {
      var n := |srcs| - 1;
      MergeChildrenNames(combine, cs, srcs[..n]);
      MergeChildNames(combine, MergeChildren(combine, cs, srcs[..n]), srcs[n]);
      assert Names(srcs)[..n] == Names(srcs[..n]);
    }
  }

  /** The old names keep their positions at the front of the added names. */
  lemma {:induction false} AddNamesPrefix(ns: seq<string>, xs: seq<string>)
    ensures |ns| <= |AddNames(ns, xs)| && AddNames(ns, xs)[..|ns|] == ns
    ensures forall x | x in ns || x in xs :: x in AddNames(ns, xs)
    ensures forall x | x in AddNames(ns, xs) :: x in ns || x in xs
    decreases |xs|
  {
    if |xs| > 0 {
      var n := |xs| - 1;
      AddNamesPrefix(ns, xs[..n]);
      assert xs == xs[..n] + [xs[n]];
    }
  }

  /** No name occurs twice. */
  predicate Distinct(ns: seq<string>)
  {
    forall i, j | 0 <= i < j < |ns| :: ns[i] != ns[j]
  }

  /** Distinct child names are distinct entries of the name list. */
  lemma UniqueNamesIsDistinct(cs: seq<TreeValue>)
    ensures UniqueNames(cs) <==> Distinct(Names(cs))
  {
  }

  /** Adding names keeps a list of names free of repetitions. */
  lemma {:induction false} AddNamesUnique(ns: seq<string>, xs: seq<string>)
    requires Distinct(ns)
    ensures Distinct(AddNames(ns, xs))
    decreases |xs|
  {
    if |xs| > 0 {
      var n := |xs| - 1;
      AddNamesUnique(ns, xs[..n]);
      var r0 := AddNames(ns, xs[..n]);
      if xs[n] !in r0 {
        var r := r0 + [xs[n]];
        forall i, j | 0 <= i < j < |r| ensures r[i] != r[j] {
          if j == |r0| {
            assert r[i] == r0[i];
          } else {
            assert r[i] == r0[i] && r[j] == r0[j];
          }
        }
      }
    }
  }

  /** Merging keeps the child names distinct. */
  lemma MergeChildrenUnique(combine: Combiner, cs: seq<TreeValue>, srcs: seq<TreeValue>)
    requires UniqueNames(cs)
    ensures UniqueNames(MergeChildren(combine, cs, srcs))
  {
    var r := MergeChildren(combine, cs, srcs);
    MergeChildrenNames(combine, cs, srcs);
    assert Distinct(Names(cs)) by {
      forall i, j | 0 <= i < j < |cs| ensures Names(cs)[i] != Names(cs)[j] {
        assert cs[i].name != cs[j].name;
      }
    }
    AddNamesUnique(Names(cs), Names(srcs));
    assert Distinct(Names(r));
    forall i, j | 0 <= i < j < |r| ensures r[i].name != r[j].name {
      assert Names(r)[i] != Names(r)[j];
    }
  }

  /** Merging one source child s: every other child keeps its place and value, and
      the child named s.name is the merge of s into what was there before. */
  lemma MergeChildContents(combine: Combiner, cs: seq<TreeValue>, s: TreeValue)
    ensures |cs| <= |MergeChild(combine, cs, s)|
    ensures Names(MergeChild(combine, cs, s))[..|cs|] == Names(cs)
    ensures forall i | 0 <= i < |cs| && cs[i].name != s.name :: MergeChild(combine, cs, s)[i] == cs[i]
    ensures IndexOf(MergeChild(combine, cs, s), s.name) < |MergeChild(combine, cs, s)|
    ensures MergeChild(combine, cs, s)[IndexOf(MergeChild(combine, cs, s), s.name)] == MergeTree(combine, Lookup(cs, s.name), s)
  {
    var ws := WithChild(cs, s.name);
    var r := MergeChild(combine, cs, s);
    var k := IndexOf(ws, s.name);
    assert Names(r) == Names(ws);
    IndexOfSameNames(r, ws, s.name);
    assert ws[k] == Lookup(cs, s.name);
  }

  /** Merging one source child keeps every child of another name in its place. */
  lemma MergeChildKeepsOther(combine: Combiner, cs: seq<TreeValue>, s: TreeValue, name: string)
    requires name in Names(cs) && name != s.name
    ensures IndexOf(MergeChild(combine, cs, s), name) == IndexOf(cs, name) < |cs|
    ensures MergeChild(combine, cs, s)[IndexOf(cs, name)] == cs[IndexOf(cs, name)]
  {
    MergeChildContents(combine, cs, s);
    IndexOfExtended(cs, MergeChild(combine, cs, s), name);
  }

  /** Merging children leaves every child whose name no source child has as it was. */
  lemma {:induction false} MergeChildrenKeeps(combine: Combiner, cs: seq<TreeValue>, srcs: seq<TreeValue>)
    ensures |cs| <= |MergeChildren(combine, cs, srcs)|
    ensures forall i | 0 <= i < |cs| && cs[i].name !in Names(srcs) :: MergeChildren(combine, cs, srcs)[i] == cs[i]
    decreases |srcs|
  {
    if |srcs| > 0 {
      var n := |srcs| - 1;
      var r0 := MergeChildren(combine, cs, srcs[..n]);
      MergeChildrenKeeps(combine, cs, srcs[..n]);
      MergeChildContents(combine, r0, srcs[n]);
      var r := MergeChild(combine, r0, srcs[n]);
      assert r == MergeChildren(combine, cs, srcs);
      forall i | 0 <= i < |cs| && cs[i].name !in Names(srcs) ensures r[i] == cs[i] {
        assert Names(srcs)[n] == srcs[n].name;
        NotInPrefixNames(srcs, n, cs[i].name);
      }
    }
  }

  /** A name no source child has is not the name of a source child of a prefix. */
  lemma NotInPrefixNames(srcs: seq<TreeValue>, n: nat, name: string)
    requires n <= |srcs| && name !in Names(srcs)
    ensures name !in Names(srcs[..n])
  {
    forall j | 0 <= j < n ensures Names(srcs[..n])[j] != name {
      assert Names(srcs[..n])[j] == Names(srcs)[j];
    }
  }

  /** A name no source child has is looked up in the merge as in the old children. */
  lemma LookupAfterMerge(combine: Combiner, cs: seq<TreeValue>, srcs: seq<TreeValue>, name: string)
    requires name !in Names(srcs)
    ensures Lookup(MergeChildren(combine, cs, srcs), name) == Lookup(cs, name)
  {
    var r := MergeChildren(combine, cs, srcs);
    MergeChildrenNames(combine, cs, srcs);
    AddNamesPrefix(Names(cs), Names(srcs));
    IndexOfFound(cs, name);
    IndexOfFound(r, name);
    if name in Names(cs) {
      IndexOfExtended(cs, r, name);
      MergeChildrenKeeps(combine, cs, srcs);
    }
  }

  /** With distinct names, the last name does not occur before it. */
  lemma LastNameIsNew(cs: seq<TreeValue>)
    requires |cs| > 0 && UniqueNames(cs)
    ensures cs[|cs| - 1].name !in Names(cs[..|cs| - 1])
  {
    var n := |cs| - 1;
    forall j | 0 <= j < n ensures Names(cs[..n])[j] != cs[n].name {
      assert cs[j].name != cs[n].name;
    }
  }

  /** One step of `MergeChildrenFound`: what holds for the source children `pre`
      merged into r0 still holds after one more source child sn of a new name. */
  lemma MergeChildFoundStep(combine: Combiner, cs: seq<TreeValue>, pre: seq<TreeValue>, sn: TreeValue, r0: seq<TreeValue>)
    requires sn.name !in Names(pre) && Lookup(r0, sn.name) == Lookup(cs, sn.name)
    requires forall j | 0 <= j < |pre| ::
      IndexOf(r0, pre[j].name) < |r0| && r0[IndexOf(r0, pre[j].name)] == MergeTree(combine, Lookup(cs, pre[j].name), pre[j])
    ensures forall j | 0 <= j < |pre + [sn]| ::
      IndexOf(MergeChild(combine, r0, sn), (pre + [sn])[j].name) < |MergeChild(combine, r0, sn)| &&
      MergeChild(combine, r0, sn)[IndexOf(MergeChild(combine, r0, sn), (pre + [sn])[j].name)]
        == MergeTree(combine, Lookup(cs, (pre + [sn])[j].name), (pre + [sn])[j])
  {
    var srcs, r := pre + [sn], MergeChild(combine, r0, sn);
    MergeChildContents(combine, r0, sn);
    forall j | 0 <= j < |srcs|
      ensures IndexOf(r, srcs[j].name) < |r| && r[IndexOf(r, srcs[j].name)] == MergeTree(combine, Lookup(cs, srcs[j].name), srcs[j])
    {
      if j < |pre| {
        var name := pre[j].name;
        assert srcs[j] == pre[j] && name in Names(pre);
        IndexOfFound(r0, name);
        MergeChildKeepsOther(combine, r0, sn, name);
      } else {
        assert srcs[j] == sn;
      }
    }
  }

  /** In a merge of children with distinct names, the child named like a source
      child is that source child merged into the old child of the name (or into a
      new empty node). */
  lemma {:induction false} MergeChildrenFound(combine: Combiner, cs: seq<TreeValue>, srcs: seq<TreeValue>)
    requires UniqueNames(srcs)
    ensures forall j | 0 <= j < |srcs| ::
      IndexOf(MergeChildren(combine, cs, srcs), srcs[j].name) < |MergeChildren(combine, cs, srcs)| &&
      MergeChildren(combine, cs, srcs)[IndexOf(MergeChildren(combine, cs, srcs), srcs[j].name)]
        == MergeTree(combine, Lookup(cs, srcs[j].name), srcs[j])
    decreases |srcs|
  {
    if |srcs| > 0 {
      var n := |srcs| - 1;
      var pre, sn := srcs[..n], srcs[n];
      assert srcs == pre + [sn];
      MergeChildrenFound(combine, cs, pre);
      LastNameIsNew(srcs);
      LookupAfterMerge(combine, cs, pre, sn.name);
      MergeChildFoundStep(combine, cs, pre, sn, MergeChildren(combine, cs, pre));
    }
  }

  /** Child names are distinct at every node. */
  predicate TreeUnique(t: TreeValue)
    decreases t
  {
    UniqueNames(t.children) && forall c | c in t.children :: TreeUnique(c)
  }

  /** The tree with every node's statistics s replaced by combine(s, s): for
      ADD_STATS, every statistic added to itself. */
  function SelfMerged(combine: Combiner, t: TreeValue): (r: TreeValue)
    ensures r.name == t.name
    decreases t, 1
  {
    TreeNode(t.name, combine(t.stats, t.stats), SelfMergedAll(combine, t.children))
  }

  function SelfMergedAll(combine: Combiner, cs: seq<TreeValue>): (r: seq<TreeValue>)
    ensures |r| == |cs| && forall i | 0 <= i < |cs| :: r[i] == SelfMerged(combine, cs[i])
    decreases cs, 0
  {
    if |cs| == 0 then [] else SelfMergedAll(combine, cs[..|cs| - 1]) + [SelfMerged(combine, cs[|cs| - 1])]
  }

  lemma {:induction false} SizeAllElem(cs: seq<TreeValue>, k: nat)
    requires k < |cs|
    ensures Size(cs[k]) <= SizeAll(cs)
    decreases |cs|
  {
    if k < |cs| - 1 {
      SizeAllElem(cs[..|cs| - 1], k);
    }
  }

  /** Merging a source child whose name is already present updates that child in place. */
  lemma MergeExistingChild(combine: Combiner, cs: seq<TreeValue>, s: TreeValue, k: nat)
    requires k < |cs| && IndexOf(cs, s.name) == k
    ensures MergeChild(combine, cs, s) == cs[k := MergeTree(combine, cs[k], s)]
  {
  }

  /** Merging a source child of a new name appends its merge into an empty node. */
  lemma MergeNewChild(combine: Combiner, cs: seq<TreeValue>, s: TreeValue)
    requires s.name !in Names(cs)
    ensures MergeChild(combine, cs, s) == cs + [MergeTree(combine, EmptyTree(s.name), s)]
  {
    IndexOfFound(cs, s.name);
  }

  /** `addRecursive` of a tree into itself (or into a structurally equal copy)
      combines the statistics of every node with themselves and adds no child. */
  lemma {:induction false} MergeSelf(combine: Combiner, t: TreeValue)
    requires TreeUnique(t)
    ensures MergeTree(combine, t, t) == SelfMerged(combine, t)
    decreases Size(t), 0
  {
    var cs := t.children;
    MergeSelfPrefix(combine, cs, |cs|);
    assert cs[..|cs|] == cs;
    assert MergeChildren(combine, cs, cs) == SelfMergedAll(combine, cs);
  }

  /** After the first i source children of a self-merge, the first i children are
      self-merged and the others unchanged. */
  lemma {:induction false} MergeSelfPrefix(combine: Combiner, cs: seq<TreeValue>, i: nat)
    requires UniqueNames(cs) && forall c | c in cs :: TreeUnique(c)
    requires i <= |cs|
    ensures |MergeChildren(combine, cs, cs[..i])| == |cs|
    ensures forall k | 0 <= k < |cs| ::
      MergeChildren(combine, cs, cs[..i])[k] == if k < i then SelfMerged(combine, cs[k]) else cs[k]
    decreases SizeAll(cs), 1, i
  {
    if i > 0 {
      assert cs[..i][..i - 1] == cs[..i - 1];
      MergeSelfPrefix(combine, cs, i - 1);
      SizeAllElem(cs, i - 1);
      MergeSelf(combine, cs[i - 1]);
      MergeSelfStep(combine, cs, i, MergeChildren(combine, cs, cs[..i - 1]));
    }
  }

  /** One step of `MergeSelfPrefix`: merging source child i - 1 into a list whose
      first i - 1 children are self-merged self-merges child i - 1 as well. */
  lemma MergeSelfStep(combine: Combiner, cs: seq<TreeValue>, i: nat, r0: seq<TreeValue>)
    requires UniqueNames(cs) && 0 < i <= |cs|
    requires |r0| == |cs| && forall k | 0 <= k < |cs| :: r0[k] == if k < i - 1 then SelfMerged(combine, cs[k]) else cs[k]
    requires MergeTree(combine, cs[i - 1], cs[i - 1]) == SelfMerged(combine, cs[i - 1])
    ensures |MergeChild(combine, r0, cs[i - 1])| == |cs|
    ensures forall k | 0 <= k < |cs| ::
      MergeChild(combine, r0, cs[i - 1])[k] == if k < i then SelfMerged(combine, cs[k]) else cs[k]
  {
    var s := cs[i - 1];
    var r := MergeChild(combine, r0, s);
    assert r0[i - 1] == s;
    assert forall j | 0 <= j < i - 1 :: r0[j].name == cs[j].name != s.name;
    IndexOfIs(r0, s.name, i - 1);
    MergeExistingChild(combine, r0, s, i - 1);
    assert r == r0[i - 1 := SelfMerged(combine, s)];
  }

  /** The position of the first entry with the key in a list of (name, node)
      entries, or the number of entries: `LinkedHashMap.get` on the child map. */
  function KeyIndex<T>(m: seq<(string, T)>, key: string): (k: nat)
    ensures k <= |m| && (k < |m| ==> m[k].0 == key)
    ensures forall j | 0 <= j < k :: m[j].0 != key
    decreases |m|
  {
    if |m| == 0 || m[0].0 == key then 0 else 1 + KeyIndex(m[1..], key)
  }

  /** An entry list and a child list with the same names agree on where a name is. */
  lemma KeyIndexIsIndexOf<T>(m: seq<(string, T)>, cs: seq<TreeValue>, key: string)
    requires |m| == |cs| && forall i | 0 <= i < |m| :: m[i].0 == cs[i].name
    ensures KeyIndex(m, key) == IndexOf(cs, key)
  {
    var k := KeyIndex(m, key);
    if k < |m| {
      IndexOfIs(cs, key, k);
    }
  }

  /** `clearAndCopyTo(dest)`: dest's statistics are overwritten with the source's,
      every source child is copied the same way into dest's child of its name, and
      the source is left with empty statistics and no children. The pair is the
      source and the destination afterwards. */
  function ClearAndCopyTo(src: TreeValue, dest: TreeValue): (r: (TreeValue, TreeValue))
    ensures r.0.name == src.name && r.0.stats == EmptyTimeStats() && r.0.children == []
    ensures r.1.name == dest.name && r.1.stats == src.stats
  {
    (TreeNode(src.name, EmptyTimeStats(), []), MergeTree(SET_STATS, dest, src))
  }

  /** After `clearAndCopyTo`, each source child has in the destination a child of
      its name holding it copied over the old destination child of that name (or a
      new empty one), every destination child whose name no source child has is
      as it was, and a destination that was a new empty node equals the source. */
  lemma ClearAndCopyToChildren(src: TreeValue, dest: TreeValue)
    requires UniqueNames(src.children)
    ensures var d := ClearAndCopyTo(src, dest).1;
      forall j | 0 <= j < |src.children| ::
        IndexOf(d.children, src.children[j].name) < |d.children| &&
        d.children[IndexOf(d.children, src.children[j].name)]
          == MergeTree(SET_STATS, Lookup(dest.children, src.children[j].name), src.children[j])
    ensures var d := ClearAndCopyTo(src, dest).1;
      |dest.children| <= |d.children| &&
      forall i | 0 <= i < |dest.children| && dest.children[i].name !in Names(src.children) ::
        d.children[i] == dest.children[i]
    ensures TreeUnique(src) && dest == EmptyTree(src.name) ==> ClearAndCopyTo(src, dest).1 == src
  {
    MergeChildrenFound(SET_STATS, dest.children, src.children);
    MergeChildrenKeeps(SET_STATS, dest.children, src.children);
    if TreeUnique(src) && dest == EmptyTree(src.name) {
      CopyIntoEmpty(src);
    }
  }

  /** `copyTo` into a new node of the same name reproduces the whole source tree. */
  lemma {:induction false} CopyIntoEmpty(s: TreeValue)
    requires TreeUnique(s)
    ensures MergeTree(SET_STATS, EmptyTree(s.name), s) == s
    decreases Size(s), 0
  {
    var cs := s.children;
    CopyPrefix(cs, |cs|);
    assert cs[..|cs|] == cs;
  }

  /** Copying the first i of distinctly named children into an empty child list
      gives exactly those i children. */
  lemma {:induction false} CopyPrefix(cs: seq<TreeValue>, i: nat)
    requires UniqueNames(cs) && forall c | c in cs :: TreeUnique(c)
    requires i <= |cs|
    ensures MergeChildren(SET_STATS, [], cs[..i]) == cs[..i]
    decreases SizeAll(cs), 1, i
  {
    if i > 0 {
      var s := cs[i - 1];
      assert cs[..i][..i - 1] == cs[..i - 1];
      CopyPrefix(cs, i - 1);
      assert UniqueNames(cs[..i]);
      LastNameIsNew(cs[..i]);
      MergeNewChild(SET_STATS, cs[..i - 1], s);
      SizeAllElem(cs, i - 1);
      CopyIntoEmpty(s);
      assert cs[..i] == cs[..i - 1] + [s];
    }
  }

  /** The node reached from t by following the child names of path, if every
      step exists. */
  function ChildAt(t: TreeValue, path: seq<string>): (r: Option<TreeValue>)
    ensures r.Some? && |path| > 0 ==> r.value.name == path[|path| - 1]
    decreases |path|
  {
    if |path| == 0 then Some(t)
    else
      var k := IndexOf(t.children, path[0]);
      if k < |t.children| then ChildAt(t.children[k], path[1..]) else None
  }

  /** `findOrCreateChildPath(path)`: every missing node along the path is created
      as a new empty last child; the node at the end of the path is returned. */
  function EnsurePath(t: TreeValue, path: seq<string>): (r: TreeValue)
    ensures r.name == t.name && r.stats == t.stats
    decreases |path|
  {
    if |path| == 0 then t
    else
      var ws := WithChild(t.children, path[0]);
      var k := IndexOf(ws, path[0]);
      TreeNode(t.name, t.stats, ws[k := EnsurePath(ws[k], path[1..])])
  }

  /** After `findOrCreateChildPath`, the whole path exists. */
  lemma {:induction false} EnsurePathReaches(t: TreeValue, path: seq<string>)
    ensures ChildAt(EnsurePath(t, path), path).Some?
    decreases |path|
  {
    if |path| > 0 {
      var ws := WithChild(t.children, path[0]);
      var k := IndexOf(ws, path[0]);
      var e := EnsurePath(ws[k], path[1..]);
      IndexOfSameNames(ws, ws[k := e], path[0]);
      EnsurePathReaches(ws[k], path[1..]);
    }
  }

  /** A path that already exists is left as it is: nothing is created. */
  lemma {:induction false} EnsureExistingPath(t: TreeValue, path: seq<string>)
    requires ChildAt(t, path).Some?
    ensures EnsurePath(t, path) == t
    decreases |path|
  {
    if |path| > 0 {
      var k := IndexOf(t.children, path[0]);
      EnsureExistingPath(t.children[k], path[1..]);
      assert t.children[k := t.children[k]] == t.children;
    }
  }

  /** Creating a path twice creates it once. */
  lemma EnsurePathIdempotent(t: TreeValue, path: seq<string>)
    ensures EnsurePath(EnsurePath(t, path), path) == EnsurePath(t, path)
  {
    EnsurePathReaches(t, path);
    EnsureExistingPath(EnsurePath(t, path), path);
  }

  /** Only the first name of the path may be added to the children's names, at
      the end, and every other child is kept as it was. */
  lemma EnsurePathChildren(t: TreeValue, path: seq<string>)
    requires |path| > 0
    ensures Names(EnsurePath(t, path).children) == AddName(Names(t.children), path[0])
    ensures forall i | 0 <= i < |t.children| && t.children[i].name != path[0] ::
      EnsurePath(t, path).children[i] == t.children[i]
  {
    var ws := WithChild(t.children, path[0]);
    var k := IndexOf(ws, path[0]);
    IndexOfFound(t.children, path[0]);
    assert Names(ws[k := EnsurePath(ws[k], path[1..])]) == Names(ws);
    if IndexOf(t.children, path[0]) == |t.children| {
      assert Names(ws) == Names(t.children) + [path[0]];
    }
  }

  /** A list of distinct names has as many elements as it has names. */
  lemma {:induction false} DistinctCard(ns: seq<string>)
    requires Distinct(ns)
    ensures |set x | x in ns| == |ns|
    decreases |ns|
  {
    if |ns| > 0 {
      var n := |ns| - 1;
      assert Distinct(ns[..n]);
      DistinctCard(ns[..n]);
      assert (set x | x in ns) == (set x | x in ns[..n]) + {ns[n]};
      assert ns[n] !in (set x | x in ns[..n]);
    }
  }

  /** An entry appended under a new key is found at the end. */
  lemma KeyIndexAppended<T>(m: seq<(string, T)>, key: string, v: T)
    requires KeyIndex(m, key) == |m|
    ensures KeyIndex(m + [(key, v)], key) == |m|
  {
    KeyIndexIs(m + [(key, v)], key, |m|);
  }

  /** The first entry with the key is at k. */
  lemma KeyIndexIs<T>(m: seq<(string, T)>, key: string, k: nat)
    requires k < |m| && m[k].0 == key
    requires forall j | 0 <= j < k :: m[j].0 != key
    ensures KeyIndex(m, key) == k
  {
  }
}
