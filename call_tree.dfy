/** AppCallTreeNode: one node of the live call tree. A node knows its parent and
    the name it has under it, holds its statistics, and keeps its children keyed
    by name in insertion order. The recursive operations (`addRecursive`, `copyTo`,
    `clearAndCopyTo`) are modelled on the tree's value in module TreeValues; this
    class models the operations on one node and the paths up to the root. */
module CallTree {
  import opened JavaInts
  import opened PerfStats
  import opened TreeValues

  /** The names of a path joined as "/a/b/c"; the root's path is "". */
  function PathString(path: seq<string>): (s: string)
    ensures |path| == 0 ==> s == ""
    decreases |path|
  {
    if |path| == 0 then "" else PathString(path[..|path| - 1]) + "/" + path[|path| - 1]
  }

  /** The elements of s in reverse order. */
  function Reverse(s: seq<string>): (r: seq<string>)
    ensures |r| == |s| && forall i | 0 <= i < |s| :: r[i] == s[|s| - 1 - i]
  {
    seq(|s|, i requires 0 <= i < |s| => s[|s| - 1 - i])
  }

  /** A path string has one '/' in front of each name. */
  lemma {:induction false} PathStringLength(path: seq<string>)
    ensures |PathString(path)| == |path| + SumLengths(path)
    decreases |path|
  {
    if |path| > 0 {
      PathStringLength(path[..|path| - 1]);
    }
  }

  /** The total length of the names. */
  function SumLengths(path: seq<string>): nat
    decreases |path|
  {
    if |path| == 0 then 0 else SumLengths(path[..|path| - 1]) + |path[|path| - 1]|
  }

  class AppCallTreeNode {
    const parent: AppCallTreeNode?
    const childName: string
    /** The number of ancestors; it decreases along the parent chain. */
    ghost const depth: nat
    /** The `LinkedHashMap` of children: (name, node) entries in insertion order. */
    var childMap: seq<(string, AppCallTreeNode)>
    const timeStats: PerfTimeStats

    /** The parent chain ends at a root, each parent one level nearer to it. */
    ghost predicate Linked()
      decreases depth
    {
      if parent == null then depth == 0 else parent.depth + 1 == depth && parent.Linked()
    }

    /** Every key is its child's name, every child has this node as its parent,
        keys are distinct, and the statistics are well formed. */
    ghost predicate Valid()
      reads this, timeStats.Repr()
    {
      Linked() && timeStats.Valid() &&
      (forall i | 0 <= i < |childMap| :: childMap[i].0 == childMap[i].1.childName && childMap[i].1.parent == this) &&
      Distinct(Keys())
    }

    /** The keys of the child map, in insertion order. */
    function Keys(): (ks: seq<string>)
      reads this
      ensures |ks| == |childMap| && forall i | 0 <= i < |childMap| :: ks[i] == childMap[i].0
    {
      seq(|childMap|, i requires 0 <= i < |childMap| reads this => childMap[i].0)
    }

    /** The names from this node up to, but not including, the root. */
    function InvPath(): (p: seq<string>)
      requires Linked()
      ensures |p| == depth
      decreases depth
    {
      if parent == null then [] else [childName] + parent.InvPath()
    }

    /** The names from the root down to this node, the root's own name excluded. */
    function Path(): (p: seq<string>)
      requires Linked()
      ensures |p| == depth
      decreases depth
    {
      if parent == null then [] else parent.Path() + [childName]
    }

    /** `new AppCallTreeNode(parent, childName)`. */
    constructor (parent: AppCallTreeNode?, childName: string)
      requires parent != null ==> parent.Linked()
      ensures Valid() && fresh(timeStats.Repr()) && childMap == []
      ensures this.parent == parent && this.childName == childName
      ensures timeStats.Value() == EmptyTimeStats()
    {
      this.parent := parent;
      this.childName := childName;
      depth := if parent == null then 0 else parent.depth + 1;
      childMap := [];
      timeStats := new PerfTimeStats();
    }

    /** The inverse path read backwards is the path. */
    lemma {:induction false} InvPathReversed()
      requires Linked()
      ensures Reverse(InvPath()) == Path()
      decreases depth
    {
      if parent != null {
        parent.InvPathReversed();
        assert Reverse(InvPath()) == Reverse(parent.InvPath()) + [childName];
      }
    }

    /** A child's path string is its parent's followed by "/" and its name. */
    lemma ChildPathString()
      requires Linked() && parent != null
      ensures PathString(Path()) == PathString(parent.Path()) + "/" + childName
    {
      assert Path()[..|Path()| - 1] == parent.Path();
    }

    /** `getInvPath()`: the loop up the parent chain. */
    method GetInvPath() returns (res: seq<string>)
      requires Linked()
      ensures res == InvPath()
    {
      res := [];
      var p: AppCallTreeNode? := this;
      while p != null && p.parent != null
        invariant p != null && p.Linked() && res + p.InvPath() == InvPath()
        decreases p.depth
      {
        res := res + [p.childName];
        p := p.parent;
      }
    }

    /** `getPath()`: the inverse path, reversed. */
    method GetPath() returns (res: seq<string>)
      requires Linked()
      ensures res == Path()
    {
      var inv := GetInvPath();
      res := Reverse(inv);
      InvPathReversed();
    }

    /** `getPathString()`: "/" and each name, from the last of the inverse path to
        the first. */
    method GetPathString() returns (s: string)
      requires Linked()
      ensures s == PathString(Path())
    {
      var invPath := GetInvPath();
      InvPathReversed();
      ghost var path := Reverse(invPath);
      s := "";
      var i := |invPath| - 1;
      while i >= 0
        invariant -1 <= i < |invPath|
        invariant s == PathString(path[..|invPath| - 1 - i])
      {
        var done := |invPath| - 1 - i;
        assert path[..done + 1][..done] == path[..done];
        s := s + "/" + invPath[i];
        i := i - 1;
      }
      assert path[..|invPath|] == path;
    }

    /** `findOrCreateChild(name)`: the child of that name; when there is none, a new
        empty node with this node as parent is appended under it. */
    method FindOrCreateChild(name: string) returns (res: AppCallTreeNode)
      requires Valid()
      modifies this
      ensures Valid() && Keys() == AddName(old(Keys()), name)
      ensures res.childName == name && res.parent == this && KeyIndex(childMap, name) < |childMap|
      ensures childMap[KeyIndex(childMap, name)].1 == res
      ensures name in old(Keys()) ==> childMap == old(childMap)
      ensures name !in old(Keys()) ==>
        childMap == old(childMap) + [(name, res)] && fresh(res) && fresh(res.timeStats.Repr()) &&
        res.Valid() && res.childMap == [] && res.timeStats.Value() == EmptyTimeStats()
    {
      var k := KeyIndex(childMap, name);
      ghost var ks := Keys();
      assert name in ks <==> k < |childMap|;
      if k < |childMap| {
        res := childMap[k].1;
      } else {
        res := new AppCallTreeNode(this, name);
        childMap := childMap + [(name, res)];
        assert Keys() == ks + [name];
        KeyIndexAppended(old(childMap), name, res);
      }
    }

    /** `incrTimeStats(time, threadUserTime, threadCpuTime)`, with the clock reading
        and the stack trace as parameters. */
    method IncrTimeStats(time: Long, threadUserTime: Long, threadCpuTime: Long, now: Long, trace: string)
      requires Valid()
      modifies timeStats.Repr()
      ensures Valid()
      ensures timeStats.Value() == TimeStatsRecorded(old(timeStats.Value()), time, threadUserTime, threadCpuTime, now, trace)
    {
      timeStats.Incr(time, threadUserTime, threadCpuTime, now, trace);
    }

    /** `clear()`: the statistics are reset and the child map is replaced by an
        empty one. */
    method Clear()
      requires Valid()
      modifies this, timeStats.Repr()
      ensures Valid() && childMap == [] && timeStats.Value() == EmptyTimeStats()
    {
      timeStats.Clear();
      childMap := [];
    }
  }
}
