/** AppCallTreeNodeDTO: one node of the exported call tree, with its name, its
    statistics and its children keyed by name in insertion order. The recursive
    operations (`addRecursive`, `findOrCreateChildPath`) are modelled on the tree's
    value in module TreeValues; this class models the operations on one node. */
module CallTreeDto {
  import opened JavaInts
  import opened Histogram
  import opened PerfStats
  import opened TreeValues

  class AppCallTreeNodeDTO {
    const name: string
    /** The `LinkedHashMap` of children: (name, node) entries in insertion order. */
    var childMap: seq<(string, AppCallTreeNodeDTO)>
    const perfTimeStats: PerfTimeStats

    /** Every key is its child's name, keys are distinct, and the statistics are
        well formed. */
    ghost predicate Valid()
      reads this, perfTimeStats.Repr()
    {
      perfTimeStats.Valid() &&
      (forall i | 0 <= i < |childMap| :: childMap[i].0 == childMap[i].1.name) &&
      Distinct(Keys())
    }

    /** The keys of the child map, in insertion order. */
    function Keys(): (ks: seq<string>)
      reads this
      ensures |ks| == |childMap| && forall i | 0 <= i < |childMap| :: ks[i] == childMap[i].0
    {
      seq(|childMap|, i requires 0 <= i < |childMap| reads this => childMap[i].0)
    }

    constructor (name: string)
      ensures Valid() && fresh(perfTimeStats.Repr()) && this.name == name && childMap == []
      ensures perfTimeStats.Value() == EmptyTimeStats()
    {
      this.name := name;
      childMap := [];
      perfTimeStats := new PerfTimeStats();
    }

    /** `getChildCount()`: the number of distinct child names. */
    function ChildCount(): (r: nat)
      requires Valid()
      reads this, perfTimeStats.Repr()
      ensures r == |set k | k in Keys()|
    {
      DistinctCard(Keys());
      |childMap|
    }

    /** `findOrCreateChild(name)`: the child of that name; when there is none, a new
        empty node is appended under it. */
    method FindOrCreateChild(childName: string) returns (res: AppCallTreeNodeDTO)
      requires Valid()
      modifies this
      ensures Valid() && Keys() == AddName(old(Keys()), childName)
      ensures res.name == childName && KeyIndex(childMap, childName) < |childMap|
      ensures childMap[KeyIndex(childMap, childName)].1 == res
      ensures childName in old(Keys()) ==> childMap == old(childMap)
      ensures childName !in old(Keys()) ==>
        childMap == old(childMap) + [(childName, res)] && fresh(res) && fresh(res.perfTimeStats.Repr()) &&
        res.Valid() && res.childMap == [] && res.perfTimeStats.Value() == EmptyTimeStats()
    {
      var k := KeyIndex(childMap, childName);
      ghost var ks := Keys();
      assert childName in ks <==> k < |childMap|;
      if k < |childMap| {
        res := childMap[k].1;
      } else {
        res := new AppCallTreeNodeDTO(childName);
        childMap := childMap + [(childName, res)];
        assert Keys() == ks + [childName];
        KeyIndexAppended(old(childMap), childName, res);
      }
    }

    /** `getCount()`: the number of calls recorded in the elapsed-time histogram. */
    method GetCount() returns (r: Int32)
      requires Valid()
      ensures r == TotalCount(perfTimeStats.Value().elapsed)
    {
      r := perfTimeStats.elapsedTimeStats.GetCount();
    }

    /** `getElapsedTime()`: the sum of the elapsed times recorded. */
    method GetElapsedTime() returns (r: Long)
      requires Valid()
      ensures r == TotalSum(perfTimeStats.Value().elapsed)
    {
      r := perfTimeStats.elapsedTimeStats.GetSum();
    }
  }
}
