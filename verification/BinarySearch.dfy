/**
 The hand-written binary searches over node vectors: EventStream::findNode and the three
 searches of GraphNode. All use the upper midpoint of an unsigned index range, so the
 subtraction `index - 1` must never be reached at index zero.
 */
module BinarySearch {
  import opened Common
  import opened NodeOrder

  // The upper midpoint stays in range and is above the lower bound unless the range is a point.
  function UpperMid(lo: nat, hi: nat): (m: nat)
    requires lo <= hi
    ensures lo <= m <= hi && (lo < hi ==> lo < m)
  {
    hi - (hi - lo) / 2
  }

  /** Finds the position of `node`. With one element that element is returned unchecked; an
      empty vector or a failed search gives None (the reverse end iterator). */
  method FindNode(node: Node, nodes: seq<Node>) returns (at: Option<nat>)
    requires Sorted(nodes)
    ensures |nodes| == 1 ==> at == Some(0)
    ensures |nodes| != 1 ==> (at.Some? <==> node in nodes)
    ensures at.Some? ==> at.value < |nodes|
    ensures node in nodes ==> at.Some? && nodes[at.value] == node
  {
    if |nodes| == 0 { return None; }
    if |nodes| == 1 { return Some(0); }
    var indexMin, indexMax := 0, |nodes| - 1;
    while true
      invariant indexMin <= indexMax < |nodes|
      invariant forall i :: 0 <= i < |nodes| && nodes[i] == node ==> indexMin <= i <= indexMax
      decreases indexMax - indexMin
    {
      var index := UpperMid(indexMin, indexMax);
      if nodes[index] == node { return Some(index); }
      if indexMin == indexMax { return None; }
      if CompareLess(node, nodes[index]) {
        indexMax := index - 1;
      } else {
        indexMin := index + 1;
      }
      if indexMin > indexMax { return None; }
    }
  }

  predicate Ascending(ids: seq<nat>) {
    forall i, j :: 0 <= i < j < |ids| ==> ids[i] < ids[j]
  }

  /** Finds the position of an ID. A failed search returns the first position, so the caller has
      to compare the ID again. */
  method FindId(id: nat, ids: seq<nat>) returns (at: Option<nat>)
    requires Ascending(ids)
    ensures at.None? <==> ids == []
    ensures at.Some? ==> at.value < |ids|
    ensures id in ids ==> at.Some? && ids[at.value] == id
    ensures id !in ids && ids != [] ==> at == Some(0)
  {
    if |ids| == 0 { return None; }
    if |ids| == 1 { return Some(0); }
    var indexMin, indexMax := 0, |ids| - 1;
    while true
      invariant indexMin <= indexMax < |ids|
      invariant forall i :: 0 <= i < |ids| && ids[i] == id ==> indexMin <= i <= indexMax
      decreases indexMax - indexMin
    {
      var index := UpperMid(indexMin, indexMax);
      if ids[index] == id { return Some(index); }
      if indexMin == indexMax { return Some(0); }
      if id < ids[index] {
        indexMax := index - 1;
      } else {
        indexMin := index + 1;
      }
      if indexMin > indexMax { return Some(0); }
    }
  }

  predicate NonDescending(times: seq<nat>) {
    forall i, j :: 0 <= i < j < |times| ==> times[i] <= times[j]
  }

  /** The last position with a time not after `time`; the first position if there is none or
      only one element. The search never reduces its range to one position, and the repair loop
      after it has no work to do: both branches of the source are dead. */
  method FindLastBefore(time: nat, times: seq<nat>) returns (at: Option<nat>)
    requires NonDescending(times)
    ensures at.None? <==> times == []
    ensures at.Some? ==> at.value < |times|
    ensures at.Some? && times[0] <= time ==>
              times[at.value] <= time && forall i :: at.value < i < |times| ==> time < times[i]
    ensures at.Some? && time < times[0] ==> at.value == 0
  {
    if |times| == 0 { return None; }
    if |times| == 1 { return Some(0); }
    var indexMin, indexMax := 0, |times| - 1;
    var index := 0;
    var found: Option<nat> := None;
    while true
      invariant indexMin < indexMax < |times| && found == None
      invariant times[0] <= time ==> times[indexMin] <= time
      invariant time < times[0] ==> indexMin == 0
      invariant forall i :: indexMax < i < |times| ==> time < times[i]
      decreases indexMax - indexMin
    {
      index := UpperMid(indexMin, indexMax);
      if indexMin + 1 == indexMax {
        index := if times[indexMax] <= time then indexMax else indexMin;
        found := Some(index);
        break;
      }
      if time < times[index] {
        indexMax := index;
      } else {
        indexMin := index;
      }
    }
    if times[found.value] > time {
      // the repair loop of the source walks left from here; it has nowhere to go
      assert index == 0;
      return Some(index);
    }
    return found;
  }
}
