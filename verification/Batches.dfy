/** The queries of the batch loops: the first rows that match, the earliest moment first. */
module Batches {
  import opened Prelude

  predicate Within<T>(rows: seq<T>, ids: seq<nat>) {
    forall k :: 0 <= k < |ids| ==> ids[k] < |rows|
  }

  predicate Sorted(moments: seq<int>, ids: seq<nat>)
    requires Within(moments, ids)
  {
    forall j, k :: 0 <= j < k < |ids| ==> moments[ids[j]] <= moments[ids[k]]
  }

  function Insert(moments: seq<int>, ids: seq<nat>, id: nat): (r: seq<nat>)
    requires id < |moments| && Within(moments, ids)
    ensures forall i :: i in r <==> i in ids || i == id
    ensures Distinct(ids) && id !in ids ==> Distinct(r)
    ensures Within(moments, r)
  {
    if ids == [] || moments[id] < moments[ids[0]] then [id] + ids
    else
      var rest := Insert(moments, ids[1..], id);
      assert Distinct(ids) ==> Distinct(ids[1..]) && ids[0] !in ids[1..];
      [ids[0]] + rest
  }

  lemma {:induction false} InsertSorted(moments: seq<int>, ids: seq<nat>, id: nat)
    requires id < |moments| && Within(moments, ids) && Sorted(moments, ids)
    ensures Sorted(moments, Insert(moments, ids, id))
  {
    if ids != [] && moments[ids[0]] <= moments[id] {
      var rest := Insert(moments, ids[1..], id);
      InsertSorted(moments, ids[1..], id);
      forall k | 0 <= k < |rest| ensures moments[ids[0]] <= moments[rest[k]] {
        assert rest[k] in rest;
      }
    }
  }

  /** The wanted rows among the first n. */
  function Listed(wanted: seq<bool>, moments: seq<int>, n: nat): (ids: seq<nat>)
    requires n <= |wanted| == |moments|
    ensures forall i: nat :: i in ids <==> i < n && wanted[i]
    ensures Distinct(ids) && Within(moments, ids) && Sorted(moments, ids)
  {
    if n == 0 then []
    else
      var before := Listed(wanted, moments, n - 1);
      if !wanted[n - 1] then before
      else
        assert forall k :: 0 <= k < |before| ==> before[k] in before;
        InsertSorted(moments, before, n - 1);
        Insert(moments, before, n - 1)
  }

  /** At most `size` of the wanted rows, and all of them if there are fewer. */
  function Earliest(wanted: seq<bool>, moments: seq<int>, size: nat): (ids: seq<nat>)
    requires |wanted| == |moments|
    ensures Distinct(ids) && Within(moments, ids) && Sorted(moments, ids) && |ids| <= size
    ensures forall k :: 0 <= k < |ids| ==> wanted[ids[k]]
    ensures |ids| < size ==> forall i: nat :: i < |wanted| && wanted[i] ==> i in ids
  {
    var all := Listed(wanted, moments, |wanted|);
    assert forall k :: 0 <= k < |all| ==> all[k] in all;
    if |all| <= size then all else all[..size]
  }

  /** A row that is left out is no earlier than any that is taken. */
  lemma LeftOutIsLater(wanted: seq<bool>, moments: seq<int>, size: nat, i: nat, k: nat)
    requires |wanted| == |moments| && i < |wanted| && wanted[i]
    requires var ids := Earliest(wanted, moments, size); i !in ids && k < |ids|
    ensures moments[Earliest(wanted, moments, size)[k]] <= moments[i]
  {
    var all := Listed(wanted, moments, |wanted|);
    var ids := Earliest(wanted, moments, size);
    assert i in all;
    var j :| 0 <= j < |all| && all[j] == i;
    assert forall x :: 0 <= x < |ids| ==> ids[x] == all[x];
  }

  // ---------------------------------------------------------------------------------------------
  // Counting rows
  // ---------------------------------------------------------------------------------------------

  lemma {:induction false} DistinctCount(ids: seq<nat>, all: set<nat>)
    requires Distinct(ids) && forall k :: 0 <= k < |ids| ==> ids[k] in all
    ensures |ids| <= |all|
  {
    if ids != [] {
      var last := ids[|ids| - 1];
      DistinctCount(ids[..|ids| - 1], all - {last});
    }
  }

  lemma {:induction false} SubsetCount(a: set<nat>, b: set<nat>)
    requires a <= b
    ensures |a| <= |b|
  {
    if a != {} {
      var x :| x in a;
      SubsetCount(a - {x}, b - {x});
    }
  }

  lemma {:induction false} ListedCount(ids: seq<nat>)
    ensures |set i: nat | i in ids| <= |ids|
  {
    if ids == [] {
      assert (set i: nat | i in ids) == {};
    } else {
      var rest := ids[1..];
      ListedCount(rest);
      assert (set i: nat | i in ids) == {ids[0]} + (set i | i in rest);
    }
  }

  /** A list that holds a whole set is at least as long. */
  lemma HoldsAll(ids: seq<nat>, all: set<nat>)
    requires forall i: nat :: i in all ==> i in ids
    ensures |all| <= |ids|
  {
    SubsetCount(all, set i: nat | i in ids);
    ListedCount(ids);
  }
}
