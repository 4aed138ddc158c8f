/** What a lane layout is, and what every layout handed to the row renderer must satisfy. */
module LaneLayout {
  import opened Wrappers
  import opened CommitGraph

  type Lanes = seq<Option<Hash>>

  datatype RowInfo = RowInfo(lane: int, lanesBefore: Lanes, parentLanes: seq<int>)

  datatype Layout = Layout(commitLane: seq<int>, laneCount: int, idx: map<Hash, nat>, rowDrawInfo: seq<RowInfo>)

  /** Rows of the first `p` parents, in parent order; parents outside the list are skipped. */
  function ParentRows(idx: map<Hash, nat>, parents: seq<Hash>, p: nat): (rows: seq<nat>)
    requires p <= |parents|
  {
    if p == 0 then []
    else
      var front := ParentRows(idx, parents, p - 1);
      if parents[p - 1] in idx then front + [idx[parents[p - 1]]] else front
  }

  /** The rows of all in-list parents of row `i`. */
  function AllParentRows(commits: seq<Commit>, idx: map<Hash, nat>, i: nat): seq<nat>
    requires i < |commits|
  {
    ParentRows(idx, commits[i].parents, |commits[i].parents|)
  }

  /** A row's in-list parents are exactly the rows it links to. */
  lemma {:induction false} ParentRowsAreLinks(commits: seq<Commit>, idx: map<Hash, nat>, i: nat, p: nat, r: nat)
    requires Distinct(Hashes(commits)) && IsLookup(Hashes(commits), idx)
    requires i < |commits| && p <= |commits[i].parents|
    ensures r in ParentRows(idx, commits[i].parents, p)
       <==> r < |commits| && exists k :: 0 <= k < p && commits[i].parents[k] == commits[r].hash
  {
    if p > 0 {
      ParentRowsAreLinks(commits, idx, i, p - 1, r);
      var h := commits[i].parents[p - 1];
      if r < |commits| && commits[r].hash == h {
        LookupInverts(Hashes(commits), idx, r);
      }
    }
  }

  /** Row `i` shows its own lane, and for each in-list parent the lane that parent lands on. */
  ghost predicate RowAgrees(commits: seq<Commit>, layout: Layout, i: nat)
    requires i < |commits| == |layout.commitLane| == |layout.rowDrawInfo|
    requires IsLookup(Hashes(commits), layout.idx)
  {
    var row := layout.rowDrawInfo[i];
    var parents := AllParentRows(commits, layout.idx, i);
    && row.lane == layout.commitLane[i]
    && |row.parentLanes| == |parents|
    && forall q :: 0 <= q < |parents| ==>
         parents[q] < |commits| && row.parentLanes[q] == layout.commitLane[parents[q]]
  }

  /** A lane drawn as busy above row `i` leads to a commit that is awaited there and lands on that lane. */
  ghost predicate BusyLanesSound(commits: seq<Commit>, layout: Layout, i: nat)
    requires i < |commits| == |layout.commitLane| == |layout.rowDrawInfo|
  {
    var before := layout.rowDrawInfo[i].lanesBefore;
    forall l :: 0 <= l < |before| && before[l].Some? ==>
      exists r :: r in Pending(commits, i) && before[l] == Some(commits[r].hash) && layout.commitLane[r] == l
  }

  /** Every commit awaited above row `i` is drawn, on the lane it lands on. */
  ghost predicate BusyLanesComplete(commits: seq<Commit>, layout: Layout, i: nat)
    requires i < |commits| == |layout.commitLane| == |layout.rowDrawInfo|
  {
    var before := layout.rowDrawInfo[i].lanesBefore;
    forall r :: r in Pending(commits, i) ==>
      0 <= layout.commitLane[r] < |before| && before[layout.commitLane[r]] == Some(commits[r].hash)
  }

  ghost predicate RowsMeet(commits: seq<Commit>, layout: Layout)
    requires |layout.commitLane| == |layout.rowDrawInfo| == |commits|
    requires IsLookup(Hashes(commits), layout.idx)
  {
    forall i :: 0 <= i < |commits| ==> RowAgrees(commits, layout, i) && BusyLanesSound(commits, layout, i)
  }

  /** `laneCount` is one more than the highest lane any commit is on; an empty list counts one lane. */
  ghost predicate CountsLanes(commitLane: seq<int>, laneCount: int) {
    && (forall i :: 0 <= i < |commitLane| ==> 0 <= commitLane[i] < laneCount)
    && (if commitLane == [] then laneCount == 1 else laneCount - 1 in commitLane)
  }

  /** The contract both layout algorithms share. */
  ghost predicate Meets(commits: seq<Commit>, layout: Layout) {
    && |layout.commitLane| == |layout.rowDrawInfo| == |commits|
    && IsLookup(Hashes(commits), layout.idx)
    && CountsLanes(layout.commitLane, layout.laneCount)
    && RowsMeet(commits, layout)
  }

  /** `at` lists, from left to right, those of the first `p` parents that are in the list. */
  ghost predicate ListedParents(parents: seq<Hash>, idx: map<Hash, nat>, p: nat, at: seq<nat>) {
    && p <= |parents|
    && (forall q :: 0 <= q < |at| ==> at[q] < p && parents[at[q]] in idx)
    && (forall q, s :: 0 <= q < s < |at| ==> at[q] < at[s])
    && (forall k :: 0 <= k < p && parents[k] in idx ==> k in at)
  }

  lemma {:induction false} ParentRowsInOrder(idx: map<Hash, nat>, parents: seq<Hash>, p: nat) returns (at: seq<nat>)
    requires p <= |parents|
    ensures ListedParents(parents, idx, p, at) && |ParentRows(idx, parents, p)| == |at|
    ensures forall q :: 0 <= q < |at| ==> ParentRows(idx, parents, p)[q] == idx[parents[at[q]]]
  {
    at := [];
    if p > 0 {
      at := ParentRowsInOrder(idx, parents, p - 1);
      if parents[p - 1] in idx {
        at := at + [p - 1];
      }
    }
  }

  /** Every layout draws one parent lane per in-list parent, in the order the commit names them. */
  lemma ParentLanesInOrder(commits: seq<Commit>, layout: Layout, i: nat) returns (at: seq<nat>)
    requires Meets(commits, layout) && i < |commits|
    ensures ListedParents(commits[i].parents, layout.idx, |commits[i].parents|, at)
    ensures |layout.rowDrawInfo[i].parentLanes| == |at|
    ensures forall q :: 0 <= q < |at| ==>
      layout.rowDrawInfo[i].parentLanes[q] == layout.commitLane[layout.idx[commits[i].parents[at[q]]]]
  {
    at := ParentRowsInOrder(layout.idx, commits[i].parents, |commits[i].parents|);
    assert RowAgrees(commits, layout, i);
  }

  /** First position of `x` in `s`, or -1. */
  function IndexOf<T(==)>(s: seq<T>, x: T): (k: int)
    ensures -1 <= k < |s|
    ensures k == -1 <==> x !in s
    ensures k >= 0 ==> s[k] == x && x !in s[..k]
  {
    if s == [] then -1
    else if s[0] == x then 0
    else
      var k := IndexOf(s[1..], x);
      if k == -1 then -1
      else assert s[..k + 1] == [s[0]] + s[1..][..k]; k + 1
  }
}
