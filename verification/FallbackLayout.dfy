/** The first-fit lane allocator: one pass over the rows, reusing the lowest free lane. */
module FallbackLayout {
  import opened Wrappers
  import opened CommitGraph
  import opened LaneLayout

  /** No more lanes than the widest row needs. */
  ghost predicate WithinWidth(commits: seq<Commit>, lanes: nat) {
    lanes <= Width(commits, |commits|)
  }

  /** Some row in `open` sits on lane `l`. */
  ghost predicate LaneTaken(open: set<nat>, lane: map<nat, nat>, l: nat) {
    exists r :: r in open && r in lane && lane[r] == l
  }

  /** `active` holds exactly the commits of the `open` rows, each on its lane. */
  ghost predicate Frontier(commits: seq<Commit>, active: Lanes, open: set<nat>, lane: map<nat, nat>) {
    && (forall r :: r in open ==>
          r < |commits| && r in lane && lane[r] < |active| && active[lane[r]] == Some(commits[r].hash))
    && (forall l :: 0 <= l < |active| && active[l].Some? ==> LaneTaken(open, lane, l))
  }

  /** One of row `i`'s first `p` parents is the commit of row `r`. */
  ghost predicate NamedBy(commits: seq<Commit>, i: nat, p: nat, r: nat) {
    && i < |commits| && r < |commits| && p <= |commits[i].parents|
    && exists k :: 0 <= k < p && commits[i].parents[k] == commits[r].hash
  }

  /** Rows that are open once row `i` has been placed and its first `p` parents reserved. */
  ghost function OpenAfter(commits: seq<Commit>, i: nat, p: nat): set<nat>
    requires i < |commits| && p <= |commits[i].parents|
  {
    set r: nat | i < r < |commits| && (Awaited(commits, i, r) || NamedBy(commits, i, p, r))
  }

  lemma OpenAfterAll(commits: seq<Commit>, i: nat)
    requires Topological(commits) && i < |commits|
    ensures OpenAfter(commits, i, |commits[i].parents|) == Pending(commits, i + 1)
  {
    var ps := commits[i].parents;
    forall r: nat | r < |commits|
      ensures r in OpenAfter(commits, i, |ps|) <==> r in Pending(commits, i + 1)
    {
      if r in OpenAfter(commits, i, |ps|) {
        if Awaited(commits, i, r) {
          var child :| 0 <= child < i && Link(commits, child, r);
        } else {
          assert Link(commits, i, r);
        }
      }
      if r in Pending(commits, i + 1) {
        var child :| 0 <= child < i + 1 && Link(commits, child, r);
        if child == i {
          var k :| 0 <= k < |ps| && ps[k] == commits[r].hash;
          assert NamedBy(commits, i, |ps|, r);
        }
      }
    }
  }

  /** A lane list with no hole is no longer than the set of open rows. */
  lemma {:induction false} FullFrontier(commits: seq<Commit>, active: Lanes, open: set<nat>, lane: map<nat, nat>)
    requires Frontier(commits, active, open, lane)
    requires None !in active
    ensures |active| <= |open|
  {
    var rows: seq<nat> := [];
    for l := 0 to |active|
      invariant |rows| == l
      invariant forall k :: 0 <= k < l ==> rows[k] in open && rows[k] in lane && lane[rows[k]] == k
    {
      assert active[l] in active;
      var r :| r in open && r in lane && lane[r] == l;
      rows := rows + [r];
    }
    DistinctInSet(rows, open);
  }

  lemma {:induction false} DistinctInSet(s: seq<nat>, all: set<nat>)
    requires Distinct(s) && forall x :: x in s ==> x in all
    ensures |s| <= |all|
  {
    if s != [] {
      DistinctInSet(s[1..], all - {s[0]});
    }
  }

  /** `after` keeps every lane that `before` fixed. */
  ghost predicate Extends(before: map<nat, nat>, after: map<nat, nat>) {
    forall r :: r in before ==> r in after && after[r] == before[r]
  }

  /** No lane below `bound` is free of the rows in `open`. */
  ghost predicate LowerLanesTaken(open: set<nat>, lane: map<nat, nat>, bound: int) {
    forall l: nat :: l < bound ==> LaneTaken(open, lane, l)
  }

  /** A row nobody awaits needs one lane more than the rows that are pending. */
  lemma UnawaitedRowNeedsOneMore(commits: seq<Commit>, i: nat)
    requires i < |commits| && i !in Pending(commits, i)
    ensures Needed(commits, i) == |Pending(commits, i)| + 1
  {
    assert Occupants(commits, i) == Pending(commits, i) + {i};
  }

  /** The lane row `i` takes is its own already, or nobody's. */
  lemma LaneIsItsOwn(commits: seq<Commit>, i: nat, active: Lanes, laneOf: map<nat, nat>, lane: nat)
    requires History(commits) && i < |commits| && lane < |active|
    requires Frontier(commits, active, Pending(commits, i), laneOf)
    requires if i in Pending(commits, i) then active[lane] == Some(commits[i].hash) else active[lane] == None
    requires i in laneOf ==> i in Pending(commits, i)
    ensures forall a :: a in Pending(commits, i) && a != i ==> laneOf[a] != lane
    ensures i in laneOf ==> laneOf[i] == lane
  {
    var open := Pending(commits, i);
    forall a | a in open && a != i ensures laneOf[a] != lane {
      if laneOf[a] == lane {
        SameHashSameRow(commits, a, i);
      }
    }
    if i in open {
      assert LaneTaken(open, laneOf, lane);
      var r :| r in open && r in laneOf && laneOf[r] == lane;
      SameHashSameRow(commits, r, i);
    }
  }

  /** Freeing row `i`'s lane leaves exactly the other pending rows open. */
  lemma ReleaseLane(commits: seq<Commit>, i: nat, active: Lanes, laneOf: map<nat, nat>, lane: nat)
    requires History(commits) && i < |commits| && lane < |active|
    requires Frontier(commits, active, Pending(commits, i), laneOf)
    requires if i in Pending(commits, i) then active[lane] == Some(commits[i].hash) else active[lane] == None
    requires i in laneOf ==> i in Pending(commits, i)
    ensures Frontier(commits, active[lane := None], OpenAfter(commits, i, 0), laneOf[i := lane])
    ensures forall a :: a in Pending(commits, i) && a != i ==> laneOf[a] != lane
    ensures Extends(laneOf, laneOf[i := lane])
  {
    var open, open' := Pending(commits, i), OpenAfter(commits, i, 0);
    var freed, laneOf' := active[lane := None], laneOf[i := lane];
    assert forall r :: r in open' <==> r in open && r != i;
    LaneIsItsOwn(commits, i, active, laneOf, lane);
    forall l: nat | l < |freed| && freed[l].Some? ensures LaneTaken(open', laneOf', l) {
      assert LaneTaken(open, laneOf, l);
      var r :| r in open && r in laneOf && laneOf[r] == l;
      assert r in open' && laneOf'[r] == l;
    }
  }

  /** Finds the lane reserved for commit `i` or else the lowest free one, opening a lane if there is none. */
  method FindLane(commits: seq<Commit>, i: nat, before: Lanes, ghost laneOf: map<nat, nat>)
    returns (lane: nat, active: Lanes)
    requires History(commits) && i < |commits|
    requires Frontier(commits, before, Pending(commits, i), laneOf) && WithinWidth(commits, |before|)
    ensures Frontier(commits, active, Pending(commits, i), laneOf) && WithinWidth(commits, |active|)
    ensures active == before || (active == before + [None] && lane == |before|)
    ensures lane < |active|
    ensures if i in Pending(commits, i) then active[lane] == Some(commits[i].hash)
            else active[lane] == None && LowerLanesTaken(Pending(commits, i), laneOf, lane)
  {
    active := before;
    var found := IndexOf(before, Some(commits[i].hash));
    if found == -1 {
      assert i !in Pending(commits, i);
      found := IndexOf(active, None);
      if found == -1 {
        RoomForRow(commits, i, active, laneOf);
        found := |active|;
        active := active + [None];
      }
      BelowFirstHole(commits, active, Pending(commits, i), laneOf, found);
    } else {
      ReservedIsPending(commits, i, before, laneOf, found);
    }
    lane := found;
  }

  /** A row nobody awaits finds room for one more lane. */
  lemma RoomForRow(commits: seq<Commit>, i: nat, active: Lanes, laneOf: map<nat, nat>)
    requires i < |commits| && i !in Pending(commits, i) && None !in active
    requires Frontier(commits, active, Pending(commits, i), laneOf)
    ensures WithinWidth(commits, |active| + 1)
    ensures Frontier(commits, active + [None], Pending(commits, i), laneOf)
  {
    FullFrontier(commits, active, Pending(commits, i), laneOf);
    UnawaitedRowNeedsOneMore(commits, i);
    assert Needed(commits, i) <= Width(commits, |commits|);
    WidenFrontier(commits, active, Pending(commits, i), laneOf);
  }

  lemma ReservedIsPending(commits: seq<Commit>, i: nat, active: Lanes, laneOf: map<nat, nat>, lane: nat)
    requires History(commits) && i < |commits| && Frontier(commits, active, Pending(commits, i), laneOf)
    requires lane < |active| && active[lane] == Some(commits[i].hash)
    ensures i in Pending(commits, i)
  {
    assert LaneTaken(Pending(commits, i), laneOf, lane);
    var r :| r in Pending(commits, i) && r in laneOf && laneOf[r] == lane;
    SameHashSameRow(commits, r, i);
  }

  /**
   * Puts commit `i` on the lane reserved for it or else on the lowest free lane, and
   * then frees that lane.
   */
  method PlaceCommit(commits: seq<Commit>, i: nat, before: Lanes, ghost laneOf: map<nat, nat>)
    returns (lane: nat, active: Lanes, ghost laneOf': map<nat, nat>)
    requires History(commits) && i < |commits|
    requires Frontier(commits, before, Pending(commits, i), laneOf)
    requires WithinWidth(commits, |before|)
    requires i in laneOf ==> i in Pending(commits, i)
    ensures laneOf' == laneOf[i := lane] && Extends(laneOf, laneOf')
    ensures Frontier(commits, active, OpenAfter(commits, i, 0), laneOf')
    ensures |before| <= |active| && WithinWidth(commits, |active|)
    ensures |active| > |before| ==> |active| == |before| + 1 && lane == |before|
    ensures lane < |active| && active[lane] == None
    ensures forall a :: a in Pending(commits, i) && a != i ==> laneOf[a] != lane
    ensures i !in Pending(commits, i) ==> LowerLanesTaken(Pending(commits, i), laneOf, lane)
  {
    lane, active := FindLane(commits, i, before, laneOf);
    ReleaseLane(commits, i, active, laneOf, lane);
    active := active[lane := None];
    laneOf' := laneOf[i := lane];
  }

  // ---------- reserving lanes for parents ----------

  /** Reserving a hole for a row that is not open yet. */
  lemma ReserveLane(commits: seq<Commit>, active: Lanes, open: set<nat>, laneOf: map<nat, nat>, r: nat, l: nat)
    requires Frontier(commits, active, open, laneOf)
    requires r < |commits| && r !in laneOf
    requires l < |active| && active[l] == None
    ensures Frontier(commits, active[l := Some(commits[r].hash)], open + {r}, laneOf[r := l])
  {
    var active', laneOf' := active[l := Some(commits[r].hash)], laneOf[r := l];
    forall k: nat | k < |active'| && active'[k].Some? ensures LaneTaken(open + {r}, laneOf', k) {
      if k == l {
        assert r in open + {r} && laneOf'[r] == k;
      } else {
        assert LaneTaken(open, laneOf, k);
        var o :| o in open && o in laneOf && laneOf[o] == k;
        assert o in open + {r} && laneOf'[o] == k;
      }
    }
  }

  /** The `p`-th parent of row `i` is in the list, on row `r` and nowhere else; handling it opens that row. */
  ghost predicate ParentAt(commits: seq<Commit>, i: nat, p: nat, r: nat) {
    && i < |commits| && p < |commits[i].parents|
    && i < r < |commits| && commits[r].hash == commits[i].parents[p]
    && (forall o: nat :: o < |commits| && commits[o].hash == commits[i].parents[p] ==> o == r)
    && OpenAfter(commits, i, p + 1) == OpenAfter(commits, i, p) + {r}
  }

  /** What the lookup table says about the `p`-th parent of row `i`. */
  ghost predicate Resolved(commits: seq<Commit>, idx: map<Hash, nat>, i: nat, p: nat) {
    && i < |commits| && p < |commits[i].parents|
    && var h := commits[i].parents[p];
       if h in idx then ParentAt(commits, i, p, idx[h])
       else OpenAfter(commits, i, p + 1) == OpenAfter(commits, i, p)
  }

  lemma ParentsResolve(commits: seq<Commit>, idx: map<Hash, nat>, i: nat, p: nat)
    requires History(commits) && IsLookup(Hashes(commits), idx)
    requires i < |commits| && p < |commits[i].parents|
    ensures Resolved(commits, idx, i, p)
  {
    var ps := commits[i].parents;
    if ps[p] in idx {
      assert Link(commits, i, idx[ps[p]]);
    }
    forall r: nat | r < |commits| && commits[r].hash == ps[p] ensures ps[p] in idx && idx[ps[p]] == r {
      LookupInverts(Hashes(commits), idx, r);
    }
  }

  lemma OpenAfterGrows(commits: seq<Commit>, i: nat, p: nat)
    requires Topological(commits)
    requires i < |commits| && p <= |commits[i].parents|
    ensures OpenAfter(commits, i, p) <= Pending(commits, i + 1)
  {
    OpenAfterAll(commits, i);
  }

  /** How many lanes are open while parents are being reserved never exceeds the width. */
  lemma RoomForParent(commits: seq<Commit>, i: nat, p: nat, r: nat)
    requires Topological(commits)
    requires i < |commits| && p < |commits[i].parents|
    requires r !in OpenAfter(commits, i, p) && r in OpenAfter(commits, i, p + 1)
    ensures |OpenAfter(commits, i, p)| < Width(commits, |commits|)
  {
    OpenAfterGrows(commits, i, p);
    OpenAfterGrows(commits, i, p + 1);
    SubsetSize(OpenAfter(commits, i, p) + {r}, Pending(commits, i + 1));
    PendingAfterFitsBelow(commits, i);
  }

  /**
   * Where the `p`-th listed parent of row `i` goes: a parent already awaited keeps its
   * lane; a new first parent continues on the child's lane; any other new parent
   * takes the lowest lane free at that moment.
   */
  ghost predicate ParentRule(commits: seq<Commit>, idx: map<Hash, nat>, i: nat, p: nat, laneOf: map<nat, nat>)
    requires i < |commits| && p < |commits[i].parents|
  {
    var h := commits[i].parents[p];
    h in idx && idx[h] !in OpenAfter(commits, i, p) ==>
      && i in laneOf && idx[h] in laneOf
      && (if p == 0 then laneOf[idx[h]] == laneOf[i]
          else LowerLanesTaken(OpenAfter(commits, i, p), laneOf, laneOf[idx[h]]))
  }

  /** Reads the lanes of the given rows. */
  ghost predicate LanesOf(rows: seq<nat>, laneOf: map<nat, nat>, lanes: seq<int>) {
    && |lanes| == |rows|
    && forall q :: 0 <= q < |rows| ==> rows[q] in laneOf && lanes[q] == laneOf[rows[q]]
  }

  lemma TakenPersists(open: set<nat>, before: map<nat, nat>, after: map<nat, nat>, bound: int)
    requires Extends(before, after) && LowerLanesTaken(open, before, bound)
    ensures LowerLanesTaken(open, after, bound)
  {
    forall l: nat | l < bound ensures LaneTaken(open, after, l) {
      assert LaneTaken(open, before, l);
      var r :| r in open && r in before && before[r] == l;
      assert r in after && after[r] == l;
    }
  }

  lemma RulePersists(commits: seq<Commit>, idx: map<Hash, nat>, i: nat, p: nat, before: map<nat, nat>,
                     after: map<nat, nat>)
    requires i < |commits| && p < |commits[i].parents|
    requires Extends(before, after) && ParentRule(commits, idx, i, p, before)
    ensures ParentRule(commits, idx, i, p, after)
  {
    var h := commits[i].parents[p];
    if p > 0 && h in idx && idx[h] !in OpenAfter(commits, i, p) {
      TakenPersists(OpenAfter(commits, i, p), before, after, before[idx[h]]);
    }
  }

  /** The largest lane in a row's list, 0 for the empty list. */
  function MaxLane(lanes: seq<int>): (m: int)
    ensures m >= 0
    ensures forall q :: 0 <= q < |lanes| ==> lanes[q] <= m
  {
    if lanes == [] then 0
    else
      var front, last := MaxLane(lanes[..|lanes| - 1]), lanes[|lanes| - 1];
      if last > front then last else front
  }

  lemma MaxLaneAppend(lanes: seq<int>, l: int)
    ensures MaxLane(lanes + [l]) == if l > MaxLane(lanes) then l else MaxLane(lanes)
  {
    assert (lanes + [l])[..|lanes|] == lanes;
  }

  /** The state after the first `p` parents of row `i` have been given lanes. */
  ghost predicate Reserved(commits: seq<Commit>, idx: map<Hash, nat>, i: nat, p: nat,
                           active: Lanes, laneOf: map<nat, nat>, parentLanes: seq<int>)
  {
    && i < |commits| && p <= |commits[i].parents|
    && (forall r :: r in laneOf ==> (r <= i || r in OpenAfter(commits, i, p)) && laneOf[r] < |active|)
    && Frontier(commits, active, OpenAfter(commits, i, p), laneOf)
    && LanesOf(ParentRows(idx, commits[i].parents, p), laneOf, parentLanes)
    && (forall k {:trigger ParentRule(commits, idx, i, k, laneOf)} :: 0 <= k < p ==>
           ParentRule(commits, idx, i, k, laneOf))
  }

  /** A parent outside the list takes no lane. */
  lemma SkipParent(commits: seq<Commit>, idx: map<Hash, nat>, i: nat, p: nat,
                   active: Lanes, laneOf: map<nat, nat>, parentLanes: seq<int>)
    requires Resolved(commits, idx, i, p)
    requires Reserved(commits, idx, i, p, active, laneOf, parentLanes)
    requires commits[i].parents[p] !in idx
    ensures Reserved(commits, idx, i, p + 1, active, laneOf, parentLanes)
  {
    assert OpenAfter(commits, i, p + 1) == OpenAfter(commits, i, p);
  }

  /** A parent that already has a lane keeps it. */
  lemma ShareLane(commits: seq<Commit>, idx: map<Hash, nat>, i: nat, p: nat,
                  active: Lanes, laneOf: map<nat, nat>, parentLanes: seq<int>, l: nat)
    requires Resolved(commits, idx, i, p)
    requires Reserved(commits, idx, i, p, active, laneOf, parentLanes)
    requires commits[i].parents[p] in idx
    requires l < |active| && active[l] == Some(commits[i].parents[p])
    ensures Reserved(commits, idx, i, p + 1, active, laneOf, parentLanes + [l])
  {
    var open, r := OpenAfter(commits, i, p), idx[commits[i].parents[p]];
    assert LaneTaken(open, laneOf, l);
    var o :| o in open && o in laneOf && laneOf[o] == l;
    assert OpenAfter(commits, i, p + 1) == open + {r} == open;
    assert LanesOf(ParentRows(idx, commits[i].parents, p + 1), laneOf, parentLanes + [l]);
    assert ParentRule(commits, idx, i, p, laneOf);
  }

  lemma BelowFirstHole(commits: seq<Commit>, active: Lanes, open: set<nat>, laneOf: map<nat, nat>, l: nat)
    requires Frontier(commits, active, open, laneOf)
    requires l < |active| && None !in active[..l]
    ensures LowerLanesTaken(open, laneOf, l)
  {
    forall k: nat | k < l ensures LaneTaken(open, laneOf, k) {
      assert active[k] in active[..l];
    }
  }

  lemma AppendLane(rows: seq<nat>, laneOf: map<nat, nat>, lanes: seq<int>, r: nat, l: nat)
    requires LanesOf(rows, laneOf, lanes) && r !in laneOf
    ensures LanesOf(rows + [r], laneOf[r := l], lanes + [l])
  {
  }

  /** A parent without a lane takes the hole `l`, as the rule for its position says. */
  lemma TakeLane(commits: seq<Commit>, idx: map<Hash, nat>, i: nat, p: nat,
                 active: Lanes, laneOf: map<nat, nat>, parentLanes: seq<int>, l: nat)
    requires Resolved(commits, idx, i, p)
    requires Reserved(commits, idx, i, p, active, laneOf, parentLanes)
    requires commits[i].parents[p] in idx
    requires Some(commits[i].parents[p]) !in active
    requires l < |active| && active[l] == None && i in laneOf
    requires if p == 0 then l == laneOf[i] else None !in active[..l]
    ensures var r := idx[commits[i].parents[p]];
      && r !in laneOf && r !in OpenAfter(commits, i, p) && r in OpenAfter(commits, i, p + 1)
      && Extends(laneOf, laneOf[r := l])
      && Reserved(commits, idx, i, p + 1, active[l := Some(commits[i].parents[p])], laneOf[r := l], parentLanes + [l])
  {
    var open, r := OpenAfter(commits, i, p), idx[commits[i].parents[p]];
    var laneOf' := laneOf[r := l];
    ReserveLane(commits, active, open, laneOf, r, l);
    forall k | 0 <= k < p ensures ParentRule(commits, idx, i, k, laneOf') {
      RulePersists(commits, idx, i, k, laneOf, laneOf');
    }
    if p > 0 {
      BelowFirstHole(commits, active, open, laneOf, l);
      TakenPersists(open, laneOf, laneOf', l);
    }
    AppendLane(ParentRows(idx, commits[i].parents, p), laneOf, parentLanes, r, l);
  }

  /** When a new parent finds no hole, the width still leaves room for one more lane. */
  lemma NoHoleForParent(commits: seq<Commit>, idx: map<Hash, nat>, i: nat, p: nat,
                        active: Lanes, laneOf: map<nat, nat>, parentLanes: seq<int>)
    requires Topological(commits) && Resolved(commits, idx, i, p)
    requires Reserved(commits, idx, i, p, active, laneOf, parentLanes)
    requires commits[i].parents[p] in idx
    requires Some(commits[i].parents[p]) !in active && None !in active
    ensures |active| < Width(commits, |commits|)
    ensures Reserved(commits, idx, i, p, active + [None], laneOf, parentLanes)
  {
    FullFrontier(commits, active, OpenAfter(commits, i, p), laneOf);
    RoomForParent(commits, i, p, idx[commits[i].parents[p]]);
    WidenFrontier(commits, active, OpenAfter(commits, i, p), laneOf);
  }

  lemma WidenFrontier(commits: seq<Commit>, active: Lanes, open: set<nat>, laneOf: map<nat, nat>)
    requires Frontier(commits, active, open, laneOf)
    ensures Frontier(commits, active + [None], open, laneOf)
  {
  }

  /** Finds the lane of one in-list parent: its own if it has one, else the child's or the lowest free one. */
  method ReserveParent(commits: seq<Commit>, idx: map<Hash, nat>, i: nat, p: nat, lane: nat, before: Lanes,
                       ghost laneOf: map<nat, nat>, ghost parentLanes: seq<int>)
    returns (sl: nat, active: Lanes, ghost laneOf': map<nat, nat>)
    requires Topological(commits)
    requires Reserved(commits, idx, i, p, before, laneOf, parentLanes)
    requires Resolved(commits, idx, i, p) && commits[i].parents[p] in idx
    requires i in laneOf && laneOf[i] == lane
    requires p == 0 ==> lane < |before| && before[lane] == None
    requires WithinWidth(commits, |before|)
    ensures Extends(laneOf, laneOf')
    ensures Reserved(commits, idx, i, p + 1, active, laneOf', parentLanes + [sl])
    ensures |before| <= |active| && WithinWidth(commits, |active|) && sl < |active|
    ensures |active| > |before| ==> sl == |active| - 1
  {
    var parent := commits[i].parents[p];
    active, laneOf' := before, laneOf;
    var found := IndexOf(active, Some(parent));
    if found >= 0 {
      ShareLane(commits, idx, i, p, active, laneOf, parentLanes, found);
    } else {
      if p == 0 {
        found := lane;
      } else {
        found := IndexOf(active, None);
        if found == -1 {
          NoHoleForParent(commits, idx, i, p, active, laneOf, parentLanes);
          found := |active|;
          active := active + [None];
        }
      }
      TakeLane(commits, idx, i, p, active, laneOf, parentLanes, found);
      active := active[found := Some(parent)];
      laneOf' := laneOf[idx[parent] := found];
    }
    sl := found;
  }

  /** The list is no shorter than before, within the width, and holds the parents' lanes; a new last lane is theirs. */
  ghost predicate Grown(commits: seq<Commit>, before: Lanes, active: Lanes, parentLanes: seq<int>) {
    && |before| <= |active| && WithinWidth(commits, |active|)
    && MaxLane(parentLanes) < |active|
    && (|active| > |before| ==> MaxLane(parentLanes) == |active| - 1)
  }

  /** Reserves a lane for parent `p` of row `i` if it is listed. */
  method PlaceParent(commits: seq<Commit>, idx: map<Hash, nat>, i: nat, p: nat, lane: nat, ghost before: Lanes,
                     active: Lanes, ghost laneOf: map<nat, nat>, parentLanes: seq<int>)
    returns (parentLanes': seq<int>, active': Lanes, ghost laneOf': map<nat, nat>)
    requires Topological(commits) && Resolved(commits, idx, i, p)
    requires Reserved(commits, idx, i, p, active, laneOf, parentLanes)
    requires Grown(commits, before, active, parentLanes) && (p == 0 ==> active == before)
    requires lane < |before| && before[lane] == None && i in laneOf && laneOf[i] == lane
    ensures Extends(laneOf, laneOf')
    ensures Reserved(commits, idx, i, p + 1, active', laneOf', parentLanes')
    ensures Grown(commits, before, active', parentLanes')
  {
    parentLanes', active', laneOf' := parentLanes, active, laneOf;
    if commits[i].parents[p] !in idx {
      SkipParent(commits, idx, i, p, active, laneOf, parentLanes);
      return;
    }
    var sl;
    sl, active', laneOf' := ReserveParent(commits, idx, i, p, lane, active, laneOf, parentLanes);
    MaxLaneAppend(parentLanes, sl);
    parentLanes' := parentLanes + [sl];
  }

  /** Reserves a lane for each listed parent of row `i` in turn. */
  method PlaceParents(commits: seq<Commit>, idx: map<Hash, nat>, i: nat, lane: nat, before: Lanes,
                      ghost laneOf: map<nat, nat>)
    returns (parentLanes: seq<int>, active: Lanes, ghost laneOf': map<nat, nat>)
    requires Topological(commits)
    requires i < |commits|
    requires forall p {:trigger Resolved(commits, idx, i, p)} :: 0 <= p < |commits[i].parents| ==>
               Resolved(commits, idx, i, p)
    requires Reserved(commits, idx, i, 0, before, laneOf, [])
    requires lane < |before| && before[lane] == None && i in laneOf && laneOf[i] == lane
    requires WithinWidth(commits, |before|)
    ensures Extends(laneOf, laneOf')
    ensures Reserved(commits, idx, i, |commits[i].parents|, active, laneOf', parentLanes)
    ensures Grown(commits, before, active, parentLanes)
  {
    parentLanes, active, laneOf' := [], before, laneOf;
    for p := 0 to |commits[i].parents|
      invariant Extends(laneOf, laneOf')
      invariant Reserved(commits, idx, i, p, active, laneOf', parentLanes)
      invariant Grown(commits, before, active, parentLanes) && (p == 0 ==> active == before)
    {
      parentLanes, active, laneOf' := PlaceParent(commits, idx, i, p, lane, before, active, laneOf', parentLanes);
    }
  }

  // ---------- the whole pass ----------

  /** Rows that are open together sit on different lanes. */
  ghost predicate Apart(open: set<nat>, laneOf: map<nat, nat>) {
    && open <= laneOf.Keys
    && forall a, b :: a in open && b in open && a != b ==> laneOf[a] != laneOf[b]
  }

  /** Lane choice for row `k`: the lowest free lane unless a child reserved one; parents by `ParentRule`. */
  ghost predicate FirstFit(commits: seq<Commit>, idx: map<Hash, nat>, k: nat, laneOf: map<nat, nat>)
    requires k < |commits|
  {
    && k in laneOf
    && (k !in Pending(commits, k) ==> LowerLanesTaken(Pending(commits, k), laneOf, laneOf[k]))
    && forall p {:trigger ParentRule(commits, idx, k, p, laneOf)} :: 0 <= p < |commits[k].parents| ==>
         ParentRule(commits, idx, k, p, laneOf)
  }

  /** Everything the pass settles about row `k` when it draws it. */
  ghost predicate RowDone(commits: seq<Commit>, idx: map<Hash, nat>, k: nat, row: RowInfo, laneOf: map<nat, nat>) {
    && k < |commits|
    && FirstFit(commits, idx, k, laneOf)
    && row.lane == laneOf[k]
    && Frontier(commits, row.lanesBefore, Pending(commits, k), laneOf)
    && LanesOf(AllParentRows(commits, idx, k), laneOf, row.parentLanes)
    && Apart(Occupants(commits, k), laneOf)
  }

  /** Later rows never move a lane, so a finished row stays finished. */
  lemma RowDonePersists(commits: seq<Commit>, idx: map<Hash, nat>, k: nat, row: RowInfo,
                        before: map<nat, nat>, after: map<nat, nat>)
    requires Extends(before, after) && RowDone(commits, idx, k, row, before)
    ensures RowDone(commits, idx, k, row, after)
  {
    if k !in Pending(commits, k) {
      TakenPersists(Pending(commits, k), before, after, before[k]);
    }
    forall p | 0 <= p < |commits[k].parents| ensures ParentRule(commits, idx, k, p, after) {
      RulePersists(commits, idx, k, p, before, after);
    }
    FrontierPersists(commits, row.lanesBefore, Pending(commits, k), before, after);
  }

  lemma FrontierPersists(commits: seq<Commit>, active: Lanes, open: set<nat>,
                         before: map<nat, nat>, after: map<nat, nat>)
    requires Extends(before, after) && Frontier(commits, active, open, before)
    ensures Frontier(commits, active, open, after)
  {
    forall l: nat | l < |active| && active[l].Some? ensures LaneTaken(open, after, l) {
      assert LaneTaken(open, before, l);
      var r :| r in open && r in before && before[r] == l;
      assert r in after && after[r] == l;
    }
  }

  ghost predicate AllDone(commits: seq<Commit>, idx: map<Hash, nat>, rows: seq<RowInfo>, laneOf: map<nat, nat>) {
    forall k {:trigger RowDone(commits, idx, k, rows[k], laneOf)} :: 0 <= k < |rows| ==>
      RowDone(commits, idx, k, rows[k], laneOf)
  }

  lemma AllDoneStep(commits: seq<Commit>, idx: map<Hash, nat>, rows: seq<RowInfo>, row: RowInfo,
                    before: map<nat, nat>, after: map<nat, nat>)
    requires Extends(before, after) && AllDone(commits, idx, rows, before)
    requires RowDone(commits, idx, |rows|, row, after)
    ensures AllDone(commits, idx, rows + [row], after)
  {
    forall k | 0 <= k < |rows| ensures RowDone(commits, idx, k, rows[k], after) {
      RowDonePersists(commits, idx, k, rows[k], before, after);
    }
  }

  /** The state of the pass before row `i`. */
  ghost predicate Drawn(commits: seq<Commit>, idx: map<Hash, nat>, i: nat, active: Lanes,
                        laneOf: map<nat, nat>, rows: seq<RowInfo>)
  {
    && |rows| == i <= |commits|
    && AllDone(commits, idx, rows, laneOf)
    && (forall r :: r in laneOf ==> (r < i || r in Pending(commits, i)) && laneOf[r] < |active|)
    && Frontier(commits, active, Pending(commits, i), laneOf)
    && (|active| > 0 ==> LaneTaken(laneOf.Keys, laneOf, |active| - 1))
  }

  lemma MaxLaneAttained(lanes: seq<int>)
    ensures MaxLane(lanes) > 0 ==> exists q :: 0 <= q < |lanes| && lanes[q] == MaxLane(lanes)
  {
    if lanes != [] && lanes[|lanes| - 1] <= MaxLane(lanes[..|lanes| - 1]) {
      MaxLaneAttained(lanes[..|lanes| - 1]);
    }
  }

  lemma OccupantsApart(commits: seq<Commit>, i: nat, before: Lanes, laneOf: map<nat, nat>, lane: nat)
    requires i < |commits| && Frontier(commits, before, Pending(commits, i), laneOf) && History(commits)
    requires forall a :: a in Pending(commits, i) && a != i ==> laneOf[a] != lane
    ensures Apart(Occupants(commits, i), laneOf[i := lane])
  {
    var after := laneOf[i := lane];
    forall a, b | a in Occupants(commits, i) && b in Occupants(commits, i) && a != b
      ensures a in after && b in after && after[a] != after[b]
    {
      if a != i && b != i && laneOf[a] == laneOf[b] {
        SameHashSameRow(commits, a, b);
      }
    }
  }

  /** The row just drawn is settled once its parents have lanes. */
  lemma RowSettled(commits: seq<Commit>, idx: map<Hash, nat>, i: nat, row: RowInfo,
                   laneOf: map<nat, nat>, laneOf1: map<nat, nat>, laneOf': map<nat, nat>, active: Lanes)
    requires i < |commits| && row.lane >= 0
    requires Frontier(commits, row.lanesBefore, Pending(commits, i), laneOf)
    requires laneOf1 == laneOf[i := row.lane] && Extends(laneOf, laneOf1) && Extends(laneOf1, laneOf')
    requires i !in Pending(commits, i) ==> LowerLanesTaken(Pending(commits, i), laneOf, row.lane)
    requires Apart(Occupants(commits, i), laneOf1)
    requires Reserved(commits, idx, i, |commits[i].parents|, active, laneOf', row.parentLanes)
    ensures RowDone(commits, idx, i, row, laneOf')
  {
    assert laneOf1[i] == row.lane;
    FrontierPersists(commits, row.lanesBefore, Pending(commits, i), laneOf, laneOf');
    if i !in Pending(commits, i) {
      TakenPersists(Pending(commits, i), laneOf, laneOf', row.lane);
    }
  }

  /** The highest lane ever opened belongs to some row. */
  lemma TopLane(commits: seq<Commit>, idx: map<Hash, nat>, i: nat, before: Lanes, laneOf: map<nat, nat>,
                row: RowInfo, active: Lanes, laneOf': map<nat, nat>)
    requires i < |commits| && Extends(laneOf, laneOf') && i in laneOf' && laneOf'[i] == row.lane
    requires |before| > 0 ==> LaneTaken(laneOf.Keys, laneOf, |before| - 1)
    requires LanesOf(AllParentRows(commits, idx, i), laneOf', row.parentLanes)
    requires |before| <= |active|
    requires |active| > |before| ==> row.lane == |active| - 1 || MaxLane(row.parentLanes) == |active| - 1
    requires 0 <= row.lane < |active|
    ensures LaneTaken(laneOf'.Keys, laneOf', |active| - 1)
  {
    if |active| == |before| {
      var r :| r in laneOf.Keys && r in laneOf && laneOf[r] == |before| - 1;
      assert r in laneOf'.Keys && laneOf'[r] == |active| - 1;
    } else if row.lane == |active| - 1 {
      assert i in laneOf'.Keys && laneOf'[i] == |active| - 1;
    } else {
      MaxLaneAttained(row.parentLanes);
      var q :| 0 <= q < |row.parentLanes| && row.parentLanes[q] == |active| - 1;
      var r := AllParentRows(commits, idx, i)[q];
      assert r in laneOf'.Keys && laneOf'[r] == |active| - 1;
    }
  }

  lemma NextRowDone(commits: seq<Commit>, idx: map<Hash, nat>, i: nat, laneOf: map<nat, nat>, rows: seq<RowInfo>,
                    row: RowInfo, laneOf1: map<nat, nat>, active: Lanes, laneOf': map<nat, nat>)
    requires i < |commits| && row.lane >= 0 && Drawn(commits, idx, i, row.lanesBefore, laneOf, rows)
    requires laneOf1 == laneOf[i := row.lane] && Extends(laneOf, laneOf1) && Extends(laneOf1, laneOf')
    requires i !in Pending(commits, i) ==> LowerLanesTaken(Pending(commits, i), laneOf, row.lane)
    requires Apart(Occupants(commits, i), laneOf1)
    requires Reserved(commits, idx, i, |commits[i].parents|, active, laneOf', row.parentLanes)
    ensures AllDone(commits, idx, rows + [row], laneOf')
  {
    RowSettled(commits, idx, i, row, laneOf, laneOf1, laneOf', active);
    AllDoneStep(commits, idx, rows, row, laneOf, laneOf');
  }

  /** Placing row `i` and reserving its parents advances the pass by one row. */
  lemma AdvanceDrawn(commits: seq<Commit>, idx: map<Hash, nat>, i: nat, laneOf: map<nat, nat>, rows: seq<RowInfo>,
                     row: RowInfo, laneOf1: map<nat, nat>, active: Lanes, laneOf': map<nat, nat>)
    requires i < |commits| && row.lane >= 0 && Topological(commits)
    requires Drawn(commits, idx, i, row.lanesBefore, laneOf, rows)
    requires laneOf1 == laneOf[i := row.lane] && Extends(laneOf, laneOf1) && Extends(laneOf1, laneOf')
    requires i !in Pending(commits, i) ==> LowerLanesTaken(Pending(commits, i), laneOf, row.lane)
    requires Apart(Occupants(commits, i), laneOf1)
    requires Reserved(commits, idx, i, |commits[i].parents|, active, laneOf', row.parentLanes)
    requires |row.lanesBefore| <= |active|
    requires |active| > |row.lanesBefore| ==> row.lane == |active| - 1 || MaxLane(row.parentLanes) == |active| - 1
    ensures Drawn(commits, idx, i + 1, active, laneOf', rows + [row])
    ensures Extends(laneOf, laneOf') && i in laneOf'
  {
    assert laneOf1[i] == row.lane;
    NextRowDone(commits, idx, i, laneOf, rows, row, laneOf1, active, laneOf');
    TopLane(commits, idx, i, row.lanesBefore, laneOf, row, active, laneOf');
    OpenAfterAll(commits, i);
  }

  /** One turn of the pass: place row `i`, then reserve lanes for its parents. */
  method DrawRow(commits: seq<Commit>, idx: map<Hash, nat>, i: nat, lanesBefore: Lanes,
                 ghost laneOf: map<nat, nat>, ghost rows: seq<RowInfo>)
    returns (row: RowInfo, active: Lanes, ghost laneOf': map<nat, nat>)
    requires History(commits) && IsLookup(Hashes(commits), idx) && i < |commits|
    requires Drawn(commits, idx, i, lanesBefore, laneOf, rows)
    requires WithinWidth(commits, |lanesBefore|)
    ensures Extends(laneOf, laneOf') && i in laneOf' && laneOf'[i] == row.lane
    ensures Drawn(commits, idx, i + 1, active, laneOf', rows + [row])
    ensures |lanesBefore| <= |active| && WithinWidth(commits, |active|) && 0 < |active|
    ensures 0 <= row.lane < |active| && MaxLane(row.parentLanes) < |active|
    ensures |active| > |lanesBefore| ==> row.lane == |active| - 1 || MaxLane(row.parentLanes) == |active| - 1
  {
    var lane, placed; ghost var laneOf1;
    lane, placed, laneOf1 := PlaceCommit(commits, i, lanesBefore, laneOf);
    OccupantsApart(commits, i, lanesBefore, laneOf, lane);
    forall p | 0 <= p < |commits[i].parents| ensures Resolved(commits, idx, i, p) {
      ParentsResolve(commits, idx, i, p);
    }
    var parentLanes;
    parentLanes, active, laneOf' := PlaceParents(commits, idx, i, lane, placed, laneOf1);
    row := RowInfo(lane, lanesBefore, parentLanes);
    AdvanceDrawn(commits, idx, i, laneOf, rows, row, laneOf1, active, laneOf');
  }

  /** A finished list of lanes, read as the lane of each row. */
  ghost function LaneMap(commitLane: seq<int>): (m: map<nat, nat>)
    requires forall i :: 0 <= i < |commitLane| ==> commitLane[i] >= 0
    ensures forall r: nat :: r in m <==> r < |commitLane|
    ensures forall r: nat :: r in m ==> m[r] == commitLane[r]
  {
    map r: nat | r < |commitLane| :: commitLane[r]
  }

  /** What the fallback adds to the shared contract. */
  ghost predicate FallbackGuarantee(commits: seq<Commit>, layout: Layout) {
    && Meets(commits, layout)
    && ConflictFree(commits, layout.commitLane)
    && (commits != [] ==> layout.laneCount == Width(commits, |commits|))
    && RowsFit(commits, layout)
  }

  ghost predicate RowsFit(commits: seq<Commit>, layout: Layout)
    requires |layout.commitLane| == |layout.rowDrawInfo| == |commits|
    requires forall i :: 0 <= i < |layout.commitLane| ==> layout.commitLane[i] >= 0
  {
    forall i :: 0 <= i < |commits| ==>
      BusyLanesComplete(commits, layout, i) && FirstFit(commits, layout.idx, i, LaneMap(layout.commitLane))
  }

  /** A row settled under the final lanes satisfies the row clauses of the contract. */
  lemma RowMeets(commits: seq<Commit>, layout: Layout, i: nat)
    requires |layout.commitLane| == |layout.rowDrawInfo| == |commits| && i < |commits|
    requires IsLookup(Hashes(commits), layout.idx)
    requires forall k :: 0 <= k < |layout.commitLane| ==> layout.commitLane[k] >= 0
    requires RowDone(commits, layout.idx, i, layout.rowDrawInfo[i], LaneMap(layout.commitLane))
    ensures RowAgrees(commits, layout, i)
    ensures BusyLanesSound(commits, layout, i)
    ensures BusyLanesComplete(commits, layout, i)
  {
    var before, laneOf := layout.rowDrawInfo[i].lanesBefore, LaneMap(layout.commitLane);
    forall l: nat | l < |before| && before[l].Some?
      ensures exists r :: r in Pending(commits, i) && before[l] == Some(commits[r].hash) && layout.commitLane[r] == l
    {
      assert LaneTaken(Pending(commits, i), laneOf, l);
    }
  }

  lemma AllApart(commits: seq<Commit>, idx: map<Hash, nat>, rows: seq<RowInfo>, commitLane: seq<int>)
    requires |rows| == |commits| == |commitLane|
    requires forall k :: 0 <= k < |commitLane| ==> commitLane[k] >= 0
    requires AllDone(commits, idx, rows, LaneMap(commitLane))
    ensures ConflictFree(commits, commitLane)
  {
    forall i, a, b |
      0 <= i < |commits| && a in Occupants(commits, i) && b in Occupants(commits, i) && a != b
      ensures commitLane[a] != commitLane[b]
    {
      assert RowDone(commits, idx, i, rows[i], LaneMap(commitLane));
    }
  }

  /** `lanes` lists the lanes of the first rows. */
  ghost predicate Recorded(lanes: seq<int>, laneOf: map<nat, nat>) {
    forall k :: 0 <= k < |lanes| ==> k in laneOf && lanes[k] == laneOf[k]
  }

  lemma RecordLane(lanes: seq<int>, lane: int, before: map<nat, nat>, after: map<nat, nat>)
    requires Recorded(lanes, before) && Extends(before, after)
    requires |lanes| in after && after[|lanes|] == lane
    ensures Recorded(lanes + [lane], after)
  {
  }

  /** After the last row the recorded lanes are all there is. */
  lemma LanesAreFinal(commits: seq<Commit>, idx: map<Hash, nat>, active: Lanes, laneOf: map<nat, nat>,
                      rows: seq<RowInfo>, commitLane: seq<int>)
    requires |commitLane| == |commits| && Recorded(commitLane, laneOf)
    requires Drawn(commits, idx, |commits|, active, laneOf, rows)
    ensures forall k :: 0 <= k < |commitLane| ==> 0 <= commitLane[k] < |active|
    ensures AllDone(commits, idx, rows, LaneMap(commitLane))
    ensures |active| > 0 ==> |active| - 1 in commitLane
  {
    assert forall r :: r in laneOf ==> r < |commits|;
    SameLanesDone(commits, idx, rows, laneOf, LaneMap(commitLane));
    if |active| > 0 {
      var r :| r in laneOf.Keys && r in laneOf && laneOf[r] == |active| - 1;
      assert commitLane[r] == |active| - 1;
    }
  }

  lemma AllRowsMeet(commits: seq<Commit>, layout: Layout)
    requires |layout.commitLane| == |layout.rowDrawInfo| == |commits|
    requires IsLookup(Hashes(commits), layout.idx)
    requires forall k :: 0 <= k < |layout.commitLane| ==> layout.commitLane[k] >= 0
    requires AllDone(commits, layout.idx, layout.rowDrawInfo, LaneMap(layout.commitLane))
    ensures RowsMeet(commits, layout) && RowsFit(commits, layout)
  {
    forall i | 0 <= i < |commits|
      ensures RowAgrees(commits, layout, i) && BusyLanesSound(commits, layout, i)
      ensures BusyLanesComplete(commits, layout, i)
      ensures FirstFit(commits, layout.idx, i, LaneMap(layout.commitLane))
    {
      RowMeets(commits, layout, i);
    }
  }

  lemma SameLanesDone(commits: seq<Commit>, idx: map<Hash, nat>, rows: seq<RowInfo>,
                      laneOf: map<nat, nat>, lanes: map<nat, nat>)
    requires AllDone(commits, idx, rows, laneOf) && laneOf == lanes
    ensures AllDone(commits, idx, rows, lanes)
  {
  }

  /** The state after the last row is a layout with the fallback's guarantee. */
  lemma PassIsComplete(commits: seq<Commit>, layout: Layout, active: Lanes, laneOf: map<nat, nat>)
    requires IsLookup(Hashes(commits), layout.idx)
    requires |layout.commitLane| == |commits| && Recorded(layout.commitLane, laneOf)
    requires Drawn(commits, layout.idx, |commits|, active, laneOf, layout.rowDrawInfo)
    requires WithinWidth(commits, |active|)
    requires |commits| > 0 ==> |active| > 0
    requires layout.laneCount == Max(|active| - 1, 0) + 1
    ensures FallbackGuarantee(commits, layout)
  {
    LanesAreFinal(commits, layout.idx, active, laneOf, layout.rowDrawInfo, layout.commitLane);
    LayoutIsGuaranteed(commits, layout, |active|);
  }

  lemma LayoutIsGuaranteed(commits: seq<Commit>, layout: Layout, lanes: nat)
    requires IsLookup(Hashes(commits), layout.idx)
    requires |layout.commitLane| == |layout.rowDrawInfo| == |commits|
    requires forall k :: 0 <= k < |layout.commitLane| ==> 0 <= layout.commitLane[k] < lanes
    requires AllDone(commits, layout.idx, layout.rowDrawInfo, LaneMap(layout.commitLane))
    requires lanes > 0 ==> lanes - 1 in layout.commitLane
    requires WithinWidth(commits, lanes)
    requires layout.laneCount == Max(lanes - 1, 0) + 1
    ensures FallbackGuarantee(commits, layout)
  {
    AllRowsMeet(commits, layout);
    AllApart(commits, layout.idx, layout.rowDrawInfo, layout.commitLane);
    CountIsWidth(commits, layout.commitLane, lanes);
  }

  /** As many lanes as were opened are needed somewhere. */
  lemma CountIsWidth(commits: seq<Commit>, commitLane: seq<int>, lanes: nat)
    requires ConflictFree(commits, commitLane)
    requires forall k :: 0 <= k < |commitLane| ==> 0 <= commitLane[k] < lanes
    requires lanes > 0 ==> lanes - 1 in commitLane
    requires WithinWidth(commits, lanes)
    ensures lanes == Width(commits, |commits|)
    ensures CountsLanes(commitLane, Max(lanes - 1, 0) + 1)
    ensures |commits| > 0 ==> lanes > 0
  {
    WidthIsLowerBound(commits, commitLane, lanes);
    assert |commits| > 0 ==> 0 <= commitLane[0] < lanes;
  }

  method ComputeFallbackLayout(commits: seq<Commit>) returns (layout: Layout)
    requires History(commits)
    ensures FallbackGuarantee(commits, layout)
  {
    var idx := BuildLookup(Hashes(commits));
    var commitLane := new int[|commits|];
    var rowDrawInfo, maxLane; ghost var active, laneOf;
    rowDrawInfo, maxLane, active, laneOf := FillLanes(commits, idx, commitLane);
    layout := Layout(commitLane[..], maxLane + 1, idx, rowDrawInfo);
    PassIsComplete(commits, layout, active, laneOf);
  }

  /** The state of the pass before row `i`, with the lanes recorded so far and the highest of them. */
  ghost predicate Filled(commits: seq<Commit>, idx: map<Hash, nat>, i: nat, active: Lanes, laneOf: map<nat, nat>,
                         rows: seq<RowInfo>, maxLane: int, lanes: seq<int>)
  {
    && Drawn(commits, idx, i, active, laneOf, rows)
    && WithinWidth(commits, |active|) && (i > 0 ==> |active| > 0)
    && maxLane == Max(|active| - 1, 0)
    && |lanes| == i && Recorded(lanes, laneOf)
  }

  lemma FilledStep(commits: seq<Commit>, idx: map<Hash, nat>, i: nat, before: Lanes, laneOf: map<nat, nat>,
                   rows: seq<RowInfo>, maxLane: int, lanes: seq<int>,
                   row: RowInfo, active: Lanes, laneOf': map<nat, nat>)
    requires i < |commits| && Filled(commits, idx, i, before, laneOf, rows, maxLane, lanes)
    requires Extends(laneOf, laneOf') && i in laneOf' && laneOf'[i] == row.lane
    requires Drawn(commits, idx, i + 1, active, laneOf', rows + [row])
    requires |before| <= |active| && WithinWidth(commits, |active|) && 0 < |active|
    requires 0 <= row.lane < |active| && MaxLane(row.parentLanes) < |active|
    requires |active| > |before| ==> row.lane == |active| - 1 || MaxLane(row.parentLanes) == |active| - 1
    ensures Filled(commits, idx, i + 1, active, laneOf', rows + [row],
                   Max(Max(maxLane, row.lane), MaxLane(row.parentLanes)), lanes + [row.lane])
  {
    RecordLane(lanes, row.lane, laneOf, laneOf');
  }

  /** Draws row `i` and keeps track of the highest lane. */
  method FillRow(commits: seq<Commit>, idx: map<Hash, nat>, i: nat, before: Lanes, ghost laneOf: map<nat, nat>,
                 ghost rows: seq<RowInfo>, maxBefore: int, ghost lanes: seq<int>)
    returns (row: RowInfo, active: Lanes, maxLane: int, ghost laneOf': map<nat, nat>)
    requires History(commits) && IsLookup(Hashes(commits), idx) && i < |commits|
    requires Filled(commits, idx, i, before, laneOf, rows, maxBefore, lanes)
    ensures Filled(commits, idx, i + 1, active, laneOf', rows + [row], maxLane, lanes + [row.lane])
  {
    row, active, laneOf' := DrawRow(commits, idx, i, before, laneOf, rows);
    FilledStep(commits, idx, i, before, laneOf, rows, maxBefore, lanes, row, active, laneOf');
    maxLane := Max(Max(maxBefore, row.lane), MaxLane(row.parentLanes));
  }

  /** The pass over all rows: fills in the lane of each and records how it is drawn. */
  method FillLanes(commits: seq<Commit>, idx: map<Hash, nat>, commitLane: array<int>)
    returns (rowDrawInfo: seq<RowInfo>, maxLane: int, ghost active: Lanes, ghost laneOf: map<nat, nat>)
    requires History(commits) && IsLookup(Hashes(commits), idx) && commitLane.Length == |commits|
    modifies commitLane
    ensures Drawn(commits, idx, |commits|, active, laneOf, rowDrawInfo)
    ensures Recorded(commitLane[..], laneOf)
    ensures WithinWidth(commits, |active|) && (|commits| > 0 ==> |active| > 0)
    ensures maxLane == Max(|active| - 1, 0)
  {
    rowDrawInfo, maxLane, laneOf := [], 0, map[];
    var activeLanes: Lanes := [];
    ghost var lanes: seq<int> := [];
    for i := 0 to |commits|
      invariant Filled(commits, idx, i, activeLanes, laneOf, rowDrawInfo, maxLane, lanes)
      invariant commitLane[..i] == lanes
    {
      var row;
      row, activeLanes, maxLane, laneOf := FillRow(commits, idx, i, activeLanes, laneOf, rowDrawInfo, maxLane, lanes);
      commitLane[i] := row.lane;
      lanes := lanes + [row.lane];
      rowDrawInfo := rowDrawInfo + [row];
    }
    active := activeLanes;
    assert commitLane[..] == lanes;
  }

  function Max(a: int, b: int): int {
    if a >= b then a else b
  }
}
