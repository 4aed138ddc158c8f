/**
 * Replaying lanes that were chosen beforehand: which lanes are busy above each row
 * when every row clears its own lane and then marks the lanes of its parents.
 */
module LaneDrawing {
  import opened Wrappers
  import opened CommitGraph
  import opened LaneLayout

  /** A lane for each row. */
  ghost predicate LanesFor(commits: seq<Commit>, lanes: seq<int>) {
    |lanes| == |commits| && forall r :: 0 <= r < |lanes| ==> lanes[r] >= 0
  }

  function Widen(active: Lanes, length: nat): (wide: Lanes)
    ensures |wide| == if |active| < length then length else |active|
    ensures forall l :: 0 <= l < |wide| ==> wide[l] == if l < |active| then active[l] else None
    decreases length - |active|
  {
    if |active| < length then Widen(active + [None], length) else active
  }

  /** Writes one lane, adding empty lanes in front of it where needed. */
  function Put(active: Lanes, lane: nat, what: Option<Hash>): (after: Lanes)
    ensures |active| <= |after| && lane < |after|
    ensures forall l :: 0 <= l < |after| ==>
      after[l] == if l == lane then what else if l < |active| then active[l] else None
  {
    Widen(active, lane + 1)[lane := what]
  }

  /** Marks the lanes of the first `q` rows of `parents`. */
  function MarkParents(commits: seq<Commit>, lanes: seq<int>, active: Lanes, parents: seq<nat>, q: nat): Lanes
    requires LanesFor(commits, lanes) && q <= |parents|
    requires forall r :: r in parents ==> r < |commits|
  {
    if q == 0 then active
    else
      var r := parents[q - 1];
      assert r in parents;
      Put(MarkParents(commits, lanes, active, parents, q - 1), lanes[r], Some(commits[r].hash))
  }

  /** Marking a prefix does not look at what follows it. */
  lemma {:induction false} MarkParentsPrefix(commits: seq<Commit>, lanes: seq<int>, active: Lanes,
                                             parents: seq<nat>, r: nat, q: nat)
    requires LanesFor(commits, lanes) && q <= |parents| && r < |commits|
    requires forall p :: p in parents ==> p < |commits|
    ensures MarkParents(commits, lanes, active, parents + [r], q) == MarkParents(commits, lanes, active, parents, q)
  {
    if q > 0 {
      MarkParentsPrefix(commits, lanes, active, parents, r, q - 1);
    }
  }

  /** Marking one more parent writes its lane last. */
  lemma MarkOneMore(commits: seq<Commit>, lanes: seq<int>, active: Lanes, parents: seq<nat>, r: nat)
    requires LanesFor(commits, lanes) && r < |commits|
    requires forall p :: p in parents ==> p < |commits|
    ensures MarkParents(commits, lanes, active, parents + [r], |parents| + 1)
         == Put(MarkParents(commits, lanes, active, parents, |parents|), lanes[r], Some(commits[r].hash))
  {
    MarkParentsPrefix(commits, lanes, active, parents, r, |parents|);
  }

  /** The parents of every row are rows of the list. */
  ghost predicate ParentsListed(commits: seq<Commit>, parents: seq<seq<nat>>) {
    && |parents| == |commits|
    && forall i, r :: 0 <= i < |parents| && r in parents[i] ==> r < |commits|
  }

  /** The lanes busy above row `i`. */
  function LanesBefore(commits: seq<Commit>, parents: seq<seq<nat>>, lanes: seq<int>, i: nat): Lanes
    requires LanesFor(commits, lanes) && ParentsListed(commits, parents) && i <= |commits|
  {
    if i == 0 then []
    else
      var cleared := Put(LanesBefore(commits, parents, lanes, i - 1), lanes[i - 1], None);
      MarkParents(commits, lanes, cleared, parents[i - 1], |parents[i - 1]|)
  }

  /** `parents` lists, for each row, exactly the rows it links to. */
  ghost predicate ParentsOf(commits: seq<Commit>, parents: seq<seq<nat>>) {
    && ParentsListed(commits, parents)
    && forall i, r: nat :: 0 <= i < |commits| ==> (r in parents[i] <==> Link(commits, i, r))
  }

  /** Row `r` is shown on its own lane. */
  ghost predicate Shown(commits: seq<Commit>, lanes: seq<int>, active: Lanes, r: nat)
    requires LanesFor(commits, lanes) && r < |commits|
  {
    lanes[r] < |active| && active[lanes[r]] == Some(commits[r].hash)
  }

  /** Only rows of `open` are shown, each on its own lane. */
  ghost predicate OnlyShows(commits: seq<Commit>, lanes: seq<int>, active: Lanes, open: set<nat>)
    requires LanesFor(commits, lanes)
  {
    forall l :: 0 <= l < |active| && active[l].Some? ==> Shows(commits, lanes, active[l], l, open)
  }

  ghost predicate Shows(commits: seq<Commit>, lanes: seq<int>, what: Option<Hash>, l: nat, open: set<nat>)
    requires LanesFor(commits, lanes)
  {
    exists r :: r in open && r < |commits| && what == Some(commits[r].hash) && lanes[r] == l
  }

  lemma PendingStep(commits: seq<Commit>, i: nat, r: nat)
    requires i < |commits| && Topological(commits)
    ensures r in Pending(commits, i + 1) <==> (r in Pending(commits, i) && r != i) || Link(commits, i, r)
  {
    if r in Pending(commits, i + 1) && !Link(commits, i, r) {
      var child :| 0 <= child < i + 1 && Link(commits, child, r);
      assert Awaited(commits, i, r);
    }
    if r in Pending(commits, i) {
      var child :| 0 <= child < i && Link(commits, child, r);
      assert Awaited(commits, i + 1, r);
    }
    if Link(commits, i, r) {
      assert Awaited(commits, i + 1, r);
    }
  }

  /** Marking parents shows nothing but those parents. */
  lemma {:induction false} MarksOnly(commits: seq<Commit>, lanes: seq<int>, active: Lanes, parents: seq<nat>, q: nat,
                                     open: set<nat>)
    requires LanesFor(commits, lanes) && q <= |parents|
    requires forall r :: r in parents ==> r < |commits| && r in open
    requires OnlyShows(commits, lanes, active, open)
    ensures OnlyShows(commits, lanes, MarkParents(commits, lanes, active, parents, q), open)
  {
    if q > 0 {
      MarksOnly(commits, lanes, active, parents, q - 1, open);
      var before := MarkParents(commits, lanes, active, parents, q - 1);
      var after := MarkParents(commits, lanes, active, parents, q);
      var r := parents[q - 1];
      assert r in parents;
      forall l: nat | l < |after| && after[l].Some? ensures Shows(commits, lanes, after[l], l, open) {
        if l == lanes[r] {
          assert r in open;
        } else {
          assert Shows(commits, lanes, before[l], l, open);
        }
      }
    }
  }

  /** Whatever lanes the rows have, a busy lane always belongs to a pending row that lands on it. */
  lemma {:induction false} BusyLanesBelong(commits: seq<Commit>, parents: seq<seq<nat>>, lanes: seq<int>, i: nat)
    requires History(commits) && LanesFor(commits, lanes) && ParentsOf(commits, parents) && i <= |commits|
    ensures OnlyShows(commits, lanes, LanesBefore(commits, parents, lanes, i), Pending(commits, i))
  {
    if i > 0 {
      BusyLanesBelong(commits, parents, lanes, i - 1);
      var before := LanesBefore(commits, parents, lanes, i - 1);
      var cleared := Put(before, lanes[i - 1], None);
      var open, open' := Pending(commits, i - 1), Pending(commits, i);
      forall l: nat | l < |cleared| && cleared[l].Some? ensures Shows(commits, lanes, cleared[l], l, open') {
        assert Shows(commits, lanes, before[l], l, open);
        var r :| r in open && r < |commits| && before[l] == Some(commits[r].hash) && lanes[r] == l;
        PendingStep(commits, i - 1, r);
      }
      forall r | r in parents[i - 1] ensures r in open' {
        PendingStep(commits, i - 1, r);
      }
      MarksOnly(commits, lanes, cleared, parents[i - 1], |parents[i - 1]|, open');
    }
  }

  // ---------- when every pending commit is shown ----------

  ghost predicate ShowsAll(commits: seq<Commit>, lanes: seq<int>, active: Lanes, open: set<nat>)
    requires LanesFor(commits, lanes)
  {
    forall r :: r in open ==> r < |commits| && Shown(commits, lanes, active, r)
  }

  /**
   * Drawing row `i` hides nobody: rows pending below it have different lanes, and no
   * pending row other than its own parents stands on its lane.
   */
  ghost predicate HidesNobody(commits: seq<Commit>, lanes: seq<int>, i: nat)
    requires LanesFor(commits, lanes) && i < |commits|
  {
    && (forall a, b :: a in Pending(commits, i + 1) && b in Pending(commits, i + 1) && a != b ==> lanes[a] != lanes[b])
    && (forall r :: r in Pending(commits, i) && r != i && !Link(commits, i, r) ==> lanes[r] != lanes[i])
  }

  /** A row no marked parent collides with is shown if it was shown or is one of them. */
  lemma {:induction false} MarksKeep(commits: seq<Commit>, lanes: seq<int>, active: Lanes, parents: seq<nat>, q: nat,
                                     r: nat)
    requires LanesFor(commits, lanes) && q <= |parents| && r < |commits|
    requires forall p :: p in parents ==> p < |commits| && (p == r || lanes[p] != lanes[r])
    requires Shown(commits, lanes, active, r) || exists k :: 0 <= k < q && parents[k] == r
    ensures Shown(commits, lanes, MarkParents(commits, lanes, active, parents, q), r)
  {
    if q > 0 && parents[q - 1] != r {
      assert parents[q - 1] in parents;
      MarksKeep(commits, lanes, active, parents, q - 1, r);
    }
  }

  /** Marking other rows never makes a hidden row appear. */
  lemma {:induction false} MarksHide(commits: seq<Commit>, lanes: seq<int>, active: Lanes, parents: seq<nat>, q: nat,
                                     r: nat)
    requires Distinct(Hashes(commits)) && LanesFor(commits, lanes) && q <= |parents| && r < |commits|
    requires forall p :: p in parents ==> p < |commits|
    requires r !in parents && !Shown(commits, lanes, active, r)
    ensures !Shown(commits, lanes, MarkParents(commits, lanes, active, parents, q), r)
  {
    if q > 0 {
      MarksHide(commits, lanes, active, parents, q - 1, r);
      assert parents[q - 1] in parents;
      if commits[parents[q - 1]].hash == commits[r].hash {
        SameHashSameRow(commits, parents[q - 1], r);
      }
    }
  }

  /** Drawing one row of a complete picture leaves it complete exactly when the row hides nobody. */
  lemma ShowsAllStep(commits: seq<Commit>, parents: seq<seq<nat>>, lanes: seq<int>, i: nat)
    requires History(commits) && LanesFor(commits, lanes) && ParentsOf(commits, parents) && i < |commits|
    requires ShowsAll(commits, lanes, LanesBefore(commits, parents, lanes, i), Pending(commits, i))
    ensures ShowsAll(commits, lanes, LanesBefore(commits, parents, lanes, i + 1), Pending(commits, i + 1))
       <==> HidesNobody(commits, lanes, i)
  {
    var before := LanesBefore(commits, parents, lanes, i);
    var cleared := Put(before, lanes[i], None);
    var after := LanesBefore(commits, parents, lanes, i + 1);
    if HidesNobody(commits, lanes, i) {
      forall r | r in Pending(commits, i + 1) ensures Shown(commits, lanes, after, r) {
        PendingStep(commits, i, r);
        forall p | p in parents[i] ensures p == r || lanes[p] != lanes[r] {
          PendingStep(commits, i, p);
        }
        MarksKeep(commits, lanes, cleared, parents[i], |parents[i]|, r);
      }
    }
    if ShowsAll(commits, lanes, after, Pending(commits, i + 1)) {
      forall a, b | a in Pending(commits, i + 1) && b in Pending(commits, i + 1) && a != b
        ensures lanes[a] != lanes[b]
      {
        if lanes[a] == lanes[b] {
          SameHashSameRow(commits, a, b);
        }
      }
      forall r | r in Pending(commits, i) && r != i && !Link(commits, i, r) ensures lanes[r] != lanes[i] {
        PendingStep(commits, i, r);
        if lanes[r] == lanes[i] {
          MarksHide(commits, lanes, cleared, parents[i], |parents[i]|, r);
        }
      }
    }
  }

  /** Above row `i` every pending commit is shown on its lane. */
  ghost predicate CompleteAt(commits: seq<Commit>, parents: seq<seq<nat>>, lanes: seq<int>, i: nat)
    requires LanesFor(commits, lanes) && ParentsListed(commits, parents) && i <= |commits|
  {
    ShowsAll(commits, lanes, LanesBefore(commits, parents, lanes, i), Pending(commits, i))
  }

  ghost predicate CompleteThrough(commits: seq<Commit>, parents: seq<seq<nat>>, lanes: seq<int>, n: nat)
    requires LanesFor(commits, lanes) && ParentsListed(commits, parents) && n <= |commits|
  {
    forall i {:trigger CompleteAt(commits, parents, lanes, i)} :: 0 <= i <= n ==> CompleteAt(commits, parents, lanes, i)
  }

  ghost predicate NobodyHidden(commits: seq<Commit>, lanes: seq<int>, n: nat)
    requires LanesFor(commits, lanes) && n <= |commits|
  {
    forall i {:trigger HidesNobody(commits, lanes, i)} :: 0 <= i < n ==> HidesNobody(commits, lanes, i)
  }

  /** Every pending commit is shown above every row if and only if no row hides anybody. */
  lemma {:induction false} AllShownIffNobodyHidden(commits: seq<Commit>, parents: seq<seq<nat>>, lanes: seq<int>,
                                                   n: nat)
    requires History(commits) && LanesFor(commits, lanes) && ParentsOf(commits, parents) && n <= |commits|
    ensures CompleteThrough(commits, parents, lanes, n) <==> NobodyHidden(commits, lanes, n)
  {
    if n == 0 {
      CompleteAtTop(commits, parents, lanes);
    } else {
      AllShownIffNobodyHidden(commits, parents, lanes, n - 1);
      if CompleteAt(commits, parents, lanes, n - 1) {
        ShowsAllStep(commits, parents, lanes, n - 1);
      }
      CompleteThroughStep(commits, parents, lanes, n);
      NobodyHiddenStep(commits, lanes, n);
    }
  }

  /** Above the first row there is nothing to show. */
  lemma CompleteAtTop(commits: seq<Commit>, parents: seq<seq<nat>>, lanes: seq<int>)
    requires History(commits) && LanesFor(commits, lanes) && ParentsOf(commits, parents)
    ensures CompleteThrough(commits, parents, lanes, 0)
  {
    assert Pending(commits, 0) == {};
  }

  lemma CompleteThroughStep(commits: seq<Commit>, parents: seq<seq<nat>>, lanes: seq<int>, n: nat)
    requires History(commits) && LanesFor(commits, lanes) && ParentsOf(commits, parents) && 0 < n <= |commits|
    ensures CompleteThrough(commits, parents, lanes, n)
        <==> CompleteThrough(commits, parents, lanes, n - 1) && CompleteAt(commits, parents, lanes, n)
  {
  }

  lemma NobodyHiddenStep(commits: seq<Commit>, lanes: seq<int>, n: nat)
    requires LanesFor(commits, lanes) && 0 < n <= |commits|
    ensures NobodyHidden(commits, lanes, n) <==>
        NobodyHidden(commits, lanes, n - 1) && HidesNobody(commits, lanes, n - 1)
  {
  }

  lemma ConflictFreeHidesNobody(commits: seq<Commit>, lanes: seq<int>, i: nat)
    requires Topological(commits) && LanesFor(commits, lanes) && ConflictFree(commits, lanes) && i < |commits|
    ensures HidesNobody(commits, lanes, i)
  {
    if i + 1 == |commits| {
      assert Pending(commits, i + 1) == {};
    }
    forall r | r in Pending(commits, i) && r != i ensures lanes[r] != lanes[i] {
      assert r in Occupants(commits, i) && i in Occupants(commits, i);
    }
    forall a, b | a in Pending(commits, i + 1) && b in Pending(commits, i + 1) && a != b ensures lanes[a] != lanes[b] {
      assert a in Occupants(commits, i + 1) && b in Occupants(commits, i + 1);
    }
  }
}
