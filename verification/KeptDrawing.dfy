/** What can be told about a kept drawing from the commits alone. */
module KeptDrawing {
  import opened Wrappers
  import opened CommitGraph
  import opened LaneLayout
  import opened LaneDrawing
  import opened GraphLayout
  import PathModel
  import PathProofs
  import PathColumns
  import PathLines

  // ---------- the lanes of a kept drawing ----------

  /** For each commit the number of older lines that take a point on its row. */
  ghost function LineLanes(commits: seq<Commit>, idx: map<Hash, nat>, firstOnly: bool): (lanes: seq<int>)
    ensures |lanes| == |commits|
  {
    var g := GraphOf(commits, idx, firstOnly);
    seq(|g|, k requires 0 <= k < |g| => PathLines.PointOf(g, PathLines.LinesTo(g, |g|), k))
  }

  lemma SolverLanesAreLineLanes(commits: seq<Commit>, idx: map<Hash, nat>, firstOnly: bool)
    requires History(commits) && IsLookup(Hashes(commits), idx)
    ensures var g := GraphOf(commits, idx, firstOnly);
            PathModel.WellFormed(g) && Columns(PathProofs.Solved(g)) == LineLanes(commits, idx, firstOnly)
  {
    var g := GraphOf(commits, idx, firstOnly);
    GraphIsWellFormed(commits, idx, firstOnly);
    forall k | 0 <= k < |g| ensures Columns(PathProofs.Solved(g))[k] == LineLanes(commits, idx, firstOnly)[k] {
      PathLines.SolvedPoints(g, k);
    }
  }

  /**
   * Which drawing is kept, where its commits are, and whether it shows every awaited
   * commit: all of it is settled by the lines of the commits before anything is solved.
   */
  lemma KeptIsCompleteIff(commits: seq<Commit>, firstOnly: bool, layout: Layout)
    requires History(commits) && Meets(commits, layout)
    ensures var lanes := LineLanes(commits, layout.idx, firstOnly);
      && (SolverTooWide(commits, firstOnly, layout.idx) <==>
           |commits| >= 12 && exists k :: 0 <= k < |commits| && 2 * (lanes[k] + 1) > |commits| + 1)
      && (SolverKept(commits, firstOnly, layout) ==>
           && layout.commitLane == lanes && LanesFor(commits, lanes)
           && (BusyLanesAllComplete(commits, layout) <==> NobodyHidden(commits, lanes, |commits|)))
  {
    SolverLanesAreLineLanes(commits, layout.idx, firstOnly);
    if SolverKept(commits, firstOnly, layout) {
      CompleteIffNobodyHidden(commits, layout);
    }
  }

  // ---------- histories that are drawn completely ----------

  /** Parent number `p` of row `c` and parent number `q` of row `d` are the same listed commit. */
  predicate SameParent(commits: seq<Commit>, c: nat, p: nat, d: nat, q: nat) {
    && c < |commits| && p < |commits[c].parents| && d < |commits| && q < |commits[d].parents|
    && commits[c].parents[p] == commits[d].parents[q] && commits[c].parents[p] in Hashes(commits)
  }

  /** No commit has two children. */
  ghost predicate Unforked(commits: seq<Commit>) {
    forall c: nat, p: nat, d: nat, q: nat {:trigger SameParent(commits, c, p, d, q)} ::
      SameParent(commits, c, p, d, q) ==> c == d && p == q
  }

  /** Every commit with a child has a parent, listed or not. */
  ghost predicate Continued(commits: seq<Commit>) {
    forall c, r {:trigger Link(commits, c, r)} :: Link(commits, c, r) ==> commits[r].parents != []
  }

  /** Where a listed target comes from. */
  lemma {:induction false} TargetOrigin(idx: map<Hash, nat>, parents: seq<Hash>, firstOnly: bool, n: nat, i: nat)
    returns (p: nat)
    requires n <= |parents| && i < |Targets(idx, parents, firstOnly, n)| && Targets(idx, parents, firstOnly, n)[i].Row?
    ensures p < n && parents[p] in idx && Targets(idx, parents, firstOnly, n)[i].row == idx[parents[p]]
  {
    if i < |Targets(idx, parents, firstOnly, n - 1)| {
      p := TargetOrigin(idx, parents, firstOnly, n - 1, i);
    } else {
      p := n - 1;
    }
  }

  /** Different targets come from different parents. */
  lemma {:induction false} TargetOrigins(idx: map<Hash, nat>, parents: seq<Hash>, firstOnly: bool, n: nat, i: nat,
                                         j: nat)
    returns (p: nat, q: nat)
    requires n <= |parents| && i < j < |Targets(idx, parents, firstOnly, n)|
    requires Targets(idx, parents, firstOnly, n)[i].Row? && Targets(idx, parents, firstOnly, n)[j].Row?
    ensures p < q < n && parents[p] in idx && parents[q] in idx
    ensures Targets(idx, parents, firstOnly, n)[i].row == idx[parents[p]]
    ensures Targets(idx, parents, firstOnly, n)[j].row == idx[parents[q]]
  {
    if j < |Targets(idx, parents, firstOnly, n - 1)| {
      p, q := TargetOrigins(idx, parents, firstOnly, n - 1, i, j);
    } else {
      p := TargetOrigin(idx, parents, firstOnly, n - 1, i);
      q := n - 1;
    }
  }

  lemma SameRowSameParent(commits: seq<Commit>, idx: map<Hash, nat>, c: nat, p: nat, d: nat, q: nat)
    requires IsLookup(Hashes(commits), idx) && c < |commits| && d < |commits|
    requires p < |commits[c].parents| && q < |commits[d].parents|
    requires commits[c].parents[p] in idx && commits[d].parents[q] in idx
    requires idx[commits[c].parents[p]] == idx[commits[d].parents[q]]
    ensures SameParent(commits, c, p, d, q)
  {
    assert Hashes(commits)[idx[commits[c].parents[p]]] == commits[c].parents[p];
  }

  lemma UnforkedNamesOnce(commits: seq<Commit>, idx: map<Hash, nat>, firstOnly: bool)
    requires Unforked(commits) && IsLookup(Hashes(commits), idx)
    ensures PathColumns.NamedOnce(GraphOf(commits, idx, firstOnly))
  {
    var g := GraphOf(commits, idx, firstOnly);
    forall c: nat, p: nat, d: nat, q: nat, r: nat | PathColumns.Names(g, c, p, r) && PathColumns.Names(g, d, q, r)
      ensures c == d && p == q
    {
      if c == d && p != q {
        var u, v := TargetOrigins(idx, commits[c].parents, firstOnly, |commits[c].parents|,
                                  if p < q then p else q, if p < q then q else p);
        SameRowSameParent(commits, idx, c, u, c, v);
      } else {
        var u := TargetOrigin(idx, commits[c].parents, firstOnly, |commits[c].parents|, p);
        var v := TargetOrigin(idx, commits[d].parents, firstOnly, |commits[d].parents|, q);
        SameRowSameParent(commits, idx, c, u, d, v);
      }
    }
  }

  /** The first parent always leads somewhere. */
  lemma {:induction false} FirstTarget(idx: map<Hash, nat>, parents: seq<Hash>, firstOnly: bool, n: nat)
    requires 0 < n <= |parents|
    ensures Targets(idx, parents, firstOnly, n) != []
    ensures Targets(idx, parents, firstOnly, n)[0]
         == if parents[0] in idx then PathModel.Row(idx[parents[0]]) else PathModel.Outside
  {
    if n > 1 {
      FirstTarget(idx, parents, firstOnly, n - 1);
    }
  }

  lemma NamesIsLink(commits: seq<Commit>, idx: map<Hash, nat>, firstOnly: bool, c: nat, p: nat, r: nat)
    requires IsLookup(Hashes(commits), idx) && PathColumns.Names(GraphOf(commits, idx, firstOnly), c, p, r)
    ensures Link(commits, c, r)
  {
    var q := TargetOrigin(idx, commits[c].parents, firstOnly, |commits[c].parents|, p);
    assert Hashes(commits)[r] == commits[c].parents[q];
  }

  lemma ContinuedGoesOn(commits: seq<Commit>, idx: map<Hash, nat>, firstOnly: bool)
    requires Continued(commits) && IsLookup(Hashes(commits), idx)
    ensures PathColumns.NamedGoesOn(GraphOf(commits, idx, firstOnly))
  {
    var g := GraphOf(commits, idx, firstOnly);
    forall c: nat, p: nat, r: nat | PathColumns.Names(g, c, p, r) && r < |g| ensures g[r] != [] {
      NamesIsLink(commits, idx, firstOnly, c, p, r);
      FirstTarget(idx, commits[r].parents, firstOnly, |commits[r].parents|);
    }
  }

  lemma {:induction false} TargetAmong(targets: seq<PathModel.Target>, n: nat, r: nat) returns (p: nat)
    requires n <= |targets| && r in RowsAmong(targets, n)
    ensures p < n && targets[p] == PathModel.Row(r)
  {
    if targets[n - 1] == PathModel.Row(r) {
      p := n - 1;
    } else {
      p := TargetAmong(targets, n - 1, r);
    }
  }

  lemma LinkIsNamed(commits: seq<Commit>, idx: map<Hash, nat>, firstOnly: bool, c: nat, r: nat) returns (p: nat)
    requires History(commits) && IsLookup(Hashes(commits), idx) && Link(commits, c, r)
    ensures PathColumns.Names(GraphOf(commits, idx, firstOnly), c, p, r)
  {
    var parents := commits[c].parents;
    ParentRowsAreLinks(commits, idx, c, |parents|, r);
    TargetsAreParentRows(idx, parents, firstOnly, |parents|);
    var targets := Targets(idx, parents, firstOnly, |parents|);
    p := TargetAmong(targets, |targets|, r);
  }

  /**
   * Where no commit has two children and every commit with a child has a parent, a kept
   * drawing puts commits that are open together on different lanes and shows them all.
   */
  lemma UnforkedIsComplete(commits: seq<Commit>, firstOnly: bool, layout: Layout)
    requires History(commits) && Meets(commits, layout) && SolverKept(commits, firstOnly, layout)
    requires Unforked(commits) && Continued(commits)
    ensures ConflictFree(commits, layout.commitLane) && BusyLanesAllComplete(commits, layout)
  {
    var idx, lanes := layout.idx, layout.commitLane;
    var g := GraphOf(commits, idx, firstOnly);
    UnforkedNamesOnce(commits, idx, firstOnly);
    ContinuedGoesOn(commits, idx, firstOnly);
    forall i, a, b | 0 <= i < |commits| && a in Occupants(commits, i) && b in Occupants(commits, i) && a < b
      ensures lanes[a] != lanes[b]
    {
      var c :| 0 <= c < i && Link(commits, c, b);
      var p := LinkIsNamed(commits, idx, firstOnly, c, b);
      if lanes[a] == lanes[b] {
        PathColumns.ColumnsFollow(g, a, c, p, b);
      }
    }
    forall i | 0 <= i < |commits| ensures HidesNobody(commits, lanes, i) {
      ConflictFreeHidesNobody(commits, lanes, i);
    }
    CompleteIffNobodyHidden(commits, layout);
  }

  // ---------- histories that are not ----------

  /** Row `r` is reached from the first row by first parents. */
  ghost predicate OnMainLine(commits: seq<Commit>, r: nat)
    decreases r
  {
    r < |commits| && (r == 0 || exists c: nat {:trigger FirstParent(commits, c, r)} ::
      c < r && FirstParent(commits, c, r) && OnMainLine(commits, c))
  }

  predicate FirstParent(commits: seq<Commit>, c: nat, r: nat) {
    c < |commits| && r < |commits| && commits[c].parents != [] && commits[c].parents[0] == commits[r].hash
  }

  /** The main line stays on lane 0 from the first commit to the last. */
  lemma {:induction false} MainLineIsFirstLane(commits: seq<Commit>, idx: map<Hash, nat>, firstOnly: bool, r: nat)
    requires History(commits) && IsLookup(Hashes(commits), idx) && OnMainLine(commits, r)
    ensures LineLanes(commits, idx, firstOnly)[r] == 0
    ensures PathLines.LinesTo(GraphOf(commits, idx, firstOnly), |commits|)[r] == PathLines.Age(0, 0)
  {
    var g := GraphOf(commits, idx, firstOnly);
    var lines := PathLines.LinesTo(g, |g|);
    GraphIsWellFormed(commits, idx, firstOnly);
    PathLines.LinesAreLines(g);
    assert PathLines.LineRight(g, lines, r);
    if r > 0 {
      var c: nat :| c < r && FirstParent(commits, c, r) && OnMainLine(commits, c);
      MainLineIsFirstLane(commits, idx, firstOnly, c);
      LookupInverts(Hashes(commits), idx, r);
      FirstTarget(idx, commits[c].parents, firstOnly, |commits[c].parents|);
      assert PathColumns.Names(g, c, 0, r);
    }
  }

  /**
   * Whenever a commit of the main line has another child further up than the main
   * line's commit before it, a kept drawing is not complete: the two are awaited
   * together on one lane.
   */
  lemma ForkOfMainLineIsHidden(commits: seq<Commit>, firstOnly: bool, layout: Layout, c: nat, a: nat, b: nat)
    requires History(commits) && Meets(commits, layout) && SolverKept(commits, firstOnly, layout)
    requires OnMainLine(commits, a) && OnMainLine(commits, b) && c < a < b && Link(commits, c, b)
    ensures !BusyLanesAllComplete(commits, layout) && !ConflictFree(commits, layout.commitLane)
  {
    KeptIsCompleteIff(commits, firstOnly, layout);
    MainLineIsFirstLane(commits, layout.idx, firstOnly, a);
    MainLineIsFirstLane(commits, layout.idx, firstOnly, b);
    var d: nat :| d < a && FirstParent(commits, d, a);
    assert commits[d].parents[0] in commits[d].parents && Link(commits, d, a);
    assert Awaited(commits, a, a) && Awaited(commits, a, b);
    assert a in Pending(commits, a) && b in Pending(commits, a);
    assert a in Occupants(commits, a) && b in Occupants(commits, a);
    assert Hashes(commits)[a] != Hashes(commits)[b];
    assert !BusyLanesComplete(commits, layout, a);
  }

  /** A feature branch next to the main line, both from one commit, and no merge anywhere. */
  const FEATURE_BRANCH: seq<Commit> :=
    [Commit("m2", ["m1"]), Commit("f1", ["m0"]), Commit("m1", ["m0"]), Commit("m0", [])]

  lemma FeatureBranchIsHidden(firstOnly: bool, layout: Layout)
    requires Meets(FEATURE_BRANCH, layout) && SolverKept(FEATURE_BRANCH, firstOnly, layout)
    ensures !BusyLanesAllComplete(FEATURE_BRANCH, layout) && !ConflictFree(FEATURE_BRANCH, layout.commitLane)
  {
    FeatureBranchIsAHistory();
    FeatureMainLine();
    ForkOfMainLineIsHidden(FEATURE_BRANCH, firstOnly, layout, 1, 2, 3);
  }

  lemma FeatureMainLine()
    ensures OnMainLine(FEATURE_BRANCH, 2) && OnMainLine(FEATURE_BRANCH, 3) && Link(FEATURE_BRANCH, 1, 3)
  {
    var commits := FEATURE_BRANCH;
    assert FirstParent(commits, 0, 2) && FirstParent(commits, 2, 3);
    assert OnMainLine(commits, 0);
    assert OnMainLine(commits, 2);
    assert commits[1].parents[0] == "m0";
  }

  lemma FeatureBranchIsAHistory()
    ensures History(FEATURE_BRANCH)
  {
    var commits := FEATURE_BRANCH;
    assert Hashes(commits) == ["m2", "f1", "m1", "m0"];
    assert "m2"[1] == '2' && "f1"[0] == 'f' && "m1"[0] == 'm' && "m1"[1] == '1' && "m0"[1] == '0' && "m0"[0] == 'm';
    forall c, r | Link(commits, c, r) ensures c < r {
      assert c < 3 ==> commits[c].parents == [if c == 0 then "m1" else "m0"];
    }
  }
}
