/** The layout entry point: solve, draw, and fall back when the result is too wide. */
module GraphLayout {
  import opened Wrappers
  import opened CommitGraph
  import opened LaneLayout
  import opened LaneDrawing
  import opened PathSolver
  import FallbackLayout
  import PathModel
  import PathProofs

  // ---------- from commits to the solver's graph ----------

  /** What the first `p` parents lead to; with `firstOnly`, later unlisted parents are dropped. */
  function Targets(idx: map<Hash, nat>, parents: seq<Hash>, firstOnly: bool, p: nat): seq<PathModel.Target>
    requires p <= |parents|
  {
    if p == 0 then []
    else
      var front := Targets(idx, parents, firstOnly, p - 1);
      if parents[p - 1] in idx then front + [PathModel.Row(idx[parents[p - 1]])]
      else if !firstOnly || p == 1 then front + [PathModel.Outside]
      else front
  }

  function GraphOf(commits: seq<Commit>, idx: map<Hash, nat>, firstOnly: bool): (g: PathModel.Graph)
    ensures |g| == |commits|
  {
    seq(|commits|, i requires 0 <= i < |commits| =>
      Targets(idx, commits[i].parents, firstOnly, |commits[i].parents|))
  }

  /** The listed rows among the first `q` targets. */
  function RowsAmong(targets: seq<PathModel.Target>, q: nat): seq<nat>
    requires q <= |targets|
  {
    if q == 0 then []
    else RowsAmong(targets, q - 1) + (if targets[q - 1].Row? then [targets[q - 1].row] else [])
  }

  lemma {:induction false} RowsAmongAppend(targets: seq<PathModel.Target>, t: PathModel.Target, q: nat)
    requires q <= |targets|
    ensures RowsAmong(targets + [t], q) == RowsAmong(targets, q)
  {
    if q > 0 {
      RowsAmongAppend(targets, t, q - 1);
    }
  }

  /** Dropping the unlisted targets gives the parent rows, in order. */
  lemma {:induction false} TargetsAreParentRows(idx: map<Hash, nat>, parents: seq<Hash>, firstOnly: bool, p: nat)
    requires p <= |parents|
    ensures var ts := Targets(idx, parents, firstOnly, p); RowsAmong(ts, |ts|) == ParentRows(idx, parents, p)
  {
    if p > 0 {
      TargetsAreParentRows(idx, parents, firstOnly, p - 1);
      var front := Targets(idx, parents, firstOnly, p - 1);
      var ts := Targets(idx, parents, firstOnly, p);
      if |ts| > |front| {
        RowsAmongAppend(front, ts[|front|], |front|);
        assert ts == front + [ts[|front|]];
      }
    }
  }

  /**
   * Without the option every parent has its target. With it a parent that is not listed
   * counts only if it is the first.
   */
  lemma {:induction false} OutsideTargets(idx: map<Hash, nat>, parents: seq<Hash>, firstOnly: bool, p: nat)
    requires p <= |parents|
    ensures var ts := Targets(idx, parents, firstOnly, p);
      && (!firstOnly ==> |ts| == p && forall q :: 0 <= q < p ==> (ts[q] == PathModel.Outside <==> parents[q] !in idx))
      && (firstOnly ==> forall q :: 0 <= q < |ts| ==>
           (ts[q] == PathModel.Outside <==> q == 0 && parents[0] !in idx))
      && (p > 0 ==> ts != [])
  {
    if p > 0 {
      OutsideTargets(idx, parents, firstOnly, p - 1);
    }
  }

  lemma {:induction false} TargetsPointDown(commits: seq<Commit>, idx: map<Hash, nat>, firstOnly: bool, i: nat, p: nat)
    requires History(commits) && IsLookup(Hashes(commits), idx) && i < |commits| && p <= |commits[i].parents|
    ensures forall t :: t in Targets(idx, commits[i].parents, firstOnly, p) ==>
      t != PathModel.Nowhere && (t.Row? ==> i < t.row < |commits|)
  {
    if p > 0 {
      TargetsPointDown(commits, idx, firstOnly, i, p - 1);
      var h := commits[i].parents[p - 1];
      if h in idx {
        assert Link(commits, i, idx[h]);
      }
    }
  }

  lemma GraphIsWellFormed(commits: seq<Commit>, idx: map<Hash, nat>, firstOnly: bool)
    requires History(commits) && IsLookup(Hashes(commits), idx)
    ensures PathModel.WellFormed(GraphOf(commits, idx, firstOnly))
  {
    var g := GraphOf(commits, idx, firstOnly);
    forall i, p | 0 <= i < |g| && 0 <= p < |g[i]|
      ensures g[i][p] != PathModel.Nowhere && (g[i][p].Row? ==> i < g[i][p].row < |g|)
    {
      TargetsPointDown(commits, idx, firstOnly, i, |commits[i].parents|);
      assert g[i][p] in g[i];
    }
  }

  // ---------- building the vertices ----------

  ghost predicate Untouched(v: Vertex, id: int)
    reads v
  {
    v.id == id && v.Model() == PathModel.NEW_VERTEX
  }

  /** One vertex per commit; parents outside the list become `outside`. */
  method BuildVertices(commits: seq<Commit>, idx: map<Hash, nat>, firstOnly: bool)
    returns (vertices: seq<Vertex>, outside: Vertex)
    requires History(commits) && IsLookup(Hashes(commits), idx)
    ensures fresh(vertices)
    ensures Represents(vertices, outside, [], GraphOf(commits, idx, firstOnly),
        PathModel.Start(GraphOf(commits, idx, firstOnly)).rows)
  {
    outside := new Vertex(NULL_VERTEX_ID);
    vertices := [];
    for i := 0 to |commits|
      invariant |vertices| == i
      invariant forall k :: 0 <= k < i ==> fresh(vertices[k]) && Untouched(vertices[k], k) && vertices[k].parents == []
    {
      var v := new Vertex(i);
      vertices := vertices + [v];
    }
    ghost var g := GraphOf(commits, idx, firstOnly);
    for i := 0 to |commits|
      invariant forall k :: 0 <= k < |commits| ==> fresh(vertices[k]) && Untouched(vertices[k], k)
      invariant forall k :: 0 <= k < i ==> ParentsAre(vertices, outside, vertices[k].parents, g[k])
      invariant forall k :: i <= k < |commits| ==> vertices[k].parents == []
    {
      AddParents(commits, idx, firstOnly, vertices, outside, i);
    }
    forall k | 0 <= k < |g|
      ensures RowRep(vertices, outside, [], g, k, PathModel.Start(g).rows[k])
    {
      assert Untouched(vertices[k], k);
    }
  }

  /** Resolves the parents of commit `i`. */
  method AddParents(commits: seq<Commit>, idx: map<Hash, nat>, firstOnly: bool,
                    vertices: seq<Vertex>, outside: Vertex, i: nat)
    requires History(commits) && IsLookup(Hashes(commits), idx) && i < |commits| == |vertices|
    requires Placed(vertices, outside) && Untouched(vertices[i], i) && vertices[i].parents == []
    modifies vertices[i]
    ensures Untouched(vertices[i], i)
    ensures ParentsAre(vertices, outside, vertices[i].parents, GraphOf(commits, idx, firstOnly)[i])
  {
    var parents := commits[i].parents;
    for p := 0 to |parents|
      invariant Untouched(vertices[i], i)
      invariant ParentsAre(vertices, outside, vertices[i].parents, Targets(idx, parents, firstOnly, p))
    {
      if parents[p] in idx {
        vertices[i].AddParent(vertices[idx[parents[p]]]);
      } else if !firstOnly || p == 0 {
        vertices[i].AddParent(outside);
      }
    }
  }

  // ---------- the solver loop ----------

  /** Runs the solver on each row until that row is finished; always stops. */
  method DeterminePath(vertices: seq<Vertex>, outside: Vertex, ghost g: PathModel.Graph)
    returns (ghost known: seq<Branch>)
    requires PathModel.WellFormed(g)
    requires Represents(vertices, outside, [], g, PathModel.Start(g).rows)
    modifies vertices
    ensures Represents(vertices, outside, known, g, PathProofs.Solved(g))
  {
    known := [];
    ghost var w := PathModel.Start(g);
    PathProofs.StartOk(g);
    var idx := 0;
    while idx < |vertices|
      invariant idx <= |vertices|
      invariant PathProofs.Inv(g, w) && |known| == w.branches
      invariant Represents(vertices, outside, known, g, w.rows)
      invariant PathProofs.Solve(g, w, idx).rows == PathProofs.Solved(g)
      decreases PathProofs.Remaining(g, w.rows), |vertices| - idx
    {
      var v := vertices[idx];
      NextParentIs(vertices, outside, known, g, w.rows, idx);
      assert RowRep(vertices, outside, known, g, idx, w.rows[idx]);
      if v.GetNextParent() != null || v.IsNotOnBranch() {
        PathProofs.RunKeeps(g, w, idx);
        known := Run(vertices, outside, idx, known, g, w);
        w := PathModel.Run(g, w, idx);
      } else {
        idx := idx + 1;
      }
    }
  }

  // ---------- drawing ----------

  /** The in-list parent rows of every row. */
  function ParentLists(commits: seq<Commit>, idx: map<Hash, nat>): (lists: seq<seq<nat>>)
    ensures |lists| == |commits|
    ensures forall i :: 0 <= i < |lists| ==> lists[i] == AllParentRows(commits, idx, i)
  {
    seq(|commits|, i requires 0 <= i < |commits| => AllParentRows(commits, idx, i))
  }

  lemma ParentListsAreParents(commits: seq<Commit>, idx: map<Hash, nat>)
    requires History(commits) && IsLookup(Hashes(commits), idx)
    ensures ParentsOf(commits, ParentLists(commits, idx))
  {
    var lists := ParentLists(commits, idx);
    forall i, r: nat | 0 <= i < |commits| ensures r in lists[i] <==> Link(commits, i, r) {
      ParentRowsAreLinks(commits, idx, i, |commits[i].parents|, r);
    }
    forall i, r | 0 <= i < |lists| && r in lists[i] ensures r < |commits| {
      assert Link(commits, i, r);
    }
  }

  /** The lanes the solver chose. */
  function Columns(rows: seq<PathModel.Vertex>): (xs: seq<int>)
    ensures |xs| == |rows|
    ensures forall k :: 0 <= k < |xs| ==> xs[k] == rows[k].x
  {
    seq(|rows|, k requires 0 <= k < |rows| => rows[k].x)
  }

  /** The lanes of the listed rows among `targets`. */
  ghost predicate ShowsTargets(lanes: seq<int>, rows: seq<nat>, parentLanes: seq<int>) {
    && |parentLanes| == |rows|
    && forall q :: 0 <= q < |rows| ==> rows[q] < |lanes| && parentLanes[q] == lanes[rows[q]]
  }

  /** What has been drawn of row `i` after its first `p` parents. */
  ghost predicate DrawnSoFar(commits: seq<Commit>, lanes: seq<int>, cleared: Lanes, parents: seq<nat>,
                             parentLanes: seq<int>, active: Lanes, top: int, lane: int)
  {
    && LanesFor(commits, lanes) && (forall r :: r in parents ==> r < |commits|)
    && ShowsTargets(lanes, parents, parentLanes)
    && active == MarkParents(commits, lanes, cleared, parents, |parents|)
    && top in lanes && lane <= top
  }

  /** Marks the lane of one in-list parent. */
  lemma OneMoreDrawn(commits: seq<Commit>, lanes: seq<int>, cleared: Lanes, parents: seq<nat>,
                     parentLanes: seq<int>, active: Lanes, top: int, lane: int, r: nat)
    requires DrawnSoFar(commits, lanes, cleared, parents, parentLanes, active, top, lane) && r < |commits|
    ensures DrawnSoFar(commits, lanes, cleared, parents + [r], parentLanes + [lanes[r]],
                       Put(active, lanes[r], Some(commits[r].hash)), FallbackLayout.Max(top, lanes[r]), lane)
  {
    MarkOneMore(commits, lanes, cleared, parents, r);
  }

  /** A parent is outside the list, or stands for the next of the rows to mark. */
  lemma ParentIsDrawn(vertices: seq<Vertex>, outside: Vertex, i: nat, p: nat,
                      known: seq<Branch>, g: PathModel.Graph, rows: seq<PathModel.Vertex>)
    requires Represents(vertices, outside, known, g, rows) && PathModel.WellFormed(g)
    requires i < |g| && p < |vertices[i].parents|
    ensures |vertices[i].parents| == |g[i]|
    ensures var pv := vertices[i].parents[p];
            if pv.id == NULL_VERTEX_ID then RowsAmong(g[i], p + 1) == RowsAmong(g[i], p)
            else
              && 0 <= pv.id < |g| && pv.x == Columns(rows)[pv.id]
              && RowsAmong(g[i], p + 1) == RowsAmong(g[i], p) + [pv.id]
  {
    var pv := vertices[i].parents[p];
    assert RowRep(vertices, outside, known, g, i, rows[i]);
    assert Canonical(vertices, outside, pv) && TargetOf(pv) == g[i][p];
    if pv.id != NULL_VERTEX_ID {
      assert RowRep(vertices, outside, known, g, pv.id, rows[pv.id]);
    }
  }

  /** Marks the lanes of the in-list parents of row `i` in turn. */
  method DrawParents(commits: seq<Commit>, vertices: seq<Vertex>, outside: Vertex, i: nat, cleared: Lanes, lane: int,
                     ghost known: seq<Branch>, ghost g: PathModel.Graph, ghost rows: seq<PathModel.Vertex>)
    returns (parentLanes: seq<int>, active: Lanes, top: int)
    requires Represents(vertices, outside, known, g, rows) && PathModel.WellFormed(g)
    requires |g| == |commits| && i < |commits|
    requires DrawnSoFar(commits, Columns(rows), cleared, [], [], cleared, lane, lane)
    ensures DrawnSoFar(commits, Columns(rows), cleared, RowsAmong(g[i], |g[i]|), parentLanes, active, top, lane)
  {
    ghost var lanes := Columns(rows);
    ParentsCounted(vertices, outside, i, known, g, rows);
    parentLanes, active, top := [], cleared, lane;
    for p := 0 to |vertices[i].parents|
      invariant DrawnSoFar(commits, lanes, cleared, RowsAmong(g[i], p), parentLanes, active, top, lane)
    {
      var pv := vertices[i].parents[p];
      ParentIsDrawn(vertices, outside, i, p, known, g, rows);
      if pv.id == NULL_VERTEX_ID {
        continue;
      }
      var pl := pv.x;
      OneMoreDrawn(commits, lanes, cleared, RowsAmong(g[i], p), parentLanes, active, top, lane, pv.id);
      parentLanes := parentLanes + [pl];
      top := FallbackLayout.Max(top, pl);
      active := Put(active, pl, Some(commits[pv.id].hash));
    }
  }

  lemma ParentsCounted(vertices: seq<Vertex>, outside: Vertex, i: nat,
                       known: seq<Branch>, g: PathModel.Graph, rows: seq<PathModel.Vertex>)
    requires Represents(vertices, outside, known, g, rows) && i < |g|
    ensures |vertices[i].parents| == |g[i]| && vertices[i].x == rows[i].x
  {
    assert RowRep(vertices, outside, known, g, i, rows[i]);
  }

  /** Draws row `i` from the solved vertices. */
  method DrawVertex(commits: seq<Commit>, vertices: seq<Vertex>, outside: Vertex, i: nat, lanesBefore: Lanes,
                    ghost known: seq<Branch>, ghost g: PathModel.Graph, ghost rows: seq<PathModel.Vertex>)
    returns (row: RowInfo, active: Lanes, top: int)
    requires Represents(vertices, outside, known, g, rows) && PathModel.WellFormed(g)
    requires |g| == |commits| && i < |commits|
    ensures row.lane == rows[i].x && row.lanesBefore == lanesBefore
    ensures ShowsTargets(Columns(rows), RowsAmong(g[i], |g[i]|), row.parentLanes)
    ensures forall r :: r in RowsAmong(g[i], |g[i]|) ==> r < |commits|
    ensures active == MarkParents(commits, Columns(rows), Put(lanesBefore, rows[i].x, None),
                                  RowsAmong(g[i], |g[i]|), |RowsAmong(g[i], |g[i]|)|)
    ensures top in Columns(rows) && rows[i].x <= top
  {
    ParentsCounted(vertices, outside, i, known, g, rows);
    assert Columns(rows)[i] == rows[i].x;
    var lane := vertices[i].x;
    var parentLanes;
    parentLanes, active, top :=
      DrawParents(commits, vertices, outside, i, Put(lanesBefore, lane, None), lane, known, g, rows);
    row := RowInfo(lane, lanesBefore, parentLanes);
  }

  /** Row `i` is drawn from `lanes`. */
  ghost predicate DrawnRow(commits: seq<Commit>, parents: seq<seq<nat>>, lanes: seq<int>, row: RowInfo, i: nat) {
    && LanesFor(commits, lanes) && ParentsListed(commits, parents) && i < |commits|
    && row.lane == lanes[i]
    && row.lanesBefore == LanesBefore(commits, parents, lanes, i)
    && ShowsTargets(lanes, parents[i], row.parentLanes)
  }

  ghost predicate DrawnRows(commits: seq<Commit>, parents: seq<seq<nat>>, lanes: seq<int>, rows: seq<RowInfo>) {
    forall i {:trigger DrawnRow(commits, parents, lanes, rows[i], i)} :: 0 <= i < |rows| ==>
      DrawnRow(commits, parents, lanes, rows[i], i)
  }

  lemma DrawnRowsStep(commits: seq<Commit>, parents: seq<seq<nat>>, lanes: seq<int>, rows: seq<RowInfo>, row: RowInfo)
    requires DrawnRows(commits, parents, lanes, rows) && DrawnRow(commits, parents, lanes, row, |rows|)
    ensures DrawnRows(commits, parents, lanes, rows + [row])
  {
    var rows' := rows + [row];
    forall i | 0 <= i < |rows'| ensures DrawnRow(commits, parents, lanes, rows'[i], i) {
      if i < |rows| {
        assert DrawnRow(commits, parents, lanes, rows[i], i);
      }
    }
  }

  /** Every row of the layout is drawn from the layout's own lanes. */
  ghost predicate Drawn(commits: seq<Commit>, layout: Layout) {
    && |layout.rowDrawInfo| == |commits| == |layout.commitLane|
    && DrawnRows(commits, ParentLists(commits, layout.idx), layout.commitLane, layout.rowDrawInfo)
  }

  /** Rows drawn from any lanes agree with those lanes and show no false busy lane. */
  lemma DrawnRowsMeet(commits: seq<Commit>, layout: Layout)
    requires History(commits) && IsLookup(Hashes(commits), layout.idx)
    requires Drawn(commits, layout)
    ensures RowsMeet(commits, layout)
  {
    var parents := ParentLists(commits, layout.idx);
    ParentListsAreParents(commits, layout.idx);
    forall i | 0 <= i < |commits| ensures RowAgrees(commits, layout, i) && BusyLanesSound(commits, layout, i) {
      assert DrawnRow(commits, parents, layout.commitLane, layout.rowDrawInfo[i], i);
      BusyLanesBelong(commits, parents, layout.commitLane, i);
      var before := layout.rowDrawInfo[i].lanesBefore;
      forall l: nat | l < |before| && before[l].Some?
        ensures exists r :: r in Pending(commits, i) && before[l] == Some(commits[r].hash) && layout.commitLane[r] == l
      {
        assert Shows(commits, layout.commitLane, before[l], l, Pending(commits, i));
      }
    }
  }

  /** The lanes are the solver's. */
  ghost predicate LanesFromSolver(commits: seq<Commit>, firstOnly: bool, layout: Layout) {
    var g := GraphOf(commits, layout.idx, firstOnly);
    PathModel.WellFormed(g) && layout.commitLane == Columns(PathProofs.Solved(g))
  }

  /** `top` is the highest of the first `i` lanes, or another row's lane above them. */
  ghost predicate Highest(lanes: seq<int>, i: nat, top: int) {
    i <= |lanes| && top >= 0 && (top in lanes || top == 0) && forall k :: 0 <= k < i ==> lanes[k] <= top
  }

  lemma HighestStep(lanes: seq<int>, i: nat, top: int, next: int)
    requires Highest(lanes, i, top) && i < |lanes| && next in lanes && lanes[i] <= next
    ensures Highest(lanes, i + 1, FallbackLayout.Max(top, next))
  {
  }

  lemma HighestCounts(lanes: seq<int>, top: int)
    requires Highest(lanes, |lanes|, top) && lanes != [] && forall k :: 0 <= k < |lanes| ==> lanes[k] >= 0
    ensures CountsLanes(lanes, top + 1)
  {
    assert top == 0 ==> lanes[0] in lanes && lanes[0] == 0;
  }

  /** Draws row `i` as the value model says. */
  method DrawRow(commits: seq<Commit>, idx: map<Hash, nat>, firstOnly: bool, vertices: seq<Vertex>, outside: Vertex,
                 i: nat, lanesBefore: Lanes,
                 ghost known: seq<Branch>, ghost g: PathModel.Graph, ghost rows: seq<PathModel.Vertex>)
    returns (row: RowInfo, active: Lanes, top: int)
    requires g == GraphOf(commits, idx, firstOnly) && PathModel.WellFormed(g) && i < |commits|
    requires Represents(vertices, outside, known, g, rows) && LanesFor(commits, Columns(rows))
    requires ParentsListed(commits, ParentLists(commits, idx))
    requires lanesBefore == LanesBefore(commits, ParentLists(commits, idx), Columns(rows), i)
    ensures DrawnRow(commits, ParentLists(commits, idx), Columns(rows), row, i)
    ensures active == LanesBefore(commits, ParentLists(commits, idx), Columns(rows), i + 1)
    ensures top in Columns(rows) && Columns(rows)[i] <= top
  {
    TargetsAreParentRows(idx, commits[i].parents, firstOnly, |commits[i].parents|);
    row, active, top := DrawVertex(commits, vertices, outside, i, lanesBefore, known, g, rows);
  }

  /** Draws every row from the vertices, whatever their lanes. */
  method DrawRows(commits: seq<Commit>, idx: map<Hash, nat>, firstOnly: bool, vertices: seq<Vertex>, outside: Vertex,
                  ghost known: seq<Branch>, ghost g: PathModel.Graph, ghost rows: seq<PathModel.Vertex>)
    returns (commitLane: seq<int>, rowDrawInfo: seq<RowInfo>, maxLane: int)
    requires g == GraphOf(commits, idx, firstOnly) && PathModel.WellFormed(g)
    requires Represents(vertices, outside, known, g, rows) && LanesFor(commits, Columns(rows))
    requires ParentsListed(commits, ParentLists(commits, idx))
    ensures commitLane == Columns(rows) && |rowDrawInfo| == |commits|
    ensures DrawnRows(commits, ParentLists(commits, idx), Columns(rows), rowDrawInfo)
    ensures Highest(Columns(rows), |commits|, maxLane)
  {
    ghost var lanes, parents := Columns(rows), ParentLists(commits, idx);
    commitLane, rowDrawInfo, maxLane := [], [], 0;
    var activeLanes: Lanes := [];
    for i := 0 to |commits|
      invariant |commitLane| == i && forall k :: 0 <= k < i ==> commitLane[k] == lanes[k]
      invariant |rowDrawInfo| == i && DrawnRows(commits, parents, lanes, rowDrawInfo)
      invariant activeLanes == LanesBefore(commits, parents, lanes, i)
      invariant Highest(lanes, i, maxLane)
    {
      var row, active, top := DrawRow(commits, idx, firstOnly, vertices, outside, i, activeLanes, known, g, rows);
      DrawnRowsStep(commits, parents, lanes, rowDrawInfo, row);
      HighestStep(lanes, i, maxLane, top);
      maxLane := FallbackLayout.Max(maxLane, top);
      commitLane := commitLane + [row.lane];
      rowDrawInfo := rowDrawInfo + [row];
      activeLanes := active;
    }
  }

  /** Draws the layout of a non-empty list from its solved vertices. */
  method DrawLayout(commits: seq<Commit>, idx: map<Hash, nat>, firstOnly: bool, vertices: seq<Vertex>, outside: Vertex,
                    ghost known: seq<Branch>, ghost g: PathModel.Graph)
    returns (layout: Layout)
    requires History(commits) && IsLookup(Hashes(commits), idx) && commits != []
    requires g == GraphOf(commits, idx, firstOnly) && PathModel.WellFormed(g)
    requires Represents(vertices, outside, known, g, PathProofs.Solved(g))
    ensures layout.idx == idx && LanesFromSolver(commits, firstOnly, layout)
    ensures Drawn(commits, layout) && CountsLanes(layout.commitLane, layout.laneCount)
  {
    ParentListsAreParents(commits, idx);
    var commitLane, rowDrawInfo, maxLane :=
      DrawRows(commits, idx, firstOnly, vertices, outside, known, g, PathProofs.Solved(g));
    HighestCounts(commitLane, maxLane);
    layout := Layout(commitLane, maxLane + 1, idx, rowDrawInfo);
  }

  // ---------- choosing a layout ----------

  /** Rounded up half of the commits. */
  function HalfUp(n: nat): (half: nat)
    ensures n <= 2 * half <= n + 1
  {
    (n + 1) / 2
  }

  ghost predicate LanesReal(row: RowInfo) {
    row.lane >= 0 && forall j :: 0 <= j < |row.parentLanes| ==> row.parentLanes[j] >= 0
  }

  /** A layout is kept unless it is malformed or, from twelve commits on, wider than half of them. */
  ghost predicate Reasonable(layout: Layout, commitCount: nat) {
    && |layout.rowDrawInfo| == commitCount
    && layout.laneCount >= 1
    && (forall i {:trigger LanesReal(layout.rowDrawInfo[i])} :: 0 <= i < commitCount ==>
           LanesReal(layout.rowDrawInfo[i]))
    && !(commitCount >= 12 && 2 * layout.laneCount > commitCount + 1)
  }

  method IsReasonableLayout(layout: Layout, commitCount: nat) returns (ok: bool)
    ensures ok <==> Reasonable(layout, commitCount)
  {
    if |layout.rowDrawInfo| != commitCount || layout.laneCount < 1 {
      return false;
    }
    for i := 0 to |layout.rowDrawInfo|
      invariant forall k :: 0 <= k < i ==> LanesReal(layout.rowDrawInfo[k])
    {
      var row := layout.rowDrawInfo[i];
      if row.lane < 0 {
        assert !LanesReal(layout.rowDrawInfo[i]);
        return false;
      }
      for j := 0 to |row.parentLanes|
        invariant forall k :: 0 <= k < j ==> row.parentLanes[k] >= 0
      {
        if row.parentLanes[j] < 0 {
          assert !LanesReal(layout.rowDrawInfo[i]);
          return false;
        }
      }
    }
    return !(commitCount >= 12 && layout.laneCount > HalfUp(commitCount));
  }

  /** A layout that meets the contract is unreasonable only for being too wide. */
  lemma OnlyWidthIsUnreasonable(commits: seq<Commit>, layout: Layout)
    requires commits != [] && Meets(commits, layout)
    ensures Reasonable(layout, |commits|) <==> !(|commits| >= 12 && 2 * layout.laneCount > |commits| + 1)
  {
    forall i | 0 <= i < |commits| ensures LanesReal(layout.rowDrawInfo[i]) {
      assert RowAgrees(commits, layout, i);
    }
    assert layout.commitLane[0] < layout.laneCount;
  }

  /** The solver's lane count never exceeds commits plus parent links. */
  lemma SolverIsBounded(commits: seq<Commit>, firstOnly: bool, layout: Layout)
    requires LanesFromSolver(commits, firstOnly, layout) && CountsLanes(layout.commitLane, layout.laneCount)
    ensures var g := GraphOf(commits, layout.idx, firstOnly);
      commits != [] ==> layout.laneCount <= |commits| + PathProofs.Links(g, |commits|)
  {
    if commits != [] {
      var k :| 0 <= k < |layout.commitLane| && layout.commitLane[k] == layout.laneCount - 1;
      PathProofs.LanesAreBounded(GraphOf(commits, layout.idx, firstOnly), k);
    }
  }

  /** The solver's drawing, kept because it is narrow enough. */
  ghost predicate SolverKept(commits: seq<Commit>, firstOnly: bool, layout: Layout) {
    && LanesFromSolver(commits, firstOnly, layout) && Drawn(commits, layout)
    && (|commits| < 12 || 2 * layout.laneCount <= |commits| + 1)
  }

  /** The solver's drawing would be too wide. */
  ghost predicate SolverTooWide(commits: seq<Commit>, firstOnly: bool, idx: map<Hash, nat>) {
    var g := GraphOf(commits, idx, firstOnly);
    && |commits| >= 12 && PathModel.WellFormed(g)
    && exists k :: 0 <= k < |commits| && 2 * (Columns(PathProofs.Solved(g))[k] + 1) > |commits| + 1
  }

  /** From twelve commits on the result is no wider than half of them, rounded up, or than they need. */
  method ComputeGraphLayout(commits: seq<Commit>, onlyFollowFirstParent: bool) returns (layout: Layout)
    requires History(commits)
    ensures Meets(commits, layout)
    ensures if SolverTooWide(commits, onlyFollowFirstParent, layout.idx)
            then FallbackLayout.FallbackGuarantee(commits, layout)
            else SolverKept(commits, onlyFollowFirstParent, layout)
    ensures |commits| >= 12 ==> 2 * layout.laneCount <= |commits| + 1 || layout.laneCount <= Width(commits, |commits|)
  {
    var idx := BuildLookup(Hashes(commits));
    ghost var g := GraphOf(commits, idx, onlyFollowFirstParent);
    GraphIsWellFormed(commits, idx, onlyFollowFirstParent);
    if commits == [] {
      layout := Layout([], 1, idx, []);
      assert layout.commitLane == Columns(PathProofs.Solved(g));
      return;
    }
    var vertices, outside := BuildVertices(commits, idx, onlyFollowFirstParent);
    ghost var known := DeterminePath(vertices, outside, g);
    layout := DrawLayout(commits, idx, onlyFollowFirstParent, vertices, outside, known, g);
    DrawnRowsMeet(commits, layout);
    OnlyWidthIsUnreasonable(commits, layout);
    var ok := IsReasonableLayout(layout, |commits|);
    if !ok {
      ghost var solved := layout;
      layout := FallbackLayout.ComputeFallbackLayout(commits);
      LookupIsUnique(Hashes(commits), idx, layout.idx);
      assert solved.laneCount - 1 in solved.commitLane;
    }
  }

  // ---------- when the solver's drawing is complete ----------

  ghost predicate BusyLanesAllComplete(commits: seq<Commit>, layout: Layout)
    requires |layout.commitLane| == |layout.rowDrawInfo| == |commits|
  {
    forall i {:trigger BusyLanesComplete(commits, layout, i)} :: 0 <= i < |commits| ==>
      BusyLanesComplete(commits, layout, i)
  }

  /**
   * A layout drawn from its lanes shows every awaited commit above every row if and
   * only if no row hides one: rows pending together have different lanes, and no row
   * takes the lane of a pending row that is not its parent.
   */
  lemma CompleteIffNobodyHidden(commits: seq<Commit>, layout: Layout)
    requires History(commits) && IsLookup(Hashes(commits), layout.idx)
    requires Drawn(commits, layout) && LanesFor(commits, layout.commitLane)
    ensures BusyLanesAllComplete(commits, layout) <==> NobodyHidden(commits, layout.commitLane, |commits|)
  {
    var parents, lanes := ParentLists(commits, layout.idx), layout.commitLane;
    ParentListsAreParents(commits, layout.idx);
    AllShownIffNobodyHidden(commits, parents, lanes, |commits|);
    forall i | 0 <= i < |commits|
      ensures BusyLanesComplete(commits, layout, i) <==> CompleteAt(commits, parents, lanes, i)
    {
      assert DrawnRow(commits, parents, lanes, layout.rowDrawInfo[i], i);
    }
    assert Pending(commits, |commits|) == {};
    assert CompleteAt(commits, parents, lanes, |commits|);
  }

  // ---------- a drawing that hides a commit ----------

  /** A merge commit whose two parents are roots. */
  const MERGE_OF_ROOTS: PathModel.Graph := [[PathModel.Row(1), PathModel.Row(2)], [], []]

  /** A row on branch 0 standing on its only point. */
  function Alone(row: nat, nextParent: nat): PathModel.Vertex {
    PathModel.Vertex(0, 1, nextParent, Some(0), [Some(PathModel.Slot(PathModel.Row(row), 0))])
  }

  lemma RegisterFirst(v: PathModel.Vertex, t: PathModel.Target, b: nat)
    requires v.nextX == 0 && v.connections == []
    ensures PathModel.Register(v, 0, t, b) == v.(nextX := 1, connections := [Some(PathModel.Slot(t, b))])
  {
    assert PathModel.Pad([], 1) == [None];
  }

  /** The first run follows the first parent and stops there. */
  lemma FirstRun()
    ensures PathModel.Run(MERGE_OF_ROOTS, PathModel.Start(MERGE_OF_ROOTS), 0)
         == PathModel.World([Alone(0, 1), Alone(1, 0), PathModel.NEW_VERTEX], 1)
  {
    var g, new0 := MERGE_OF_ROOTS, PathModel.NEW_VERTEX;
    RegisterFirst(new0.(onBranch := Some(0)), PathModel.Row(0), 0);
    RegisterFirst(new0, PathModel.Row(1), 0);
    var begun := PathModel.Walk([Alone(0, 0), new0, new0], 0, PathModel.Row(1), false);
    assert PathModel.Start(g).rows[0 := Alone(0, 0)] == begun.rows;
    var walked := PathModel.WalkRow(g, begun, 0, 1);
    assert walked.rows == [Alone(0, 1), Alone(1, 0), new0];
  }

  /** The second run passes the first parent and puts the second one back on lane 0. */
  lemma SecondRun()
    ensures var w := PathModel.Run(MERGE_OF_ROOTS,
        PathModel.World([Alone(0, 1), Alone(1, 0), PathModel.NEW_VERTEX], 1), 0);
      && |w.rows| == 3
      && w.rows[0] == Alone(0, 2)
      && w.rows[1].x == 0 && w.rows[1].onBranch == Some(0)
      && w.rows[2].x == 0 && w.rows[2].onBranch == Some(1)
  {
    var g, new0 := MERGE_OF_ROOTS, PathModel.NEW_VERTEX;
    var rows := [Alone(0, 1), Alone(1, 0), new0];
    RegisterFirst(new0, PathModel.Row(2), 1);
    assert rows[0 := rows[0]] == rows;
    var begun := PathModel.Walk(rows, 0, PathModel.Row(2), false);
    var passed := PathModel.WalkRow(g, begun, 1, 1);
    var arrived := PathModel.WalkRow(g, passed, 1, 2);
    assert arrived.stopped;
    assert PathModel.BranchWalk(g, begun, 1, 1) == PathModel.BranchWalk(g, passed, 1, 2) == arrived.rows;
  }

  /** All three commits end up on lane 0. */
  lemma RootsShareALane()
    ensures PathModel.WellFormed(MERGE_OF_ROOTS)
    ensures Columns(PathProofs.Solved(MERGE_OF_ROOTS)) == [0, 0, 0]
  {
    var g := MERGE_OF_ROOTS;
    PathProofs.StartOk(g);
    FirstRun();
    SecondRun();
    var w0 := PathModel.Start(g);
    PathProofs.RunKeeps(g, w0, 0);
    var w1 := PathModel.Run(g, w0, 0);
    PathProofs.RunKeeps(g, w1, 0);
    var w2 := PathModel.Run(g, w1, 0);
    assert PathProofs.Solve(g, w0, 0) == PathProofs.Solve(g, w1, 0) == PathProofs.Solve(g, w2, 0);
    assert PathProofs.Solve(g, w2, 0) == PathProofs.Solve(g, w2, 1) == PathProofs.Solve(g, w2, 2) ==
      PathProofs.Solve(g, w2, 3) == w2;
  }

  const ROOTS_MERGED: seq<Commit> := [Commit("m", ["a", "b"]), Commit("a", []), Commit("b", [])]

  lemma RootsAreAHistory()
    ensures History(ROOTS_MERGED)
    ensures forall child, parent: nat :: Link(ROOTS_MERGED, child, parent) <==> child == 0 && 1 <= parent <= 2
  {
    var commits := ROOTS_MERGED;
    assert Hashes(commits) == ["m", "a", "b"];
    assert "m"[0] == 'm' && "a"[0] == 'a' && "b"[0] == 'b';
    assert commits[0].parents[0] == "a" && commits[0].parents[1] == "b";
  }

  lemma RootsArePending()
    ensures 1 in Pending(ROOTS_MERGED, 1) && 2 in Pending(ROOTS_MERGED, 1)
  {
    RootsAreAHistory();
    assert Link(ROOTS_MERGED, 0, 1) && Link(ROOTS_MERGED, 0, 2);
    assert Awaited(ROOTS_MERGED, 1, 1) && Awaited(ROOTS_MERGED, 1, 2);
  }

  lemma RootsGraph(idx: map<Hash, nat>, firstOnly: bool)
    requires IsLookup(Hashes(ROOTS_MERGED), idx)
    ensures GraphOf(ROOTS_MERGED, idx, firstOnly) == MERGE_OF_ROOTS
  {
    var commits := ROOTS_MERGED;
    RootsAreAHistory();
    LookupInverts(Hashes(commits), idx, 1);
    LookupInverts(Hashes(commits), idx, 2);
    var parents: seq<Hash> := ["a", "b"];
    assert Targets(idx, parents, firstOnly, 1) == [PathModel.Row(1)];
    assert Targets(idx, parents, firstOnly, 2) == [PathModel.Row(1), PathModel.Row(2)];
  }

  /**
   * Kept drawings are not always complete: above the first root of such a merge the
   * other root hides it, and the two share a lane while both are pending.
   */
  lemma SolverCanHideACommit(firstOnly: bool, layout: Layout)
    requires Meets(ROOTS_MERGED, layout) && SolverKept(ROOTS_MERGED, firstOnly, layout)
    ensures !BusyLanesAllComplete(ROOTS_MERGED, layout)
    ensures !ConflictFree(ROOTS_MERGED, layout.commitLane)
  {
    var commits := ROOTS_MERGED;
    RootsAreAHistory();
    RootsArePending();
    RootsGraph(layout.idx, firstOnly);
    RootsShareALane();
    assert layout.commitLane[1] == layout.commitLane[2];
    assert 1 in Occupants(commits, 1) && 2 in Occupants(commits, 1);
    assert !HidesNobody(commits, layout.commitLane, 0);
    CompleteIffNobodyHidden(commits, layout);
  }
}
