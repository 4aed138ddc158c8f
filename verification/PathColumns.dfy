/** Histories whose lines run side by side: each keeps its column, so rows that are open together never share one. */
module PathColumns {
  import opened Wrappers
  import opened PathModel
  import PathProofs

  /** Row `c` names row `r` as its parent number `p`. */
  predicate Names(g: Graph, c: nat, p: nat, r: nat) {
    c < |g| && p < |g[c]| && g[c][p] == Row(r)
  }

  /** No row is named twice. */
  ghost predicate NamedOnce(g: Graph) {
    forall c: nat, p: nat, d: nat, q: nat, r: nat {:trigger Names(g, c, p, r), Names(g, d, q, r)} ::
      Names(g, c, p, r) && Names(g, d, q, r) ==> c == d && p == q
  }

  /** No row that is named is a root. */
  ghost predicate NamedGoesOn(g: Graph) {
    forall c: nat, p: nat, r: nat {:trigger Names(g, c, p, r)} :: Names(g, c, p, r) && r < |g| ==> g[r] != []
  }

  // ---------- what every run keeps ----------

  /** Branch `b` is the column of everything on it. */
  ghost predicate InColumn(v: Vertex) {
    v.onBranch.Some? ==> v.x == v.onBranch.value
  }

  ghost predicate Columned(rows: seq<Vertex>) {
    forall k {:trigger InColumn(rows[k])} :: 0 <= k < |rows| ==> InColumn(rows[k])
  }

  /** A row is on no branch before the walk along the link that names it. */
  ghost predicate AwaitsLink(rows: seq<Vertex>, c: nat, p: nat, r: nat) {
    c < |rows| && r < |rows| && p >= rows[c].nextParent ==> rows[r].onBranch.None?
  }

  ghost predicate AllAwaitLinks(g: Graph, rows: seq<Vertex>) {
    forall c: nat, p: nat, r: nat {:trigger Names(g, c, p, r)} :: Names(g, c, p, r) ==> AwaitsLink(rows, c, p, r)
  }

  /** What lies above a row on the same branch lies above the row that names it, or is that row. */
  ghost predicate Follows(rows: seq<Vertex>, c: nat, r: nat) {
    r < |rows| && rows[r].onBranch.Some? ==>
      forall k :: 0 <= k < r && rows[k].onBranch == rows[r].onBranch ==> k <= c
  }

  ghost predicate AllFollow(g: Graph, rows: seq<Vertex>) {
    forall c: nat, p: nat, r: nat {:trigger Names(g, c, p, r)} :: Names(g, c, p, r) ==> Follows(rows, c, r)
  }

  /** Rows from `i` on have taken exactly `taken` points. */
  ghost predicate Level(rows: seq<Vertex>, i: nat, taken: nat) {
    forall k {:trigger rows[k]} :: i <= k < |rows| ==> rows[k].nextX == taken
  }

  ghost predicate Lined(g: Graph, rows: seq<Vertex>) {
    && |g| == |rows| && WellFormed(g) && NamedOnce(g) && NamedGoesOn(g)
    && Columned(rows) && AllAwaitLinks(g, rows) && AllFollow(g, rows)
  }

  /** Between two runs, with row `s` next. */
  ghost predicate Steady(g: Graph, w: World, s: nat) {
    && PathProofs.Inv(g, w) && Lined(g, w.rows)
    && Level(w.rows, s + 1, w.branches)
    && (s < |g| && w.rows[s].onBranch.None? ==> w.rows[s].nextX == w.branches)
  }

  /**
   * During a walk on branch `b` begun above row `from`, before row `i`: it has taken column `b` of
   * every row so far.
   */
  ghost predicate Under(g: Graph, w: Walk, b: nat, from: nat, i: nat) {
    && Lined(g, w.rows) && !w.stopped && from <= i
    && PathProofs.Walking(g, w.rows, w.child, w.target, b, i)
    && Level(w.rows, i, b)
    && (forall k {:trigger w.rows[k]} :: from <= k < i ==> w.rows[k].nextX == b + 1)
    && (forall k {:trigger w.rows[k]} :: 0 <= k < |w.rows| && w.rows[k].onBranch == Some(b) ==> k <= w.child)
  }

  // ---------- one row of a walk ----------

  /** A row that only gets a point changes nothing that is kept. */
  lemma PassKeepsLines(g: Graph, rows: seq<Vertex>, i: nat, target: Target, b: nat)
    requires Lined(g, rows) && i < |rows|
    ensures Lined(g, rows[i := Register(rows[i], rows[i].nextX, target, b)])
  {
    var moved := rows[i := Register(rows[i], rows[i].nextX, target, b)];
    forall k | 0 <= k < |rows| ensures InColumn(moved[k]) {
      assert InColumn(rows[k]);
    }
    forall c: nat, p: nat, r: nat | Names(g, c, p, r) ensures AwaitsLink(moved, c, p, r) && Follows(moved, c, r) {
      assert AwaitsLink(rows, c, p, r) && Follows(rows, c, r);
      assert forall k :: 0 <= k < |rows| ==> moved[k].onBranch == rows[k].onBranch;
    }
  }

  /** The state once row `r`, parent number `p` of `child`, has joined branch `b` in column `b`. */
  ghost predicate Joined(rows: seq<Vertex>, rows': seq<Vertex>, child: nat, r: nat, b: nat) {
    && child < r < |rows| == |rows'|
    && rows'[r].onBranch == Some(b) && rows'[r].x == b
    && rows'[child].nextParent == rows[child].nextParent + 1
    && (forall k {:trigger rows'[k]} :: 0 <= k < |rows| && k != r ==>
           rows'[k].onBranch == rows[k].onBranch && rows'[k].x == rows[k].x)
    && (forall k {:trigger rows'[k].nextParent} :: 0 <= k < |rows| && k != child ==>
           rows'[k].nextParent == rows[k].nextParent)
  }

  lemma JoinKeepsLines(g: Graph, rows: seq<Vertex>, rows': seq<Vertex>, child: nat, r: nat, b: nat)
    requires Lined(g, rows) && Joined(rows, rows', child, r, b)
    requires rows[r].onBranch.None? && Names(g, child, rows[child].nextParent, r)
    requires forall k {:trigger rows[k]} :: 0 <= k < |rows| && rows[k].onBranch == Some(b) ==> k <= child
    ensures Lined(g, rows')
  {
    forall k | 0 <= k < |rows| ensures InColumn(rows'[k]) {
      assert InColumn(rows[k]);
    }
    forall c: nat, p: nat, q: nat | Names(g, c, p, q) ensures AwaitsLink(rows', c, p, q) && Follows(rows', c, q) {
      assert AwaitsLink(rows, c, p, q) && Follows(rows, c, q);
      LinkAfterJoin(g, rows, rows', child, r, b, c, p, q);
    }
  }

  lemma LinkAfterJoin(g: Graph, rows: seq<Vertex>, rows': seq<Vertex>, child: nat, r: nat, b: nat, c: nat, p: nat,
                      q: nat)
    requires |g| == |rows| && WellFormed(g) && NamedOnce(g) && Joined(rows, rows', child, r, b)
    requires rows[r].onBranch.None? && Names(g, child, rows[child].nextParent, r)
    requires forall k {:trigger rows[k]} :: 0 <= k < |rows| && rows[k].onBranch == Some(b) ==> k <= child
    requires Names(g, c, p, q) && AwaitsLink(rows, c, p, q) && Follows(rows, c, q)
    ensures AwaitsLink(rows', c, p, q) && Follows(rows', c, q)
  {
    if q == r {
      assert c == child && p == rows[child].nextParent;
    } else {
      assert rows'[q].onBranch == rows[q].onBranch;
      assert rows[q].onBranch == Some(b) ==> q <= child;
    }
  }

  lemma VisitPassed(g: Graph, w: Walk, b: nat, from: nat, i: nat)
    requires Under(g, w, b, from, i) && i < |g| && w.target != Row(i)
    ensures Under(g, WalkRow(g, w, b, i), b, from, i + 1)
  {
    PassKeepsLines(g, w.rows, i, w.target, b);
    PathProofs.PassRow(g, w.rows, w.child, w.target, b, i);
  }

  lemma VisitTarget(g: Graph, w: Walk, b: nat, from: nat, i: nat)
    requires Under(g, w, b, from, i) && i < |g| && w.target == Row(i)
    ensures Under(g, WalkRow(g, w, b, i), b, from, i + 1)
  {
    var rows, child := w.rows, w.child;
    assert Names(g, child, rows[child].nextParent, i);
    assert AwaitsLink(rows, child, rows[child].nextParent, i);
    PathProofs.ArriveUnfolds(g, rows, child, b, i);
    PathProofs.WalkRowKeeps(g, w, b, i);
    var w' := WalkRow(g, w, b, i);
    assert rows[i].nextX == b;
    assert Joined(rows, w'.rows, child, i, b);
    JoinKeepsLines(g, rows, w'.rows, child, i, b);
    assert g[i] != [] && rows[i].nextParent == 0 by {
      assert PathProofs.VertexOk(g, rows[i], b + 1, i);
    }
  }

  // ---------- one run ----------

  /** What a walk leaves behind: lines, and one more point taken on every row it came by. */
  ghost predicate RanThrough(g: Graph, rows': seq<Vertex>, b: nat, from: nat) {
    Lined(g, rows') && Level(rows', from, b + 1)
  }

  lemma LastLinkKeepsLines(g: Graph, rows: seq<Vertex>, child: nat)
    requires Lined(g, rows) && child < |g|
    ensures Lined(g, ParentProcessed(rows, child))
  {
    var done := ParentProcessed(rows, child);
    forall k | 0 <= k < |rows| ensures InColumn(done[k]) {
      assert InColumn(rows[k]);
    }
    forall c: nat, p: nat, r: nat | Names(g, c, p, r) ensures AwaitsLink(done, c, p, r) && Follows(done, c, r) {
      assert AwaitsLink(rows, c, p, r) && Follows(rows, c, r);
      assert forall k :: 0 <= k < |rows| ==> done[k].onBranch == rows[k].onBranch;
    }
  }

  lemma {:induction false} WalkRunsThrough(g: Graph, w: Walk, b: nat, from: nat, i: nat)
    requires Under(g, w, b, from, i)
    ensures RanThrough(g, BranchWalk(g, w, b, i), b, from)
    decreases |g| - i
  {
    if i == |g| {
      LastLinkKeepsLines(g, w.rows, w.child);
    } else {
      if w.target == Row(i) {
        VisitTarget(g, w, b, from, i);
      } else {
        VisitPassed(g, w, b, from, i);
      }
      WalkRunsThrough(g, WalkRow(g, w, b, i), b, from, i + 1);
    }
  }

  lemma BeginKeepsLines(g: Graph, rows: seq<Vertex>, s: nat, b: nat)
    requires Lined(g, rows) && s < |g|
    requires forall k {:trigger rows[k]} :: 0 <= k < |rows| && rows[k].onBranch.Some? ==> rows[k].onBranch.value < b
    requires rows[s].onBranch.None? ==> rows[s].nextX == b
    requires forall c: nat, p: nat {:trigger Names(g, c, p, s)} :: Names(g, c, p, s) ==> p < rows[c].nextParent
    ensures Lined(g, rows[s := Begun(rows[s], s, b)])
  {
    var begun := rows[s := Begun(rows[s], s, b)];
    forall k | 0 <= k < |rows| ensures InColumn(begun[k]) {
      assert InColumn(rows[k]);
    }
    forall c: nat, p: nat, r: nat | Names(g, c, p, r) ensures AwaitsLink(begun, c, p, r) && Follows(begun, c, r) {
      assert AwaitsLink(rows, c, p, r) && Follows(rows, c, r);
      assert forall k :: 0 <= k < |rows| && k != s ==> begun[k].onBranch == rows[k].onBranch;
    }
  }

  /** A run in a steady state goes through to the end of the list. */
  lemma RunIsSteady(g: Graph, w: World, s: nat)
    requires Steady(g, w, s) && PathProofs.FinishedBelow(g, w.rows, s) && s < |g| && Unfinished(g, w.rows, s)
    ensures Steady(g, Run(g, w, s), s)
  {
    NoMergeArm(g, w, s);
    PathProofs.RunKeeps(g, w, s);
    LinksAboveAreWalked(g, w, s);
    BranchesAreBelow(g, w);
    BeginKeepsLines(g, w.rows, s, w.branches);
    var begun := BeginsUnder(g, w, s);
    var walk := Walk(begun, s, NextParent(g, w.rows, s), false);
    RunsThroughFrom(g, walk, w.branches, s);
  }

  /** Every link to the row whose turn it is has been walked. */
  lemma LinksAboveAreWalked(g: Graph, w: World, s: nat)
    requires PathProofs.Inv(g, w) && PathProofs.FinishedBelow(g, w.rows, s) && s < |g|
    ensures forall c: nat, p: nat {:trigger Names(g, c, p, s)} :: Names(g, c, p, s) ==> p < w.rows[c].nextParent
  {
    forall c: nat, p: nat | Names(g, c, p, s) ensures p < w.rows[c].nextParent {
      assert c < s && !Unfinished(g, w.rows, c) && PathProofs.VertexOk(g, w.rows[c], w.branches, c);
    }
  }

  lemma BranchesAreBelow(g: Graph, w: World)
    requires PathProofs.Inv(g, w)
    ensures forall k {:trigger w.rows[k]} :: 0 <= k < |w.rows| && w.rows[k].onBranch.Some? ==>
      w.rows[k].onBranch.value < w.branches
  {
    forall k | 0 <= k < |w.rows| && w.rows[k].onBranch.Some? ensures w.rows[k].onBranch.value < w.branches {
      assert PathProofs.VertexOk(g, w.rows[k], w.branches, k);
    }
  }

  /** A walk goes through, and leaves the row it starts from on its branch. */
  lemma RunsThroughFrom(g: Graph, walk: Walk, b: nat, s: nat)
    requires Under(g, walk, b, s + 1, s + 1) && PathProofs.WalkOk(g, walk, b, s + 1)
    requires s < |g| && walk.rows[s].onBranch.Some?
    ensures RanThrough(g, BranchWalk(g, walk, b, s + 1), b, s + 1)
    ensures BranchWalk(g, walk, b, s + 1)[s].onBranch.Some?
  {
    WalkRunsThrough(g, walk, b, s + 1, s + 1);
    PathProofs.WalkKeeps(g, walk, b, s + 1);
    assert PathProofs.RowGrows(walk.rows[s], BranchWalk(g, walk, b, s + 1)[s], 0);
  }

  lemma BeginsUnder(g: Graph, w: World, s: nat) returns (begun: seq<Vertex>)
    requires Steady(g, w, s) && s < |g| && Unfinished(g, w.rows, s) && !TakesMergeArm(g, w.rows, s)
    requires Lined(g, w.rows[s := Begun(w.rows[s], s, w.branches)])
    requires forall k {:trigger w.rows[k]} :: 0 <= k < |w.rows| && w.rows[k].onBranch.Some? ==>
      w.rows[k].onBranch.value < w.branches
    ensures var walk := Walk(begun, s, NextParent(g, w.rows, s), false);
      && Under(g, walk, w.branches, s + 1, s + 1) && PathProofs.WalkOk(g, walk, w.branches, s + 1)
      && begun[s].onBranch.Some?
      && Run(g, w, s) == World(BranchWalk(g, walk, w.branches, s + 1), w.branches + 1)
  {
    begun := PathProofs.BranchBegins(g, w, s);
  }

  lemma NoMergeArm(g: Graph, w: World, s: nat)
    requires Steady(g, w, s) && s < |g|
    ensures !TakesMergeArm(g, w.rows, s)
  {
    var parent := NextParent(g, w.rows, s);
    if parent.Row? {
      assert Names(g, s, w.rows[s].nextParent, parent.row);
      assert AwaitsLink(w.rows, s, w.rows[s].nextParent, parent.row);
    }
  }

  // ---------- the whole solver ----------

  lemma {:induction false} SolveIsSteady(g: Graph, w: World, idx: nat)
    requires Steady(g, w, idx) && idx <= |g| && PathProofs.FinishedBelow(g, w.rows, idx)
    ensures Lined(g, PathProofs.Solve(g, w, idx).rows)
    decreases PathProofs.Remaining(g, w.rows), |g| - idx
  {
    PathProofs.WorkNonNegative(g, w.rows, w.branches, |g|);
    if idx < |g| {
      if Unfinished(g, w.rows, idx) {
        PathProofs.RunKeeps(g, w, idx);
        PathProofs.FinishedStays(g, w, Run(g, w, idx).rows, idx);
        RunIsSteady(g, w, idx);
        SolveIsSteady(g, Run(g, w, idx), idx);
      } else {
        SolveIsSteady(g, w, idx + 1);
      }
    }
  }

  /** Rows in one column follow one another: the lower one is named by the upper one or by a row below it. */
  lemma ColumnsFollow(g: Graph, k: nat, c: nat, p: nat, r: nat)
    requires WellFormed(g) && NamedOnce(g) && NamedGoesOn(g)
    requires Names(g, c, p, r) && k < r < |g| && PathProofs.Solved(g)[k].x == PathProofs.Solved(g)[r].x
    ensures k <= c
  {
    PathProofs.StartOk(g);
    SolveIsSteady(g, Start(g), 0);
    var rows := PathProofs.Solved(g);
    PathProofs.EveryRowIsPlaced(g, k);
    PathProofs.EveryRowIsPlaced(g, r);
    assert InColumn(rows[k]) && InColumn(rows[r]) && Follows(rows, c, r);
  }
}
