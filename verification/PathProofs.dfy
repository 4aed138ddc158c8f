/** What every step of the topology solver keeps, and why it stops. */
module PathProofs {
  import opened Wrappers
  import opened PathModel

  // ---------- the slot invariant ----------

  ghost predicate HasSlot(v: Vertex, target: Target, b: nat) {
    Some(Slot(target, b)) in v.connections
  }

  ghost predicate SlotsOk(v: Vertex, branches: nat) {
    && |v.connections| == v.nextX
    && (forall s :: 0 <= s < v.nextX ==> v.connections[s].Some? && v.connections[s].value.onBranch < branches)
    && (forall s, t :: 0 <= s < t < v.nextX ==> v.connections[s] != v.connections[t])
  }

  /** A slot leads to a row further down, or out of the list, except for the one the row stands on. */
  ghost predicate LeadsDown(v: Vertex, k: nat) {
    forall s :: 0 <= s < |v.connections| && v.connections[s].Some? && v.connections[s].value.connectsTo.Row? ==>
      || v.connections[s].value.connectsTo.row > k
      || (v.connections[s].value.connectsTo.row == k && v.onBranch.Some? && s == v.x)
  }

  /**
   * Slots are dense, non-null and pairwise different; a row on a branch stands on a
   * slot of its own that leads to itself on that branch; only a row on a branch has
   * walked to any parent.
   */
  ghost predicate VertexOk(g: Graph, v: Vertex, branches: nat, k: nat)
    requires k < |g|
  {
    && SlotsOk(v, branches)
    && LeadsDown(v, k)
    && v.nextParent <= |g[k]|
    && match v.onBranch
       case None => v.nextParent == 0
       case Some(b) => b < branches && v.x < v.nextX && v.connections[v.x] == Some(Slot(Row(k), b))
  }

  ghost predicate RowsOk(g: Graph, rows: seq<Vertex>, branches: nat) {
    |rows| == |g| && forall k {:trigger VertexOk(g, rows[k], branches, k)} :: 0 <= k < |g| ==>
      VertexOk(g, rows[k], branches, k)
  }

  /** Rows strictly between `k` and its first parent, as far as `upTo`, hold a slot to that parent on `k`'s branch. */
  ghost predicate ReservedUpTo(g: Graph, rows: seq<Vertex>, k: nat, upTo: nat)
    requires k < |g| == |rows| && g[k] != [] && rows[k].onBranch.Some?
  {
    g[k][0].Row? ==>
      forall m :: k < m < |rows| && m < g[k][0].row && m < upTo ==> HasSlot(rows[m], g[k][0], rows[k].onBranch.value)
  }

  /** A row on a branch has walked to its first parent and its branch is reserved all the way. */
  ghost predicate Settled(g: Graph, rows: seq<Vertex>, k: nat)
    requires k < |g| == |rows|
  {
    rows[k].onBranch.Some? && g[k] != [] ==> rows[k].nextParent > 0 && ReservedUpTo(g, rows, k, |rows|)
  }

  ghost predicate SettledExcept(g: Graph, rows: seq<Vertex>, child: int)
    requires |g| == |rows|
  {
    forall k {:trigger Settled(g, rows, k)} :: 0 <= k < |g| && k != child ==> Settled(g, rows, k)
  }

  /** What holds between two runs of the solver. */
  ghost predicate Inv(g: Graph, w: World) {
    && WellFormed(g)
    && RowsOk(g, w.rows, w.branches)
    && SettledExcept(g, w.rows, -1)
  }

  // ---------- how a row may change ----------

  /** Points are never given up, at most `taken` are taken, and a row never leaves its branch or its point. */
  ghost predicate RowGrows(v: Vertex, v': Vertex, taken: nat) {
    && v.connections <= v'.connections
    && v.nextX <= v'.nextX <= v.nextX + taken
    && v.nextParent <= v'.nextParent
    && (v.onBranch.Some? ==> v'.onBranch == v.onBranch && v'.x == v.x)
  }

  lemma SlotKept(v: Vertex, v': Vertex, target: Target, b: nat)
    requires v.connections <= v'.connections && HasSlot(v, target, b)
    ensures HasSlot(v', target, b)
  {
    var s :| 0 <= s < |v.connections| && v.connections[s] == Some(Slot(target, b));
    assert v'.connections[s] == v.connections[s];
  }

  /** Growing one row leaves every other settled row settled. */
  lemma SettledKept(g: Graph, rows: seq<Vertex>, i: nat, v': Vertex, child: int)
    requires |g| == |rows| && i < |rows| && rows[i].connections <= v'.connections
    requires SettledExcept(g, rows, child)
    requires i != child ==> v'.onBranch == rows[i].onBranch && rows[i].nextParent <= v'.nextParent
    ensures SettledExcept(g, rows[i := v'], child)
  {
    var rows' := rows[i := v'];
    forall k | 0 <= k < |g| && k != child ensures Settled(g, rows', k) {
      assert Settled(g, rows, k);
      if rows'[k].onBranch.Some? && g[k] != [] && g[k][0].Row? {
        forall m | k < m < |rows'| && m < g[k][0].row
          ensures HasSlot(rows'[m], g[k][0], rows'[k].onBranch.value)
        {
          SlotKept(rows[m], rows'[m], g[k][0], rows[k].onBranch.value);
        }
      }
    }
  }

  /** Taking the next free point with a slot the row does not have yet. */
  lemma RegisterSlot(v: Vertex, target: Target, b: nat, branches: nat)
    requires SlotsOk(v, branches) && b < branches && !HasSlot(v, target, b)
    ensures var v' := Register(v, v.nextX, target, b);
      && v' == v.(nextX := v.nextX + 1, connections := v.connections + [Some(Slot(target, b))])
      && SlotsOk(v', branches)
      && HasSlot(v', target, b)
  {
    var s := Some(Slot(target, b));
    assert Pad(v.connections, v.nextX + 1) == v.connections + [None];
    assert (v.connections + [None])[v.nextX := s] == v.connections + [s];
    var v' := Register(v, v.nextX, target, b);
    assert v'.connections[v.nextX] == s;
    forall p, q | 0 <= p < q < v'.nextX ensures v'.connections[p] != v'.connections[q] {
      if q == v.nextX {
        assert v.connections[p] in v.connections;
      }
    }
  }

  /** A row that is only passed through stays in order. */
  lemma RegisterFree(g: Graph, v: Vertex, k: nat, target: Target, b: nat, branches: nat)
    requires k < |g| && VertexOk(g, v, branches, k) && b < branches && !HasSlot(v, target, b)
    requires target.Row? ==> target.row > k
    ensures var v' := Register(v, v.nextX, target, b);
      && v' == v.(nextX := v.nextX + 1, connections := v.connections + [Some(Slot(target, b))])
      && VertexOk(g, v', branches, k)
      && HasSlot(v', target, b)
  {
    RegisterSlot(v, target, b, branches);
  }

  /** A row on no branch takes its next free point for itself and joins the branch there. */
  lemma RegisterOwn(g: Graph, v: Vertex, k: nat, b: nat, branches: nat)
    requires k < |g| && VertexOk(g, v, branches, k) && b < branches && !HasSlot(v, Row(k), b) && v.onBranch.None?
    ensures var v' := AddToBranch(Register(v, v.nextX, Row(k), b), b, v.nextX);
      && v' == v.(nextX := v.nextX + 1, connections := v.connections + [Some(Slot(Row(k), b))],
                  onBranch := Some(b), x := v.nextX)
      && v' == Register(AddToBranch(v, b, v.nextX), v.nextX, Row(k), b)
      && VertexOk(g, v', branches, k)
  {
    RegisterSlot(v, Row(k), b, branches);
    RegisterSlot(AddToBranch(v, b, v.nextX), Row(k), b, branches);
  }

  // ---------- the measure ----------

  /** Parent links of one row not walked yet, plus one while the row is on no branch. */
  function Left(g: Graph, v: Vertex, k: nat): int
    requires k < |g|
  {
    |g[k]| - v.nextParent + (if v.onBranch.None? then 1 else 0)
  }

  /** Work left on the first `k` rows. */
  function Work(g: Graph, rows: seq<Vertex>, k: nat): int
    requires k <= |g| == |rows|
  {
    if k == 0 then 0 else Work(g, rows, k - 1) + Left(g, rows[k - 1], k - 1)
  }

  function Remaining(g: Graph, rows: seq<Vertex>): int
    requires |g| == |rows|
  {
    Work(g, rows, |g|)
  }

  lemma {:induction false} WorkUpdate(g: Graph, rows: seq<Vertex>, i: nat, v': Vertex, k: nat)
    requires i < |g| == |rows| && k <= |g|
    ensures Work(g, rows[i := v'], k)
         == Work(g, rows, k) + (if i < k then Left(g, v', i) - Left(g, rows[i], i) else 0)
  {
    if k > 0 {
      WorkUpdate(g, rows, i, v', k - 1);
    }
  }

  lemma {:induction false} WorkNonNegative(g: Graph, rows: seq<Vertex>, branches: nat, k: nat)
    requires RowsOk(g, rows, branches) && k <= |g|
    ensures Work(g, rows, k) >= 0
  {
    if k > 0 {
      WorkNonNegative(g, rows, branches, k - 1);
      assert VertexOk(g, rows[k - 1], branches, k - 1);
    }
  }

  // ---------- one run ----------

  /** Rows from `i` on take at most one more point each, rows above `i` none. */
  ghost predicate GrowsFrom(rows: seq<Vertex>, rows': seq<Vertex>, i: nat) {
    && |rows| == |rows'|
    && forall k :: 0 <= k < |rows| ==> RowGrows(rows[k], rows'[k], if k >= i then 1 else 0)
  }

  /** How far the branch arm has to bring the work down: by one if there was a parent to walk to. */
  function Due(target: Target): nat {
    if target == Nowhere then 0 else 1
  }

  /** What the branch arm leaves behind. */
  ghost predicate Walked(g: Graph, rows: seq<Vertex>, rows': seq<Vertex>, target: Target, b: nat, i: nat) {
    && |g| == |rows|
    && GrowsFrom(rows, rows', i)
    && RowsOk(g, rows', b + 1)
    && SettledExcept(g, rows', -1)
    && Remaining(g, rows') <= Remaining(g, rows) - Due(target)
  }

  /** The state of the branch arm before it visits row `i`. */
  ghost predicate Walking(g: Graph, rows: seq<Vertex>, child: nat, target: Target, b: nat, i: nat) {
    && WellFormed(g) && RowsOk(g, rows, b + 1)
    && child < i <= |g|
    && target == NextParent(g, rows, child)
    && SettledExcept(g, rows, child)
    && rows[child].onBranch.Some?
    && (if rows[child].nextParent == 0
        then rows[child].onBranch == Some(b) && (g[child] != [] ==> ReservedUpTo(g, rows, child, i))
        else Settled(g, rows, child))
    && (target.Row? ==> target.row >= i)
    && (forall m, t :: i <= m < |g| ==> !HasSlot(rows[m], t, b))
  }

  /** Once the walk has reached the child's parent, the child is settled and one link is done. */
  lemma ChildArrives(g: Graph, rows: seq<Vertex>, child: nat, target: Target, b: nat, i: nat)
    requires Walking(g, rows, child, target, b, i)
    requires target != Nowhere && (target.Row? ==> target.row == i)
    ensures Walked(g, rows, ParentProcessed(rows, child), target, b, i)
    ensures Remaining(g, ParentProcessed(rows, child)) == Remaining(g, rows) - 1
  {
    var v' := rows[child].(nextParent := rows[child].nextParent + 1);
    WorkUpdate(g, rows, child, v', |g|);
    SettledKept(g, rows, child, v', child);
    assert VertexOk(g, rows[child], b + 1, child);
    ParentSettled(g, rows, child, v', i);
  }

  lemma ParentSettled(g: Graph, rows: seq<Vertex>, child: nat, v': Vertex, i: nat)
    requires child < |g| == |rows| && rows[child].onBranch.Some?
    requires v' == rows[child].(nextParent := rows[child].nextParent + 1)
    requires rows[child].nextParent < |g[child]|
    requires var target := g[child][rows[child].nextParent]; target == Outside || target == Row(i)
    requires if rows[child].nextParent == 0 then ReservedUpTo(g, rows, child, i) else Settled(g, rows, child)
    ensures Settled(g, rows[child := v'], child)
  {
  }

  /** Only row `i` may take a point. */
  ghost predicate GrowsAt(rows: seq<Vertex>, rows': seq<Vertex>, i: nat) {
    && |rows| == |rows'|
    && forall k :: 0 <= k < |rows| ==> RowGrows(rows[k], rows'[k], if k == i then 1 else 0)
  }

  lemma GrowsThen(rows: seq<Vertex>, mid: seq<Vertex>, rows': seq<Vertex>, i: nat)
    requires GrowsAt(rows, mid, i) && GrowsFrom(mid, rows', i + 1)
    ensures GrowsFrom(rows, rows', i)
  {
    forall k | 0 <= k < |rows| ensures RowGrows(rows[k], rows'[k], if k >= i then 1 else 0) {
      assert RowGrows(rows[k], mid[k], if k == i then 1 else 0);
      assert RowGrows(mid[k], rows'[k], if k >= i + 1 then 1 else 0);
    }
  }

  /** A row passed on the way gets one more point, reserved for the walk's target. */
  lemma PassRow(g: Graph, rows: seq<Vertex>, child: nat, target: Target, b: nat, i: nat)
    requires Walking(g, rows, child, target, b, i) && i < |rows| && target != Row(i)
    ensures var moved := rows[i := Register(rows[i], rows[i].nextX, target, b)];
      && Walking(g, moved, child, target, b, i + 1)
      && GrowsAt(rows, moved, i)
      && Remaining(g, moved) == Remaining(g, rows)
  {
    RegisterFree(g, rows[i], i, target, b, b + 1);
    var v' := Register(rows[i], rows[i].nextX, target, b);
    var moved := rows[i := v'];
    WorkUpdate(g, rows, i, v', |g|);
    SettledKept(g, rows, i, v', child);
    if rows[child].nextParent == 0 {
      assert g[child] != [] ==> ReservedUpTo(g, moved, child, i + 1);
    } else {
      ChildSettledKept(g, rows, i, v', child);
    }
  }

  lemma ChildSettledKept(g: Graph, rows: seq<Vertex>, i: nat, v': Vertex, child: nat)
    requires |g| == |rows| && i < |rows| && rows[i].connections <= v'.connections
    requires child < |g| && child != i && Settled(g, rows, child)
    ensures Settled(g, rows[i := v'], child)
  {
    if rows[child].onBranch.Some? && g[child] != [] && g[child][0].Row? {
      if child < i < g[child][0].row && HasSlot(rows[i], g[child][0], rows[child].onBranch.value) {
        SlotKept(rows[i], v', g[child][0], rows[child].onBranch.value);
      }
    }
  }

  /** Reaching a row that is on no branch yet puts it on branch `b` and goes on from there. */
  lemma ArriveRow(g: Graph, rows: seq<Vertex>, child: nat, b: nat, i: nat)
    requires Walking(g, rows, child, Row(i), b, i) && i < |rows| && rows[i].onBranch.None?
    ensures var v' := AddToBranch(Register(rows[i], rows[i].nextX, Row(i), b), b, rows[i].nextX);
      var arrived := ParentProcessed(rows, child)[i := v'];
      && GrowsAt(rows, arrived, i)
      && Remaining(g, arrived) == Remaining(g, rows) - 2
      && RowsOk(g, arrived, b + 1)
      && SettledExcept(g, arrived, i)
      && arrived[i].onBranch == Some(b) && arrived[i].nextParent == 0
      && (forall m, t :: i < m < |g| ==> !HasSlot(arrived[m], t, b))
  {
    ChildArrives(g, rows, child, Row(i), b, i);
    RegisterOwn(g, rows[i], i, b, b + 1);
    var reached := ParentProcessed(rows, child);
    var v' := AddToBranch(Register(rows[i], rows[i].nextX, Row(i), b), b, rows[i].nextX);
    WorkUpdate(g, reached, i, v', |g|);
    SettledKept(g, reached, i, v', i);
  }

  lemma ArriveUnfolds(g: Graph, rows: seq<Vertex>, child: nat, b: nat, i: nat)
    requires child < i < |rows| == |g| && rows[i].onBranch.None?
    ensures WalkRow(g, Walk(rows, child, Row(i), false), b, i).rows
         == ParentProcessed(rows, child)[
              i := AddToBranch(Register(rows[i], rows[i].nextX, Row(i), b), b, rows[i].nextX)]
  {
    var point := rows[i].nextX;
    var walked := ParentProcessed(rows[i := Register(rows[i], point, Row(i), b)], child);
    assert walked[i := AddToBranch(walked[i], b, point)] ==
      ParentProcessed(rows, child)[i := AddToBranch(walked[i], b, point)];
  }

  lemma JoinUnfolds(g: Graph, rows: seq<Vertex>, child: nat, b: nat, i: nat)
    requires child < i < |rows| == |g| && rows[i].onBranch.Some? && rows[i].x != rows[i].nextX
    ensures WalkRow(g, Walk(rows, child, Row(i), false), b, i).rows == ParentProcessed(rows, child)
  {
    assert rows[i := rows[i]] == rows;
    assert ParentProcessed(rows, child)[i := rows[i]] == ParentProcessed(rows, child);
  }

  /** A walk that goes on, or has already settled everything it was due to. */
  ghost predicate WalkOk(g: Graph, w: Walk, b: nat, i: nat) {
    if w.stopped then |w.rows| == |g| && RowsOk(g, w.rows, b + 1) && SettledExcept(g, w.rows, -1)
    else Walking(g, w.rows, w.child, w.target, b, i)
  }

  /** Links a walk still has to account for. */
  function Owing(w: Walk): nat {
    if w.stopped then 0 else Due(w.target)
  }

  /** Visiting one row keeps the walk going correctly. */
  lemma WalkRowKeeps(g: Graph, w: Walk, b: nat, i: nat)
    requires Walking(g, w.rows, w.child, w.target, b, i) && i < |g| && !w.stopped
    ensures var w' := WalkRow(g, w, b, i);
      && WalkOk(g, w', b, i + 1)
      && GrowsAt(w.rows, w'.rows, i)
      && Remaining(g, w'.rows) - Owing(w') <= Remaining(g, w.rows) - Owing(w)
  {
    var rows, child := w.rows, w.child;
    if w.target != Row(i) {
      PassRow(g, rows, child, w.target, b, i);
    } else if rows[i].onBranch.Some? {
      assert VertexOk(g, rows[i], b + 1, i);
      ChildArrives(g, rows, child, w.target, b, i);
      JoinUnfolds(g, rows, child, b, i);
    } else {
      ArriveUnfolds(g, rows, child, b, i);
      ArriveRow(g, rows, child, b, i);
      var w' := WalkRow(g, w, b, i);
      if g[i] == [] {
        assert Settled(g, w'.rows, i);
      } else {
        assert ReservedUpTo(g, w'.rows, i, i + 1);
      }
    }
  }

  /** What the branch arm leaves behind: the invariant, at most one more point per row, the owed work done. */
  ghost predicate WalkDone(g: Graph, w: Walk, rows': seq<Vertex>, b: nat, i: nat) {
    && |g| == |w.rows|
    && GrowsFrom(w.rows, rows', i)
    && RowsOk(g, rows', b + 1)
    && SettledExcept(g, rows', -1)
    && Remaining(g, rows') <= Remaining(g, w.rows) - Owing(w)
  }

  lemma WalkDoneThen(g: Graph, w: Walk, w': Walk, rows': seq<Vertex>, b: nat, i: nat)
    requires |g| == |w.rows| == |w'.rows| && GrowsAt(w.rows, w'.rows, i) && WalkDone(g, w', rows', b, i + 1)
    requires Remaining(g, w'.rows) - Owing(w') <= Remaining(g, w.rows) - Owing(w)
    ensures WalkDone(g, w, rows', b, i)
  {
    GrowsThen(w.rows, w'.rows, rows', i);
  }

  lemma WalkEnds(g: Graph, w: Walk, b: nat, i: nat)
    requires i <= |g| == |w.rows| && w.child < |g| && WalkOk(g, w, b, i)
    requires w.stopped || i == |g|
    ensures WalkDone(g, w, BranchWalk(g, w, b, i), b, i)
  {
    if !w.stopped && w.target == Outside {
      ChildArrives(g, w.rows, w.child, w.target, b, i);
    }
  }

  lemma NextRow(g: Graph, w: Walk, b: nat, i: nat) returns (w': Walk)
    requires i < |g| == |w.rows| && w.child < |g| && WalkOk(g, w, b, i) && !w.stopped
    ensures |w'.rows| == |g| && w'.child < |g| && WalkOk(g, w', b, i + 1)
    ensures GrowsAt(w.rows, w'.rows, i)
    ensures Remaining(g, w'.rows) - Owing(w') <= Remaining(g, w.rows) - Owing(w)
    ensures BranchWalk(g, w, b, i) == BranchWalk(g, w', b, i + 1)
  {
    WalkRowKeeps(g, w, b, i);
    w' := WalkRow(g, w, b, i);
  }

  lemma {:induction false} WalkKeeps(g: Graph, w: Walk, b: nat, i: nat)
    requires i <= |g| == |w.rows| && w.child < |g| && WalkOk(g, w, b, i)
    ensures WalkDone(g, w, BranchWalk(g, w, b, i), b, i)
    decreases |g| - i
  {
    if w.stopped || i == |g| {
      WalkEnds(g, w, b, i);
    } else {
      var w' := NextRow(g, w, b, i);
      WalkKeeps(g, w', b, i + 1);
      WalkDoneThen(g, w, w', BranchWalk(g, w', b, i + 1), b, i);
    }
  }

  /**
   * The merge arm never goes past the first row below the child: the point it asks
   * about is the one it has just registered.
   */
  lemma MergeStopsAtOnce(rows: seq<Vertex>, child: nat, parent: nat, b: nat, i: nat, branches: nat)
    requires child < i < |rows| && SlotsOk(rows[i], branches)
    ensures MergeWalk(rows, child, parent, b, i)
         == ParentProcessed(
              if HasSlot(rows[i], Row(parent), b) then rows
              else rows[i := Register(rows[i], rows[i].nextX, Row(parent), b)], child)
  {
    var cur := rows[i];
    var existing := PointConnectingTo(cur.connections, Row(parent), b, 0);
    if existing.Some? {
      assert rows[i := cur] == rows;
    } else {
      var moved := Register(cur, cur.nextX, Row(parent), b);
      assert moved.connections[cur.nextX] == Some(Slot(Row(parent), b));
    }
  }

  /** Joining an already placed parent keeps the invariant and does one link. */
  lemma MergeKeeps(g: Graph, w: World, s: nat)
    requires Inv(g, w) && s < |g| && TakesMergeArm(g, w.rows, s)
    ensures Inv(g, Run(g, w, s))
    ensures GrowsFrom(w.rows, Run(g, w, s).rows, s + 1)
    ensures Remaining(g, Run(g, w, s).rows) == Remaining(g, w.rows) - 1
  {
    var parent := NextParent(g, w.rows, s).row;
    var b := w.rows[parent].onBranch.value;
    assert VertexOk(g, w.rows[s + 1], w.branches, s + 1) && VertexOk(g, w.rows[parent], w.branches, parent);
    MergeStopsAtOnce(w.rows, s, parent, b, s + 1, w.branches);
    var moved := w.rows;
    if !HasSlot(w.rows[s + 1], Row(parent), b) {
      moved := TakePoint(g, w.rows, s + 1, Row(parent), b, w.branches);
    }
    LinkDone(g, moved, s, w.branches);
    assert GrowsFrom(w.rows, moved, s + 1);
  }

  lemma TakePoint(g: Graph, rows: seq<Vertex>, i: nat, target: Target, b: nat, branches: nat)
    returns (moved: seq<Vertex>)
    requires RowsOk(g, rows, branches) && SettledExcept(g, rows, -1)
    requires i < |g| && b < branches && !HasSlot(rows[i], target, b)
    requires target.Row? ==> target.row > i
    ensures moved == rows[i := Register(rows[i], rows[i].nextX, target, b)]
    ensures RowsOk(g, moved, branches) && SettledExcept(g, moved, -1)
    ensures GrowsFrom(rows, moved, i) && Remaining(g, moved) == Remaining(g, rows)
    ensures forall k :: 0 <= k < |g| ==>
        moved[k].nextParent == rows[k].nextParent && moved[k].onBranch == rows[k].onBranch
  {
    RegisterFree(g, rows[i], i, target, b, branches);
    var v' := Register(rows[i], rows[i].nextX, target, b);
    moved := rows[i := v'];
    WorkUpdate(g, rows, i, v', |g|);
    SettledKept(g, rows, i, v', -1);
  }

  /** Counting one more parent of a settled row as done. */
  lemma LinkDone(g: Graph, rows: seq<Vertex>, s: nat, branches: nat)
    requires RowsOk(g, rows, branches) && SettledExcept(g, rows, -1)
    requires s < |g| && rows[s].onBranch.Some? && rows[s].nextParent < |g[s]|
    ensures RowsOk(g, ParentProcessed(rows, s), branches)
    ensures SettledExcept(g, ParentProcessed(rows, s), -1)
    ensures Remaining(g, ParentProcessed(rows, s)) == Remaining(g, rows) - 1
  {
    var v' := rows[s].(nextParent := rows[s].nextParent + 1);
    assert VertexOk(g, rows[s], branches, s) && VertexOk(g, v', branches, s);
    WorkUpdate(g, rows, s, v', |g|);
    SettledKept(g, rows, s, v', -1);
  }

  /** Starting a branch at row `s` gives the branch arm its invariant. */
  lemma BranchBegins(g: Graph, w: World, s: nat) returns (begun: seq<Vertex>)
    requires Inv(g, w) && s < |g| && Unfinished(g, w.rows, s) && !TakesMergeArm(g, w.rows, s)
    ensures begun == w.rows[s := Begun(w.rows[s], s, w.branches)]
    ensures GrowsAt(w.rows, begun, s)
    ensures Walking(g, begun, s, NextParent(g, w.rows, s), w.branches, s + 1)
    ensures Remaining(g, begun) == Remaining(g, w.rows) - (if w.rows[s].onBranch.None? then 1 else 0)
    ensures Run(g, w, s) ==
      World(BranchWalk(g, Walk(begun, s, NextParent(g, w.rows, s), false), w.branches, s + 1), w.branches + 1)
  {
    NewBranchIsUnused(g, w.rows, w.branches);
    if w.rows[s].onBranch.None? {
      begun := PlaceFirst(g, w.rows, s, w.branches);
    } else {
      begun := w.rows;
      assert VertexOk(g, w.rows[s], w.branches, s) && Settled(g, begun, s);
      assert w.rows[s := w.rows[s]] == w.rows;
    }
  }

  /** The row a branch starts from takes its next free point for itself. */
  lemma PlaceFirst(g: Graph, rows: seq<Vertex>, s: nat, b: nat) returns (begun: seq<Vertex>)
    requires WellFormed(g) && RowsOk(g, rows, b + 1) && SettledExcept(g, rows, -1)
    requires s < |g| && rows[s].onBranch.None?
    requires forall m, t :: 0 <= m < |g| ==> !HasSlot(rows[m], t, b)
    ensures begun == rows[s := Register(AddToBranch(rows[s], b, rows[s].nextX), rows[s].nextX, Row(s), b)]
    ensures GrowsAt(rows, begun, s)
    ensures Walking(g, begun, s, NextParent(g, rows, s), b, s + 1)
    ensures Remaining(g, begun) == Remaining(g, rows) - 1
  {
    var v := rows[s];
    RegisterOwn(g, v, s, b, b + 1);
    var v' := Register(AddToBranch(v, b, v.nextX), v.nextX, Row(s), b);
    begun := rows[s := v'];
    WorkUpdate(g, rows, s, v', |g|);
    SettledKept(g, rows, s, v', s);
    assert g[s] != [] ==> ReservedUpTo(g, begun, s, s + 1);
  }

  /** The next branch number does not occur in any slot. */
  lemma NewBranchIsUnused(g: Graph, rows: seq<Vertex>, branches: nat)
    requires RowsOk(g, rows, branches)
    ensures RowsOk(g, rows, branches + 1)
    ensures forall m, t :: 0 <= m < |g| ==> !HasSlot(rows[m], t, branches)
  {
    forall k | 0 <= k < |g| ensures VertexOk(g, rows[k], branches + 1, k) {
      assert VertexOk(g, rows[k], branches, k);
    }
    forall m, t | 0 <= m < |g| ensures !HasSlot(rows[m], t, branches) {
      assert VertexOk(g, rows[m], branches, m);
      NoSlotYet(rows[m], branches, t);
    }
  }

  lemma NoSlotYet(v: Vertex, branches: nat, target: Target)
    requires SlotsOk(v, branches)
    ensures !HasSlot(v, target, branches)
  {
  }

  /**
   * One run on an unfinished row: the invariant stays, no row takes more than one new
   * point, and the work left strictly falls.
   */
  lemma RunKeeps(g: Graph, w: World, s: nat)
    requires Inv(g, w) && s < |g| && Unfinished(g, w.rows, s)
    ensures var w' := Run(g, w, s);
      && Inv(g, w')
      && GrowsFrom(w.rows, w'.rows, 0)
      && 0 <= Remaining(g, w'.rows) < Remaining(g, w.rows)
  {
    if TakesMergeArm(g, w.rows, s) {
      MergeKeeps(g, w, s);
      GrowsLess(w.rows, Run(g, w, s).rows, s + 1);
    } else {
      var begun := BranchBegins(g, w, s);
      var walk := Walk(begun, s, NextParent(g, w.rows, s), false);
      WalkKeeps(g, walk, w.branches, s + 1);
      var rows' := BranchWalk(g, walk, w.branches, s + 1);
      GrowsThen(w.rows, begun, rows', s);
      GrowsLess(w.rows, rows', s);
    }
    WorkNonNegative(g, Run(g, w, s).rows, Run(g, w, s).branches, |g|);
  }

  lemma GrowsLess(rows: seq<Vertex>, rows': seq<Vertex>, i: nat)
    requires GrowsFrom(rows, rows', i)
    ensures GrowsFrom(rows, rows', 0)
  {
  }

  // ---------- the whole solver ----------

  /** Runs row `idx` until it is finished, then the rows below it. */
  function Solve(g: Graph, w: World, idx: nat): (w': World)
    requires Inv(g, w) && idx <= |g|
    ensures |w'.rows| == |g|
    decreases Remaining(g, w.rows), |g| - idx
  {
    WorkNonNegative(g, w.rows, w.branches, |g|);
    if idx == |g| then w
    else if Unfinished(g, w.rows, idx) then
      RunKeeps(g, w, idx);
      Solve(g, Run(g, w, idx), idx)
    else Solve(g, w, idx + 1)
  }

  /** Points kept, and at most `taken` more of them, on every row. */
  ghost predicate GrowsBy(rows: seq<Vertex>, rows': seq<Vertex>, taken: nat) {
    |rows| == |rows'| && forall k :: 0 <= k < |rows| ==> RowGrows(rows[k], rows'[k], taken)
  }

  ghost predicate FinishedBelow(g: Graph, rows: seq<Vertex>, idx: nat)
    requires |g| == |rows|
  {
    forall k :: 0 <= k < idx && k < |g| ==> !Unfinished(g, rows, k)
  }

  /** A run never undoes a finished row. */
  lemma FinishedStays(g: Graph, w: World, rows': seq<Vertex>, idx: nat)
    requires WellFormed(g) && RowsOk(g, w.rows, w.branches) && |rows'| == |g| && GrowsFrom(w.rows, rows', 0)
    requires FinishedBelow(g, w.rows, idx)
    ensures FinishedBelow(g, rows', idx)
  {
    forall k | 0 <= k < idx && k < |g| ensures !Unfinished(g, rows', k) {
      assert !Unfinished(g, w.rows, k) && VertexOk(g, w.rows[k], w.branches, k);
      assert RowGrows(w.rows[k], rows'[k], 1);
    }
  }

  lemma {:induction false} SolveKeeps(g: Graph, w: World, idx: nat)
    requires Inv(g, w) && idx <= |g| && FinishedBelow(g, w.rows, idx) && Remaining(g, w.rows) >= 0
    ensures var w' := Solve(g, w, idx);
      && Inv(g, w')
      && FinishedBelow(g, w'.rows, |g|)
      && GrowsBy(w.rows, w'.rows, Remaining(g, w.rows))
    decreases Remaining(g, w.rows), |g| - idx
  {
    if idx < |g| {
      if Unfinished(g, w.rows, idx) {
        RunKeeps(g, w, idx);
        var mid := Run(g, w, idx);
        FinishedStays(g, w, mid.rows, idx);
        SolveKeeps(g, mid, idx);
        GrowsChain(w.rows, mid.rows, Solve(g, mid, idx).rows, Remaining(g, mid.rows), Remaining(g, w.rows));
      } else {
        SolveKeeps(g, w, idx + 1);
      }
    }
  }

  lemma GrowsChain(rows: seq<Vertex>, mid: seq<Vertex>, rows': seq<Vertex>, rest: nat, all: nat)
    requires GrowsFrom(rows, mid, 0) && GrowsBy(mid, rows', rest) && rest < all
    ensures GrowsBy(rows, rows', all)
  {
    forall k | 0 <= k < |rows| ensures RowGrows(rows[k], rows'[k], all) {
      assert RowGrows(rows[k], mid[k], 1) && RowGrows(mid[k], rows'[k], rest);
    }
  }

  // ---------- what the solver delivers ----------

  /** Parent links of the first `k` rows, in or out of the list. */
  function Links(g: Graph, k: nat): nat
    requires k <= |g|
  {
    if k == 0 then 0 else Links(g, k - 1) + |g[k - 1]|
  }

  lemma StartOk(g: Graph)
    requires WellFormed(g)
    ensures Inv(g, Start(g))
    ensures Remaining(g, Start(g).rows) == |g| + Links(g, |g|)
  {
    StartWork(g, |g|);
  }

  lemma {:induction false} StartWork(g: Graph, k: nat)
    requires k <= |g|
    ensures Work(g, Start(g).rows, k) == k + Links(g, k)
  {
    if k > 0 {
      StartWork(g, k - 1);
    }
  }

  /** The rows the solver ends with. */
  function Solved(g: Graph): (rows: seq<Vertex>)
    requires WellFormed(g)
    ensures |rows| == |g|
  {
    StartOk(g);
    Solve(g, Start(g), 0).rows
  }

  /** Every row is on a branch, has walked to all its parents, and stands on a slot of its own. */
  lemma EveryRowIsPlaced(g: Graph, k: nat)
    requires WellFormed(g) && k < |g|
    ensures var v := Solved(g)[k];
      && v.onBranch.Some? && v.nextParent == |g[k]|
      && |v.connections| == v.nextX && None !in v.connections
      && v.x < v.nextX && v.connections[v.x] == Some(Slot(Row(k), v.onBranch.value))
    ensures forall s, t :: 0 <= s < t < |Solved(g)[k].connections| ==>
        Solved(g)[k].connections[s] != Solved(g)[k].connections[t]
    ensures LeadsDown(Solved(g)[k], k)
  {
    StartOk(g);
    SolveKeeps(g, Start(g), 0);
    var w := Solve(g, Start(g), 0);
    assert VertexOk(g, w.rows[k], w.branches, k);
    assert !Unfinished(g, w.rows, k);
  }

  /** The solver never needs more lanes than there are rows and parent links. */
  lemma LanesAreBounded(g: Graph, k: nat)
    requires WellFormed(g) && k < |g|
    ensures Solved(g)[k].x < |g| + Links(g, |g|)
  {
    StartOk(g);
    SolveKeeps(g, Start(g), 0);
    EveryRowIsPlaced(g, k);
    assert RowGrows(Start(g).rows[k], Solved(g)[k], Remaining(g, Start(g).rows));
  }

  /** Between a row and its first parent every row holds a slot to that parent on the row's own branch. */
  lemma FirstParentIsReserved(g: Graph, k: nat, m: nat)
    requires WellFormed(g) && k < |g| && g[k] != [] && g[k][0].Row?
    requires k < m < g[k][0].row
    ensures Solved(g)[k].onBranch.Some?
    ensures HasSlot(Solved(g)[m], g[k][0], Solved(g)[k].onBranch.value)
  {
    StartOk(g);
    SolveKeeps(g, Start(g), 0);
    EveryRowIsPlaced(g, k);
    assert Settled(g, Solved(g), k);
  }
}
