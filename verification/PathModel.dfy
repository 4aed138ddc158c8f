/**
 * The topology solver on values: each row keeps a point, a next free point, the
 * number of parents already walked to, a branch, and the points already taken.
 * Branches are numbered in the order they are created.
 */
module PathModel {
  import opened Wrappers

  /** What a walk leads to: no parent left, a parent outside the list, or a row. */
  datatype Target = Nowhere | Outside | Row(row: nat)

  datatype Slot = Slot(connectsTo: Target, onBranch: nat)

  datatype Vertex = Vertex(x: nat, nextX: nat, nextParent: nat, onBranch: Option<nat>, connections: seq<Option<Slot>>)

  datatype World = World(rows: seq<Vertex>, branches: nat)

  /** The parents of each row, in order. */
  type Graph = seq<seq<Target>>

  /** In-list parents lie on later rows. */
  predicate WellFormed(g: Graph) {
    forall i, p :: 0 <= i < |g| && 0 <= p < |g[i]| ==> g[i][p] != Nowhere && (g[i][p].Row? ==> i < g[i][p].row < |g|)
  }

  const NEW_VERTEX := Vertex(0, 0, 0, None, [])

  function Start(g: Graph): World {
    World(seq(|g|, _ => NEW_VERTEX), 0)
  }

  // ---------- operations of one vertex ----------

  function NextParent(g: Graph, rows: seq<Vertex>, i: nat): Target
    requires i < |g| == |rows|
  {
    if rows[i].nextParent < |g[i]| then g[i][rows[i].nextParent] else Nowhere
  }

  /** First point of `connections`, from `from` on, that leads to `target` on branch `b`. */
  function PointConnectingTo(connections: seq<Option<Slot>>, target: Target, b: nat, from: nat): (point: Option<nat>)
    requires from <= |connections|
    ensures point.Some? ==> from <= point.value < |connections| && connections[point.value] == Some(Slot(target, b))
    ensures point.None? ==> forall k :: from <= k < |connections| ==> connections[k] != Some(Slot(target, b))
    decreases |connections| - from
  {
    if from == |connections| then None
    else if connections[from] == Some(Slot(target, b)) then Some(from)
    else PointConnectingTo(connections, target, b, from + 1)
  }

  function Pad(connections: seq<Option<Slot>>, length: nat): (padded: seq<Option<Slot>>)
    ensures |padded| == if |connections| < length then length else |connections|
    ensures connections <= padded
    decreases length - |connections|
  {
    if |connections| < length then Pad(connections + [None], length) else connections
  }

  /** Takes point `x` if it is the next free one. */
  function Register(v: Vertex, x: nat, target: Target, b: nat): Vertex {
    if x == v.nextX then
      v.(nextX := x + 1, connections := Pad(v.connections, x + 1)[x := Some(Slot(target, b))])
    else v
  }

  function AddToBranch(v: Vertex, b: nat, x: nat): Vertex {
    if v.onBranch.None? then v.(onBranch := Some(b), x := x) else v
  }

  function ParentProcessed(rows: seq<Vertex>, i: nat): seq<Vertex>
    requires i < |rows|
  {
    rows[i := rows[i].(nextParent := rows[i].nextParent + 1)]
  }

  // ---------- one run of the solver ----------

  /** The merge arm, from row `i` on: row `child` already on a branch joins its parent's branch `b`. */
  function MergeWalk(rows: seq<Vertex>, child: nat, parent: nat, b: nat, i: nat): (rows': seq<Vertex>)
    requires child < |rows| && i <= |rows|
    ensures |rows'| == |rows|
    decreases |rows| - i
  {
    if i == |rows| then rows
    else
      var cur := rows[i];
      var existing := PointConnectingTo(cur.connections, Row(parent), b, 0);
      var point := if existing.Some? then existing.value else cur.nextX;
      var moved := rows[i := Register(cur, point, Row(parent), b)];
      if PointConnectingTo(moved[i].connections, Row(parent), b, 0).Some? then ParentProcessed(moved, child)
      else MergeWalk(moved, child, parent, b, i + 1)
  }

  /** Where the branch arm stands: walking from row `child` to `target`, or stopped. */
  datatype Walk = Walk(rows: seq<Vertex>, child: nat, target: Target, stopped: bool)

  /** The branch arm visits row `i`. */
  function WalkRow(g: Graph, w: Walk, b: nat, i: nat): (w': Walk)
    requires |g| == |w.rows| && w.child < |g| && i < |g|
    ensures |w'.rows| == |w.rows| && w'.child < |g|
  {
    var cur := w.rows[i];
    var joins := w.target == Row(i) && cur.onBranch.Some?;
    var point := if joins then cur.x else cur.nextX;
    var moved := w.rows[i := Register(cur, point, w.target, b)];
    if w.target == Row(i) then
      var walked := ParentProcessed(moved, w.child);
      var arrived := walked[i := AddToBranch(walked[i], b, point)];
      var next := NextParent(g, arrived, i);
      Walk(arrived, i, next, next == Nowhere || joins)
    else w.(rows := moved)
  }

  /** The branch arm, from row `i` on. */
  function BranchWalk(g: Graph, w: Walk, b: nat, i: nat): (rows': seq<Vertex>)
    requires |g| == |w.rows| && w.child < |g| && i <= |g|
    ensures |rows'| == |g|
    decreases |g| - i
  {
    if w.stopped then w.rows
    else if i == |g| then
      if w.target == Outside then ParentProcessed(w.rows, w.child) else w.rows
    else BranchWalk(g, WalkRow(g, w, b, i), b, i + 1)
  }

  predicate TakesMergeArm(g: Graph, rows: seq<Vertex>, s: nat)
    requires s < |g| == |rows|
  {
    var parent := NextParent(g, rows, s);
    && parent.Row? && parent.row < |rows|
    && |g[s]| > 1
    && rows[s].onBranch.Some? && rows[parent.row].onBranch.Some?
  }

  /** Row `s` as a new branch leaves it: on that branch if it was on none, and on a point of its own. */
  function Begun(v: Vertex, s: nat, b: nat): Vertex {
    var point := if v.onBranch.None? then v.nextX else v.x;
    Register(AddToBranch(v, b, point), point, Row(s), b)
  }

  function Run(g: Graph, w: World, s: nat): (w': World)
    requires s < |g| == |w.rows|
    ensures |w'.rows| == |w.rows|
  {
    var parent := NextParent(g, w.rows, s);
    if TakesMergeArm(g, w.rows, s) then
      w.(rows := MergeWalk(w.rows, s, parent.row, w.rows[parent.row].onBranch.value, s + 1))
    else
      var begun := w.rows[s := Begun(w.rows[s], s, w.branches)];
      World(BranchWalk(g, Walk(begun, s, parent, false), w.branches, s + 1), w.branches + 1)
  }

  predicate Unfinished(g: Graph, rows: seq<Vertex>, i: nat)
    requires i < |g| == |rows|
  {
    NextParent(g, rows, i) != Nowhere || rows[i].onBranch.None?
  }
}
