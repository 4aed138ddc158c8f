/**
 * The topology solver as it runs: vertices that are updated in place and refer to
 * each other, and branches told apart by identity. Every operation is tied to the
 * value model of `PathModel`.
 */
module PathSolver {
  import opened Wrappers
  import PathModel

  /** A branch is an identity; the number records the order of creation. */
  class Branch {
    ghost const number: nat

    constructor (ghost number: nat)
      ensures this.number == number
    {
      this.number := number;
    }
  }

  datatype Connection = Connection(connectsTo: Vertex?, onBranch: Branch)

  const NULL_VERTEX_ID := -1

  class Vertex {
    const id: int
    var x: nat
    var parents: seq<Vertex>
    var nextParent: nat
    var onBranch: Branch?
    var nextX: nat
    var connections: seq<Option<Connection>>

    constructor (id: int)
      ensures this.id == id && parents == [] && Model() == PathModel.NEW_VERTEX
    {
      this.id := id;
      x, parents, nextParent, onBranch, nextX, connections := 0, [], 0, null, 0, [];
    }

    ghost function Model(): PathModel.Vertex
      reads this
    {
      PathModel.Vertex(x, nextX, nextParent, BranchNumber(onBranch), SlotsOf(connections))
    }

    method AddParent(v: Vertex)
      modifies this`parents
      ensures parents == old(parents) + [v]
    {
      parents := parents + [v];
    }

    function GetNextParent(): Vertex?
      reads this
    {
      if nextParent < |parents| then parents[nextParent] else null
    }

    method RegisterParentProcessed()
      modifies this`nextParent
      ensures Model() == old(Model()).(nextParent := old(nextParent) + 1)
    {
      nextParent := nextParent + 1;
    }

    predicate IsNotOnBranch()
      reads this
    {
      onBranch == null
    }

    predicate IsMerge()
      reads this
    {
      |parents| > 1
    }

    /** Searches the points in order for one that leads to `vertex` on `branch`. */
    method GetPointConnectingTo(vertex: Vertex, branch: Branch) returns (point: Option<nat>)
      requires forall c :: c in connections ==> Comparable(c, vertex, branch)
      ensures point == PathModel.PointConnectingTo(SlotsOf(connections), TargetOf(vertex), branch.number, 0)
    {
      ghost var slots := SlotsOf(connections);
      for i := 0 to |connections|
        invariant PathModel.PointConnectingTo(slots, TargetOf(vertex), branch.number, 0)
               == PathModel.PointConnectingTo(slots, TargetOf(vertex), branch.number, i)
      {
        assert connections[i] in connections;
        if connections[i].Some? && connections[i].value.connectsTo == vertex &&
          connections[i].value.onBranch == branch {
          return Some(i);
        }
      }
      return None;
    }

    /** Takes point `x`, but only if it is the next free one. */
    method RegisterUnavailablePoint(x: nat, connectsToVertex: Vertex?, branch: Branch)
      modifies this`nextX, this`connections
      ensures Model() == PathModel.Register(old(Model()), x, TargetOf(connectsToVertex), branch.number)
      ensures forall c :: c in connections ==>
          c in old(connections) || c == None || c == Some(Connection(connectsToVertex, branch))
    {
      if x == nextX {
        nextX := x + 1;
        while |connections| <= x
          invariant nextX == x + 1
          invariant PathModel.Pad(SlotsOf(connections), x + 1) == PathModel.Pad(old(SlotsOf(connections)), x + 1)
          invariant forall c :: c in connections ==> c in old(connections) || c == None
          decreases x + 1 - |connections|
        {
          assert SlotsOf(connections + [None]) == SlotsOf(connections) + [None];
          connections := connections + [None];
        }
        ghost var padded := connections;
        assert PathModel.Pad(SlotsOf(padded), x + 1) == SlotsOf(padded);
        connections := connections[x := Some(Connection(connectsToVertex, branch))];
        assert SlotsOf(connections) ==
          SlotsOf(padded)[x := Some(PathModel.Slot(TargetOf(connectsToVertex), branch.number))];
      }
    }

    method AddToBranch(branch: Branch, x: nat)
      modifies this`onBranch, this`x
      ensures Model() == PathModel.AddToBranch(old(Model()), branch.number, x)
      ensures onBranch == if old(onBranch) == null then branch else old(onBranch)
    {
      if onBranch == null {
        onBranch := branch;
        this.x := x;
      }
    }
  }

  // ---------- references and the values they stand for ----------

  ghost function TargetOf(v: Vertex?): PathModel.Target {
    if v == null then PathModel.Nowhere else if v.id < 0 then PathModel.Outside else PathModel.Row(v.id)
  }

  ghost function BranchNumber(b: Branch?): Option<nat> {
    if b == null then None else Some(b.number)
  }

  ghost function SlotOf(c: Option<Connection>): Option<PathModel.Slot> {
    match c
    case None => None
    case Some(c) => Some(PathModel.Slot(TargetOf(c.connectsTo), c.onBranch.number))
  }

  ghost function SlotsOf(cs: seq<Option<Connection>>): seq<Option<PathModel.Slot>> {
    seq(|cs|, i requires 0 <= i < |cs| => SlotOf(cs[i]))
  }

  /** Comparing a connection by identity gives the same answer as comparing the values. */
  ghost predicate Comparable(c: Option<Connection>, vertex: Vertex, branch: Branch) {
    c.Some? ==>
      && (TargetOf(c.value.connectsTo) == TargetOf(vertex) ==> c.value.connectsTo == vertex)
      && (c.value.onBranch.number == branch.number ==> c.value.onBranch == branch)
  }

  /** The vertices stand on the rows their ids say; `outside` stands for every parent that is not listed. */
  ghost predicate Placed(vertices: seq<Vertex>, outside: Vertex) {
    outside.id == NULL_VERTEX_ID && forall k :: 0 <= k < |vertices| ==> vertices[k].id == k
  }

  ghost predicate Canonical(vertices: seq<Vertex>, outside: Vertex, v: Vertex?) {
    v == null || v == outside || (0 <= v.id < |vertices| && vertices[v.id] == v)
  }

  ghost predicate Known(known: seq<Branch>, b: Branch) {
    b.number < |known| && known[b.number] == b
  }

  /** Everything a vertex refers to is one of the vertices or branches in play. */
  ghost predicate Refers(vertices: seq<Vertex>, outside: Vertex, known: seq<Branch>, v: Vertex)
    reads v
  {
    && (forall c :: c in v.connections && c.Some? ==>
          Canonical(vertices, outside, c.value.connectsTo) && Known(known, c.value.onBranch))
    && (v.onBranch != null ==> Known(known, v.onBranch))
  }

  ghost predicate ParentsAre(vertices: seq<Vertex>, outside: Vertex, parents: seq<Vertex>,
                             targets: seq<PathModel.Target>) {
    && |parents| == |targets|
    && forall p :: 0 <= p < |parents| ==> Canonical(vertices, outside, parents[p]) && TargetOf(parents[p]) == targets[p]
  }

  ghost predicate RowRep(vertices: seq<Vertex>, outside: Vertex, known: seq<Branch>, g: PathModel.Graph, k: nat,
                         row: PathModel.Vertex)
    requires k < |vertices| == |g|
    reads vertices[k]
  {
    && vertices[k].Model() == row
    && ParentsAre(vertices, outside, vertices[k].parents, g[k])
    && Refers(vertices, outside, known, vertices[k])
  }

  /** The vertices are in the state that the value model calls `rows`. */
  ghost predicate Represents(vertices: seq<Vertex>, outside: Vertex, known: seq<Branch>, g: PathModel.Graph,
                             rows: seq<PathModel.Vertex>)
    reads vertices
  {
    && |vertices| == |g| == |rows|
    && Placed(vertices, outside)
    && forall k {:trigger RowRep(vertices, outside, known, g, k, rows[k])} :: 0 <= k < |g| ==>
         RowRep(vertices, outside, known, g, k, rows[k])
  }

  /** Creating a branch changes no row. */
  lemma BranchAdded(vertices: seq<Vertex>, outside: Vertex, known: seq<Branch>, g: PathModel.Graph,
                    rows: seq<PathModel.Vertex>, b: Branch)
    requires Represents(vertices, outside, known, g, rows) && b.number == |known|
    ensures Represents(vertices, outside, known + [b], g, rows)
  {
    forall k | 0 <= k < |g| ensures RowRep(vertices, outside, known + [b], g, k, rows[k]) {
      assert RowRep(vertices, outside, known, g, k, rows[k]);
    }
  }

  lemma AllComparable(vertices: seq<Vertex>, outside: Vertex, known: seq<Branch>, v: Vertex, vertex: Vertex,
                      branch: Branch)
    requires Placed(vertices, outside) && Refers(vertices, outside, known, v)
    requires Canonical(vertices, outside, vertex) && Known(known, branch)
    ensures forall c :: c in v.connections ==> Comparable(c, vertex, branch)
  {
  }

  lemma NextParentIs(vertices: seq<Vertex>, outside: Vertex, known: seq<Branch>, g: PathModel.Graph,
                     rows: seq<PathModel.Vertex>, k: nat)
    requires Represents(vertices, outside, known, g, rows) && k < |g|
    ensures TargetOf(vertices[k].GetNextParent()) == PathModel.NextParent(g, rows, k)
    ensures Canonical(vertices, outside, vertices[k].GetNextParent())
  {
    assert RowRep(vertices, outside, known, g, k, rows[k]);
  }

  // ---------- one run ----------

  /** Row `i` registers a point; seen from outside, one row of the model changes. */
  method TakePoint(vertices: seq<Vertex>, outside: Vertex, i: nat, x: nat, target: Vertex?, branch: Branch,
                   ghost known: seq<Branch>, ghost g: PathModel.Graph, ghost rows: seq<PathModel.Vertex>)
    requires Represents(vertices, outside, known, g, rows) && i < |vertices|
    requires Canonical(vertices, outside, target) && Known(known, branch)
    modifies vertices[i]
    ensures Represents(vertices, outside, known, g,
                       rows[i := PathModel.Register(rows[i], x, TargetOf(target), branch.number)])
  {
    assert RowRep(vertices, outside, known, g, i, rows[i]);
    vertices[i].RegisterUnavailablePoint(x, target, branch);
    ghost var rows' := rows[i := PathModel.Register(rows[i], x, TargetOf(target), branch.number)];
    forall k | 0 <= k < |g| ensures RowRep(vertices, outside, known, g, k, rows'[k]) {
      assert old(RowRep(vertices, outside, known, g, k, rows[k]));
    }
  }

  method JoinBranch(vertices: seq<Vertex>, outside: Vertex, i: nat, x: nat, branch: Branch,
                    ghost known: seq<Branch>, ghost g: PathModel.Graph, ghost rows: seq<PathModel.Vertex>)
    requires Represents(vertices, outside, known, g, rows) && i < |vertices| && Known(known, branch)
    modifies vertices[i]
    ensures Represents(vertices, outside, known, g, rows[i := PathModel.AddToBranch(rows[i], branch.number, x)])
  {
    assert RowRep(vertices, outside, known, g, i, rows[i]);
    vertices[i].AddToBranch(branch, x);
    ghost var rows' := rows[i := PathModel.AddToBranch(rows[i], branch.number, x)];
    forall k | 0 <= k < |g| ensures RowRep(vertices, outside, known, g, k, rows'[k]) {
      assert old(RowRep(vertices, outside, known, g, k, rows[k]));
    }
  }

  method CountParent(vertices: seq<Vertex>, outside: Vertex, i: nat,
                     ghost known: seq<Branch>, ghost g: PathModel.Graph, ghost rows: seq<PathModel.Vertex>)
    requires Represents(vertices, outside, known, g, rows) && i < |vertices|
    modifies vertices[i]
    ensures Represents(vertices, outside, known, g, PathModel.ParentProcessed(rows, i))
  {
    assert RowRep(vertices, outside, known, g, i, rows[i]);
    vertices[i].RegisterParentProcessed();
    ghost var rows' := PathModel.ParentProcessed(rows, i);
    forall k | 0 <= k < |g| ensures RowRep(vertices, outside, known, g, k, rows'[k]) {
      assert old(RowRep(vertices, outside, known, g, k, rows[k]));
    }
  }

  /** Looks for a point of row `i` that leads to `vertex` on `branch`. */
  method FindPoint(vertices: seq<Vertex>, outside: Vertex, i: nat, vertex: Vertex, branch: Branch,
                   ghost known: seq<Branch>, ghost g: PathModel.Graph, ghost rows: seq<PathModel.Vertex>)
    returns (point: Option<nat>)
    requires Represents(vertices, outside, known, g, rows) && i < |vertices|
    requires Canonical(vertices, outside, vertex) && Known(known, branch)
    ensures point == PathModel.PointConnectingTo(rows[i].connections, TargetOf(vertex), branch.number, 0)
  {
    assert RowRep(vertices, outside, known, g, i, rows[i]);
    AllComparable(vertices, outside, known, vertices[i], vertex, branch);
    point := vertices[i].GetPointConnectingTo(vertex, branch);
  }

  /** The merge arm: `child`, already on a branch, joins `parent`, already on `branch`. */
  method RunMerge(vertices: seq<Vertex>, outside: Vertex, child: nat, parent: Vertex, branch: Branch,
                  ghost known: seq<Branch>, ghost g: PathModel.Graph, ghost rows: seq<PathModel.Vertex>)
    requires Represents(vertices, outside, known, g, rows) && child < |vertices|
    requires Canonical(vertices, outside, parent) && parent.id >= 0 && Known(known, branch)
    modifies vertices
    ensures Represents(vertices, outside, known, g,
        PathModel.MergeWalk(rows, child, parent.id, branch.number, child + 1))
  {
    ghost var now := rows;
    for i := child + 1 to |vertices|
      invariant Represents(vertices, outside, known, g, now)
      invariant PathModel.MergeWalk(now, child, parent.id, branch.number, i)
             == PathModel.MergeWalk(rows, child, parent.id, branch.number, child + 1)
    {
      var curPoint := FindPoint(vertices, outside, i, parent, branch, known, g, now);
      assert RowRep(vertices, outside, known, g, i, now[i]);
      var x := if curPoint.Some? then curPoint.value else vertices[i].nextX;
      TakePoint(vertices, outside, i, x, parent, branch, known, g, now);
      now := now[i := PathModel.Register(now[i], x, PathModel.Row(parent.id), branch.number)];
      var found := FindPoint(vertices, outside, i, parent, branch, known, g, now);
      if found.Some? {
        CountParent(vertices, outside, child, known, g, now);
        return;
      }
    }
  }

  /** The branch arm visits row `i` on its way from `child` to `parentVertex`. */
  method VisitRow(vertices: seq<Vertex>, outside: Vertex, child: nat, parentVertex: Vertex?, branch: Branch, i: nat,
                  ghost known: seq<Branch>, ghost g: PathModel.Graph, ghost walk: PathModel.Walk)
    returns (child': nat, parentVertex': Vertex?, stopped: bool)
    requires Represents(vertices, outside, known, g, walk.rows) && i < |vertices| && child < |vertices|
    requires Canonical(vertices, outside, parentVertex) && Known(known, branch)
    requires walk == PathModel.Walk(walk.rows, child, TargetOf(parentVertex), false)
    modifies vertices
    ensures Represents(vertices, outside, known, g, PathModel.WalkRow(g, walk, branch.number, i).rows)
    ensures Canonical(vertices, outside, parentVertex') && child' < |vertices|
    ensures var walk' := PathModel.WalkRow(g, walk, branch.number, i);
      walk'.child == child' && walk'.target == TargetOf(parentVertex') && walk'.stopped == stopped
  {
    assert RowRep(vertices, outside, known, g, i, walk.rows[i]);
    child', parentVertex', stopped := child, parentVertex, false;
    var curVertex := vertices[i];
    var x := if parentVertex == curVertex && !curVertex.IsNotOnBranch() then curVertex.x else curVertex.nextX;
    TakePoint(vertices, outside, i, x, parentVertex, branch, known, g, walk.rows);
    ghost var now := walk.rows[i := PathModel.Register(walk.rows[i], x, walk.target, branch.number)];
    if parentVertex == curVertex {
      CountParent(vertices, outside, child, known, g, now);
      now := PathModel.ParentProcessed(now, child);
      assert RowRep(vertices, outside, known, g, i, now[i]);
      var parentVertexOnBranch := !curVertex.IsNotOnBranch();
      JoinBranch(vertices, outside, i, x, branch, known, g, now);
      now := now[i := PathModel.AddToBranch(now[i], branch.number, x)];
      NextParentIs(vertices, outside, known, g, now, i);
      child', parentVertex' := i, curVertex.GetNextParent();
      stopped := parentVertex' == null || parentVertexOnBranch;
    }
  }

  /** Starts a new branch on row `startAt`. */
  method BeginBranch(vertices: seq<Vertex>, outside: Vertex, startAt: nat,
                     ghost known: seq<Branch>, ghost g: PathModel.Graph, ghost rows: seq<PathModel.Vertex>)
    returns (branch: Branch, ghost known': seq<Branch>)
    requires Represents(vertices, outside, known, g, rows) && startAt < |vertices|
    modifies vertices
    ensures known' == known + [branch] && Known(known', branch) && branch.number == |known|
    ensures Represents(vertices, outside, known', g,
        rows[startAt := PathModel.Begun(rows[startAt], startAt, branch.number)])
  {
    assert RowRep(vertices, outside, known, g, startAt, rows[startAt]);
    var vertex := vertices[startAt];
    var lastX := if vertex.IsNotOnBranch() then vertex.nextX else vertex.x;
    branch := new Branch(|known|);
    BranchAdded(vertices, outside, known, g, rows, branch);
    known' := known + [branch];
    assert Known(known', branch);
    ghost var now := rows;
    JoinBranch(vertices, outside, startAt, lastX, branch, known', g, now);
    now := now[startAt := PathModel.AddToBranch(now[startAt], branch.number, lastX)];
    TakePoint(vertices, outside, startAt, lastX, vertex, branch, known', g, now);
    now := now[startAt := PathModel.Register(now[startAt], lastX, PathModel.Row(startAt), branch.number)];
    assert now == rows[startAt := PathModel.Begun(rows[startAt], startAt, branch.number)];
  }

  /** The branch arm: a new branch runs from row `startAt` towards its next parent. */
  method RunBranch(vertices: seq<Vertex>, outside: Vertex, startAt: nat,
                   ghost known: seq<Branch>, ghost g: PathModel.Graph, ghost w: PathModel.World)
    returns (ghost known': seq<Branch>)
    requires Represents(vertices, outside, known, g, w.rows) && startAt < |vertices|
    requires |known| == w.branches && !PathModel.TakesMergeArm(g, w.rows, startAt)
    modifies vertices
    ensures Represents(vertices, outside, known', g, PathModel.Run(g, w, startAt).rows)
    ensures |known'| == PathModel.Run(g, w, startAt).branches
  {
    NextParentIs(vertices, outside, known, g, w.rows, startAt);
    var vertex := startAt;
    var parentVertex := vertices[vertex].GetNextParent();
    var branch;
    branch, known' := BeginBranch(vertices, outside, startAt, known, g, w.rows);
    ghost var now := w.rows[startAt := PathModel.Begun(w.rows[startAt], startAt, branch.number)];
    ghost var walk := PathModel.Walk(now, vertex, TargetOf(parentVertex), false);
    ghost var goal := PathModel.BranchWalk(g, walk, branch.number, startAt + 1);
    assert goal == PathModel.Run(g, w, startAt).rows;
    for i := startAt + 1 to |vertices|
      invariant Represents(vertices, outside, known', g, walk.rows)
      invariant vertex < |vertices| && Canonical(vertices, outside, parentVertex)
      invariant walk.child == vertex && walk.target == TargetOf(parentVertex) && !walk.stopped
      invariant PathModel.BranchWalk(g, walk, branch.number, i) == goal
    {
      var stopped;
      vertex, parentVertex, stopped := VisitRow(vertices, outside, vertex, parentVertex, branch, i, known', g, walk);
      walk := PathModel.WalkRow(g, walk, branch.number, i);
      if stopped {
        return;
      }
    }
    if parentVertex != null && parentVertex.id == NULL_VERTEX_ID {
      CountParent(vertices, outside, vertex, known', g, walk.rows);
    }
  }

  /** Runs the solver once on row `startAt`. */
  method Run(vertices: seq<Vertex>, outside: Vertex, startAt: nat,
             ghost known: seq<Branch>, ghost g: PathModel.Graph, ghost w: PathModel.World)
    returns (ghost known': seq<Branch>)
    requires Represents(vertices, outside, known, g, w.rows) && startAt < |vertices| && |known| == w.branches
    modifies vertices
    ensures Represents(vertices, outside, known', g, PathModel.Run(g, w, startAt).rows)
    ensures |known'| == PathModel.Run(g, w, startAt).branches
  {
    var vertex := vertices[startAt];
    var parentVertex := vertex.GetNextParent();
    NextParentIs(vertices, outside, known, g, w.rows, startAt);
    assert RowRep(vertices, outside, known, g, startAt, w.rows[startAt]);
    if parentVertex != null && parentVertex.id != NULL_VERTEX_ID {
      assert RowRep(vertices, outside, known, g, parentVertex.id, w.rows[parentVertex.id]);
    }
    if parentVertex != null && parentVertex.id != NULL_VERTEX_ID && vertex.IsMerge()
       && !vertex.IsNotOnBranch() && !parentVertex.IsNotOnBranch() {
      known' := known;
      RunMerge(vertices, outside, startAt, parentVertex, parentVertex.onBranch, known, g, w.rows);
    } else {
      known' := RunBranch(vertices, outside, startAt, known, g, w);
    }
  }
}
