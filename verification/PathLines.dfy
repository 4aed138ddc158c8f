/**
 * Where the solver puts a row, told without running it. Every link from a row to a
 * parent belongs to a line, and lines have ages. A row is on the oldest line that
 * leads to it; its point is the number of older lines that take a point on it.
 */
module PathLines {
  import opened Wrappers
  import opened PathModel
  import PathProofs
  import PathColumns

  // ---------- lines ----------

  /** A line begins under a row with one of its parents; a line with parent 0 begins with the row itself. */
  datatype Age = Age(row: nat, parent: nat)

  predicate Older(a: Age, b: Age) {
    a.row < b.row || (a.row == b.row && a.parent < b.parent)
  }

  type Lines = seq<Age>

  /** The line of a link: a first parent continues the line of its child, any other parent begins one. */
  function AgeOf(lines: Lines, c: nat, p: nat): Age
    requires c < |lines|
  {
    if p == 0 then lines[c] else Age(c, p)
  }

  /** The oldest of `best` and the lines of the links to row `k` from rows above `c`, and from row `c` the first `p`. */
  function Oldest(g: Graph, lines: Lines, k: nat, c: nat, p: nat, best: Option<Age>): Option<Age>
    requires |lines| <= |g| && c <= |lines| && (if c < |lines| then p <= |g[c]| else p == 0)
    decreases c, p
  {
    if p > 0 then
      var a := AgeOf(lines, c, p - 1);
      var better := g[c][p - 1] == Row(k) && (best.None? || Older(a, best.value));
      Oldest(g, lines, k, c, p - 1, if better then Some(a) else best)
    else if c > 0 then Oldest(g, lines, k, c - 1, |g[c - 1]|, best)
    else best
  }

  /** The lines of the first `n` rows: the oldest that leads there, or a new one. */
  function LinesTo(g: Graph, n: nat): (lines: Lines)
    requires n <= |g|
    ensures |lines| == n
  {
    if n == 0 then []
    else
      var front := LinesTo(g, n - 1);
      var oldest := Oldest(g, front, n - 1, n - 1, 0, None);
      front + [if oldest.Some? then oldest.value else Age(n - 1, 0)]
  }

  /** No link to row `k` is on an older line, and one is on its line; or there is none and the row begins one. */
  ghost predicate LineRight(g: Graph, lines: Lines, k: nat) {
    && k < |lines| == |g|
    && (forall c: nat, p: nat {:trigger PathColumns.Names(g, c, p, k)} :: PathColumns.Names(g, c, p, k) ==>
          !Older(AgeOf(lines, c, p), lines[k]))
    && (Begins(g, lines, k) || exists c: nat, p: nat {:trigger PathColumns.Names(g, c, p, k)} ::
          PathColumns.Names(g, c, p, k) && AgeOf(lines, c, p) == lines[k])
  }

  ghost predicate Begins(g: Graph, lines: Lines, k: nat) {
    && k < |lines| && lines[k] == Age(k, 0)
    && forall c: nat, p: nat {:trigger PathColumns.Names(g, c, p, k)} :: !PathColumns.Names(g, c, p, k)
  }

  ghost predicate AreLines(g: Graph, lines: Lines) {
    && WellFormed(g) && |lines| == |g|
    && forall k: nat {:trigger LineRight(g, lines, k)} :: k < |g| ==> LineRight(g, lines, k)
  }

  /** `best` is the oldest line found so far among links to `k` from row `c` on, parents of row `c` from `p` on. */
  ghost predicate Found(g: Graph, lines: Lines, k: nat, c: nat, p: nat, best: Option<Age>) {
    && (forall d: nat, q: nat {:trigger PathColumns.Names(g, d, q, k)} ::
          PathColumns.Names(g, d, q, k) && d < |lines| && (d > c || (d == c && q >= p)) ==>
            best.Some? && !Older(AgeOf(lines, d, q), best.value))
    && (best.Some? ==> exists d: nat, q: nat {:trigger PathColumns.Names(g, d, q, k)} ::
          PathColumns.Names(g, d, q, k) && d < |lines| && AgeOf(lines, d, q) == best.value)
  }

  lemma {:induction false} OldestFinds(g: Graph, lines: Lines, k: nat, c: nat, p: nat, best: Option<Age>)
    requires |lines| <= |g| && c <= |lines| && (if c < |lines| then p <= |g[c]| else p == 0)
    requires Found(g, lines, k, c, p, best)
    ensures Found(g, lines, k, 0, 0, Oldest(g, lines, k, c, p, best))
    decreases c, p
  {
    if p > 0 {
      var a := AgeOf(lines, c, p - 1);
      var better := g[c][p - 1] == Row(k) && (best.None? || Older(a, best.value));
      assert PathColumns.Names(g, c, p - 1, k) <==> g[c][p - 1] == Row(k);
      OldestFinds(g, lines, k, c, p - 1, if better then Some(a) else best);
    } else if c > 0 {
      OldestFinds(g, lines, k, c - 1, |g[c - 1]|, best);
    }
  }

  lemma {:induction false} LinesToAreLines(g: Graph, n: nat, k: nat)
    requires WellFormed(g) && k < n <= |g|
    ensures var lines := LinesTo(g, n);
      && (forall c: nat, p: nat {:trigger PathColumns.Names(g, c, p, k)} :: PathColumns.Names(g, c, p, k) ==>
            c < k && !Older(AgeOf(lines, c, p), lines[k]))
      && (Begins(g, lines, k) || exists c: nat, p: nat {:trigger PathColumns.Names(g, c, p, k)} ::
            PathColumns.Names(g, c, p, k) && AgeOf(lines, c, p) == lines[k])
  {
    var front := LinesTo(g, n - 1);
    if k < n - 1 {
      LinesToAreLines(g, n - 1, k);
      assert forall c: nat, p: nat {:trigger PathColumns.Names(g, c, p, k)} :: PathColumns.Names(g, c, p, k) ==>
        c < k && AgeOf(LinesTo(g, n), c, p) == AgeOf(front, c, p);
    } else {
      assert Found(g, front, k, k, 0, None);
      OldestFinds(g, front, k, k, 0, None);
      assert forall c: nat, p: nat {:trigger PathColumns.Names(g, c, p, k)} :: PathColumns.Names(g, c, p, k) ==>
        c < k && AgeOf(LinesTo(g, n), c, p) == AgeOf(front, c, p);
    }
  }

  lemma LinesAreLines(g: Graph)
    requires WellFormed(g)
    ensures AreLines(g, LinesTo(g, |g|))
  {
    forall k: nat | k < |g| ensures LineRight(g, LinesTo(g, |g|), k) {
      LinesToAreLines(g, |g|, k);
    }
  }

  /** Where lines come from: a line with parent 0 belongs to its own first row, any other to a link further up. */
  lemma {:induction false} LineShape(g: Graph, lines: Lines, k: nat)
    requires AreLines(g, lines) && k < |g|
    ensures lines[k] == Age(k, 0) ==> Begins(g, lines, k)
    ensures lines[k] != Age(k, 0) ==> lines[k].row < k
    ensures lines[k].parent == 0 ==> lines[lines[k].row] == lines[k]
    ensures lines[k].parent > 0 ==> lines[k].parent < |g[lines[k].row]|
  {
    assert LineRight(g, lines, k);
    if !Begins(g, lines, k) {
      var c: nat, p: nat :| PathColumns.Names(g, c, p, k) && AgeOf(lines, c, p) == lines[k];
      if p == 0 {
        LineShape(g, lines, c);
      }
    }
  }

  // ---------- points ----------

  /** The link of row `c` to its parent number `p` is on line `a` and passes row `k`. */
  ghost predicate LinkSpans(g: Graph, lines: Lines, a: Age, c: nat, p: nat, k: nat) {
    && c < |lines| == |g| && p < |g[c]| && AgeOf(lines, c, p) == a
    && c < k && (g[c][p].Row? ==> k < g[c][p].row)
  }

  /** Line `a` passes row `k`; a row without parents that begins a line has it run to the end of the list. */
  ghost predicate Spans(g: Graph, lines: Lines, a: Age, k: nat) {
    || (exists c: nat, p: nat {:trigger LinkSpans(g, lines, a, c, p, k)} :: LinkSpans(g, lines, a, c, p, k))
    || (a.row < |lines| == |g| && a.row < k && a == Age(a.row, 0) == lines[a.row] && g[a.row] == [])
  }

  /** The parent line `a` begins with, row `t`, is on an older line. */
  ghost predicate Late(g: Graph, lines: Lines, a: Age, t: nat) {
    && |lines| == |g| && t < |g| && a.parent > 0
    && PathColumns.Names(g, a.row, a.parent, t) && Older(lines[t], a)
  }

  ghost predicate IsLate(g: Graph, lines: Lines, a: Age) {
    exists t: nat {:trigger Late(g, lines, a, t)} :: Late(g, lines, a, t)
  }

  /** A link that puts row `t` on its line comes from above row `k`. */
  ghost predicate PlacedFromAbove(g: Graph, lines: Lines, t: nat, k: nat) {
    exists c: nat, p: nat {:trigger PathColumns.Names(g, c, p, t)} ::
      PathColumns.Names(g, c, p, t) && c < k && c < |lines| && t < |lines| && AgeOf(lines, c, p) == lines[t]
  }

  /** Before `a`, a late line from the row just above `k` has led to row `t`. */
  ghost predicate LateAbove(g: Graph, lines: Lines, t: nat, k: nat, a: Age) {
    k > 0 && exists q: nat {:trigger Late(g, lines, Age(k - 1, q), t)} ::
      Late(g, lines, Age(k - 1, q), t) && Older(Age(k - 1, q), a)
  }

  /** Row `k` leads to row `t`, which is on an older line than `a`. */
  ghost predicate Reserved(g: Graph, lines: Lines, t: nat, k: nat, a: Age) {
    PlacedFromAbove(g, lines, t, k) || LateAbove(g, lines, t, k, a)
  }

  /**
   * Line `a` takes a point on row `k`: it passes there. A late line only takes one on
   * the row right below its first, and only if that row does not lead to its parent yet.
   */
  ghost predicate Takes(g: Graph, lines: Lines, a: Age, k: nat) {
    if IsLate(g, lines, a)
    then k == a.row + 1 && exists t: nat {:trigger Late(g, lines, a, t)} ::
           Late(g, lines, a, t) && k < t && !Reserved(g, lines, t, k, a)
    else Spans(g, lines, a, k)
  }

  /** How many lines may begin under a row. */
  function Beginnings(g: Graph, r: nat): nat
    requires r < |g|
  {
    if g[r] == [] then 1 else |g[r]|
  }

  /** How many lines before `a` take a point on row `k`. */
  ghost function Taken(g: Graph, lines: Lines, k: nat, a: Age): nat
    decreases a.row, a.parent
  {
    if a.parent > 0 then
      Taken(g, lines, k, Age(a.row, a.parent - 1)) + if Takes(g, lines, Age(a.row, a.parent - 1), k) then 1 else 0
    else if 0 < a.row <= |g| then Taken(g, lines, k, Age(a.row - 1, Beginnings(g, a.row - 1)))
    else 0
  }

  /** Where row `k` goes. */
  ghost function PointOf(g: Graph, lines: Lines, k: nat): nat
    requires k < |lines|
  {
    Taken(g, lines, k, lines[k])
  }

  // ---------- what every run keeps ----------

  function Next(a: Age): Age {
    Age(a.row, a.parent + 1)
  }

  /** The rows placed so far are those on lines before `a`, and those above row `i` on line `a` itself. */
  ghost predicate PlacedRight(g: Graph, lines: Lines, rows: seq<Vertex>, a: Age, i: nat, k: nat) {
    k < |rows| == |lines| ==> (rows[k].onBranch.Some? <==> Older(lines[k], a) || (lines[k] == a && k < i))
  }

  /** A placed row is where it belongs; on any other, every line so far has taken its point. */
  ghost predicate PointRight(g: Graph, lines: Lines, rows: seq<Vertex>, a: Age, i: nat, k: nat) {
    k < |rows| == |lines| == |g| ==>
      if rows[k].onBranch.Some? then rows[k].x == PointOf(g, lines, k)
      else rows[k].nextX == Taken(g, lines, k, a) + if k < i && Takes(g, lines, a, k) then 1 else 0
  }

  /** A row still on no branch leads to a placed row exactly if that has been reserved. */
  ghost predicate SlotRight(g: Graph, lines: Lines, rows: seq<Vertex>, a: Age, k: nat, t: nat) {
    k < t < |rows| && rows[k].onBranch.None? && rows[t].onBranch.Some? ==>
      (PathProofs.HasSlot(rows[k], Row(t), rows[t].onBranch.value) <==> Reserved(g, lines, t, k, a))
  }

  /** A placed row below row `s` has walked to its first parent only. */
  ghost predicate CountRight(g: Graph, rows: seq<Vertex>, s: nat, k: nat) {
    s < k < |rows| == |g| && rows[k].onBranch.Some? ==> rows[k].nextParent == if g[k] == [] then 0 else 1
  }

  /** Between two runs, before line `a`. */
  ghost predicate Clocked(g: Graph, lines: Lines, w: World, a: Age) {
    && PathProofs.Inv(g, w) && AreLines(g, lines) && a.row < |g|
    && (forall k: nat {:trigger PlacedRight(g, lines, w.rows, a, 0, k)} :: PlacedRight(g, lines, w.rows, a, 0, k))
    && (forall k: nat {:trigger PointRight(g, lines, w.rows, a, 0, k)} :: PointRight(g, lines, w.rows, a, 0, k))
    && (forall k: nat, t: nat {:trigger SlotRight(g, lines, w.rows, a, k, t)} :: SlotRight(g, lines, w.rows, a, k, t))
    && (forall k: nat {:trigger CountRight(g, w.rows, a.row, k)} :: CountRight(g, w.rows, a.row, k))
  }

  // ---------- a late line ----------

  /** No row is on a late line. */
  lemma {:induction false} NobodyOnLateLine(g: Graph, lines: Lines, a: Age, k: nat)
    requires AreLines(g, lines) && IsLate(g, lines, a) && k < |g|
    ensures lines[k] != a
  {
    if lines[k] == a {
      var t: nat :| Late(g, lines, a, t);
      assert LineRight(g, lines, k);
      var c: nat, p: nat :| PathColumns.Names(g, c, p, k) && AgeOf(lines, c, p) == a;
      if p == 0 {
        NobodyOnLateLine(g, lines, a, c);
      }
    }
  }

  lemma LateAboveNext(g: Graph, lines: Lines, t: nat, k: nat, a: Age)
    ensures LateAbove(g, lines, t, k, Next(a)) <==>
        LateAbove(g, lines, t, k, a) || (k == a.row + 1 && Late(g, lines, a, t))
  {
    if k > 0 {
      forall q: nat {:trigger Late(g, lines, Age(k - 1, q), t)} |
        Late(g, lines, Age(k - 1, q), t) && Older(Age(k - 1, q), Next(a))
        ensures LateAbove(g, lines, t, k, a) || (k == a.row + 1 && Late(g, lines, a, t))
      {
        if Age(k - 1, q) != a {
          assert Older(Age(k - 1, q), a);
        }
      }
      if LateAbove(g, lines, t, k, a) {
        var q: nat :| Late(g, lines, Age(k - 1, q), t) && Older(Age(k - 1, q), a);
        assert Older(Age(k - 1, q), Next(a));
      }
    }
  }

  /** The row below takes a point for late line `a` leading to `t` exactly if it does not lead there yet. */
  lemma LateTakes(g: Graph, lines: Lines, a: Age, t: nat, k: nat)
    requires Late(g, lines, a, t)
    ensures IsLate(g, lines, a)
    ensures Takes(g, lines, a, k) <==> k == a.row + 1 && k < t && !Reserved(g, lines, t, k, a)
  {
  }

  /** What the merge arm changes: row `s` has walked to one more parent, and row `s + 1` may have one more slot. */
  ghost predicate Merged(rows: seq<Vertex>, rows': seq<Vertex>, s: nat, t: nat, b: nat) {
    && s + 1 < |rows| == |rows'|
    && rows'[s] == rows[s].(nextParent := rows[s].nextParent + 1)
    && (forall k {:trigger rows'[k]} :: 0 <= k < |rows| && k != s && k != s + 1 ==> rows'[k] == rows[k])
    && rows'[s + 1] == if PathProofs.HasSlot(rows[s + 1], Row(t), b) then rows[s + 1]
                       else rows[s + 1].(nextX := rows[s + 1].nextX + 1,
                                         connections := rows[s + 1].connections + [Some(Slot(Row(t), b))])
  }

  lemma MergeMerges(g: Graph, w: World, s: nat, t: nat)
    requires PathProofs.Inv(g, w) && s < |g| && TakesMergeArm(g, w.rows, s) && NextParent(g, w.rows, s) == Row(t)
    ensures s < t < |g| && Merged(w.rows, Run(g, w, s).rows, s, t, w.rows[t].onBranch.value)
    ensures Run(g, w, s).branches == w.branches
  {
    var b, v := w.rows[t].onBranch.value, w.rows[s + 1];
    assert PathProofs.VertexOk(g, v, w.branches, s + 1) && PathProofs.VertexOk(g, w.rows[t], w.branches, t);
    PathProofs.MergeStopsAtOnce(w.rows, s, t, b, s + 1, w.branches);
    if !PathProofs.HasSlot(v, Row(t), b) {
      assert t != s + 1;
      PathProofs.RegisterFree(g, v, s + 1, Row(t), b, w.branches);
    }
  }

  lemma SlotAdded(v: Vertex, v': Vertex, added: Target, b: nat, target: Target, d: nat)
    requires v'.connections == v.connections + [Some(Slot(added, b))]
    ensures PathProofs.HasSlot(v', target, d) <==> PathProofs.HasSlot(v, target, d) || (target == added && d == b)
  {
    var last := Some(Slot(added, b));
    assert v'.connections[|v.connections|] == last;
    forall c ensures c in v'.connections <==> c in v.connections || c == last {
    }
  }

  lemma MergeSlots(g: Graph, lines: Lines, rows: seq<Vertex>, rows': seq<Vertex>, a: Age, t: nat, k: nat, u: nat)
    requires |lines| == |g| == |rows| && Late(g, lines, a, t) && rows[t].onBranch.Some? && a.row < t
    requires Merged(rows, rows', a.row, t, rows[t].onBranch.value)
    requires SlotRight(g, lines, rows, a, k, u)
    ensures SlotRight(g, lines, rows', Next(a), k, u)
  {
    LateAboveNext(g, lines, u, k, a);
    var b := rows[t].onBranch.value;
    if k < u < |rows| && rows'[k].onBranch.None? && rows'[u].onBranch.Some? {
      if k == a.row + 1 && !PathProofs.HasSlot(rows[k], Row(t), b) {
        SlotAdded(rows[k], rows'[k], Row(t), b, Row(u), rows[u].onBranch.value);
      }
    }
  }

  lemma MergePoints(g: Graph, lines: Lines, rows: seq<Vertex>, rows': seq<Vertex>, a: Age, t: nat, k: nat)
    requires |lines| == |g| == |rows| && Late(g, lines, a, t) && rows[t].onBranch.Some? && a.row < t && k < |g|
    requires Merged(rows, rows', a.row, t, rows[t].onBranch.value)
    requires PointRight(g, lines, rows, a, 0, k) && SlotRight(g, lines, rows, a, k, t)
    ensures PointRight(g, lines, rows', Next(a), 0, k)
  {
    LateTakes(g, lines, a, t, k);
  }

  /** The merge arm keeps the clock. */
  lemma MergeClocked(g: Graph, lines: Lines, w: World, a: Age, t: nat)
    requires Clocked(g, lines, w, a) && TakesMergeArm(g, w.rows, a.row) && NextParent(g, w.rows, a.row) == Row(t)
    requires w.rows[a.row].nextParent == a.parent > 0
    ensures var w' := Run(g, w, a.row);
            Clocked(g, lines, w', Next(a)) && w'.rows[a.row].onBranch.Some? && w'.rows[a.row].nextParent == a.parent + 1
  {
    var rows, rows' := w.rows, Run(g, w, a.row).rows;
    MergeMerges(g, w, a.row, t);
    PathProofs.MergeKeeps(g, w, a.row);
    assert PlacedRight(g, lines, rows, a, 0, t);
    assert Late(g, lines, a, t);
    forall k: nat ensures PlacedRight(g, lines, rows', Next(a), 0, k) {
      assert PlacedRight(g, lines, rows, a, 0, k);
      if k < |g| {
        NobodyOnLateLine(g, lines, a, k);
      }
    }
    forall k: nat ensures PointRight(g, lines, rows', Next(a), 0, k) {
      assert PointRight(g, lines, rows, a, 0, k) && SlotRight(g, lines, rows, a, k, t);
      if k < |g| {
        MergePoints(g, lines, rows, rows', a, t, k);
      }
    }
    forall k: nat, u: nat ensures SlotRight(g, lines, rows', Next(a), k, u) {
      assert SlotRight(g, lines, rows, a, k, u);
      MergeSlots(g, lines, rows, rows', a, t, k, u);
    }
    forall k: nat ensures CountRight(g, rows', a.row, k) {
      assert CountRight(g, rows, a.row, k);
    }
  }

  // ---------- a line being walked ----------

  /** A row leads to a row placed before the walk as it did then. */
  ghost predicate OldSlotRight(g: Graph, lines: Lines, rows: seq<Vertex>, a: Age, b: nat, k: nat, t: nat) {
    k < t < |rows| && rows[k].onBranch.None? && rows[t].onBranch.Some? && rows[t].onBranch != Some(b) ==>
      (PathProofs.HasSlot(rows[k], Row(t), rows[t].onBranch.value) <==> Reserved(g, lines, t, k, a))
  }

  /** A link of line `a` leads past row `k` to row `t`. */
  ghost predicate OnWay(g: Graph, lines: Lines, a: Age, k: nat, t: nat) {
    k < t && exists c: nat, p: nat {:trigger PathColumns.Names(g, c, p, t)} ::
      PathColumns.Names(g, c, p, t) && c < k && c < |lines| && AgeOf(lines, c, p) == a
  }

  /** The walk has led row `k`, above row `i`, to exactly the rows its links lead to past it. */
  ghost predicate NewSlotRight(g: Graph, lines: Lines, rows: seq<Vertex>, a: Age, b: nat, i: nat, k: nat, t: nat) {
    k < |rows| && rows[k].onBranch.None? ==>
      (PathProofs.HasSlot(rows[k], Row(t), b) <==> k < i && OnWay(g, lines, a, k, t))
  }

  /** The rows on branch `b` are those of line `a` above row `i`. */
  ghost predicate BranchRight(lines: Lines, rows: seq<Vertex>, a: Age, b: nat, i: nat, k: nat) {
    k < |rows| == |lines| ==> (rows[k].onBranch == Some(b) <==> lines[k] == a && k < i)
  }

  /** How the rows stand when the walk along line `a`, on branch `b`, has come to row `i`. */
  ghost predicate LineState(g: Graph, lines: Lines, rows: seq<Vertex>, a: Age, b: nat, i: nat) {
    && AreLines(g, lines) && |rows| == |g| && a.row < i <= |g| && !IsLate(g, lines, a)
    && (forall k: nat {:trigger PlacedRight(g, lines, rows, a, i, k)} :: PlacedRight(g, lines, rows, a, i, k))
    && (forall k: nat {:trigger PointRight(g, lines, rows, a, i, k)} :: PointRight(g, lines, rows, a, i, k))
    && (forall k: nat, t: nat {:trigger OldSlotRight(g, lines, rows, a, b, k, t)} ::
           OldSlotRight(g, lines, rows, a, b, k, t))
    && (forall k: nat, t: nat {:trigger NewSlotRight(g, lines, rows, a, b, i, k, t)} ::
          NewSlotRight(g, lines, rows, a, b, i, k, t))
    && (forall k: nat {:trigger BranchRight(lines, rows, a, b, i, k)} :: BranchRight(lines, rows, a, b, i, k))
  }

  predicate OnLink(g: Graph, lines: Lines, a: Age, c: nat, p: nat) {
    c < |lines| == |g| && p < |g[c]| && AgeOf(lines, c, p) == a
  }

  /** Every link of line `a` from a row above `i` has been walked, but for the one being walked. */
  ghost predicate LinksWalked(g: Graph, lines: Lines, a: Age, i: nat, child: nat, np: nat) {
    forall c: nat, p: nat {:trigger OnLink(g, lines, a, c, p)} :: OnLink(g, lines, a, c, p) && c < i ==>
      (c == child && p == np) || (g[c][p].Row? && g[c][p].row < i)
  }

  /** Every link of line `a` from a row above `i` has been walked. */
  ghost predicate AllWalked(g: Graph, lines: Lines, a: Age, i: nat) {
    forall c: nat, p: nat {:trigger OnLink(g, lines, a, c, p)} :: OnLink(g, lines, a, c, p) && c < i ==>
      g[c][p].Row? && g[c][p].row < i
  }

  /** What the walk has left to walk to is the next parent of `child`, on line `a`. */
  ghost predicate Leads(g: Graph, lines: Lines, w: Walk, a: Age) {
    && |lines| == |g| == |w.rows| && w.child < |g| && w.target == NextParent(g, w.rows, w.child)
    && if w.target == Nowhere then w.child == a.row && a == Age(a.row, 0) == lines[a.row] && g[a.row] == []
       else OnLink(g, lines, a, w.child, w.rows[w.child].nextParent)
  }

  /** Placed rows have walked to their first parents, the row being walked from to one less. */
  ghost predicate CountsWalked(g: Graph, rows: seq<Vertex>, a: Age, child: nat) {
    && |rows| == |g| && child < |g| && a.row < |g|
    && (forall k: nat {:trigger CountRight(g, rows, a.row, k)} :: k != child ==> CountRight(g, rows, a.row, k))
    && rows[a.row].nextParent == (if child == a.row then a.parent else a.parent + 1)
    && (child != a.row ==> rows[child].nextParent == 0 && g[child] != [])
  }

  ghost predicate OnLine(g: Graph, lines: Lines, w: Walk, a: Age, b: nat, i: nat) {
    && !w.stopped && PathProofs.Walking(g, w.rows, w.child, w.target, b, i)
    && LineState(g, lines, w.rows, a, b, i)
    && Leads(g, lines, w, a) && a.row <= w.child
    && LinksWalked(g, lines, a, i, w.child, w.rows[w.child].nextParent)
    && CountsWalked(g, w.rows, a, w.child)
  }

  // ---------- passing a row ----------

  /** A row of the line is what the walk is heading for. */
  lemma RowOnLineIsTarget(g: Graph, lines: Lines, a: Age, i: nat, child: nat, np: nat)
    requires AreLines(g, lines) && a.row < i < |g| && lines[i] == a && LinksWalked(g, lines, a, i, child, np)
    ensures PathColumns.Names(g, child, np, i)
  {
    assert LineRight(g, lines, i);
    var c: nat, p: nat :| PathColumns.Names(g, c, p, i) && AgeOf(lines, c, p) == a;
    assert OnLink(g, lines, a, c, p);
  }

  /** The row passed gets one more point, for the walk's target. */
  ghost predicate Passed(rows: seq<Vertex>, rows': seq<Vertex>, i: nat, target: Target, b: nat) {
    && i < |rows| == |rows'|
    && (forall k {:trigger rows'[k]} :: 0 <= k < |rows| && k != i ==> rows'[k] == rows[k])
    && rows'[i] == rows[i].(nextX := rows[i].nextX + 1, connections := rows[i].connections + [Some(Slot(target, b))])
  }

  lemma PassPoint(g: Graph, lines: Lines, rows: seq<Vertex>, rows': seq<Vertex>, a: Age, i: nat, target: Target,
                  b: nat, k: nat)
    requires Passed(rows, rows', i, target, b) && !IsLate(g, lines, a) && Spans(g, lines, a, i)
    requires PointRight(g, lines, rows, a, i, k)
    ensures PointRight(g, lines, rows', a, i + 1, k)
  {
    assert Takes(g, lines, a, i);
  }

  lemma PassOldSlot(g: Graph, lines: Lines, rows: seq<Vertex>, rows': seq<Vertex>, a: Age, i: nat, target: Target,
                    b: nat, k: nat, t: nat)
    requires Passed(rows, rows', i, target, b) && OldSlotRight(g, lines, rows, a, b, k, t)
    ensures OldSlotRight(g, lines, rows', a, b, k, t)
  {
    if k == i && t < |rows| && rows[t].onBranch.Some? {
      SlotAdded(rows[i], rows'[i], target, b, Row(t), rows[t].onBranch.value);
    }
  }

  lemma PassNewSlot(g: Graph, lines: Lines, rows: seq<Vertex>, rows': seq<Vertex>, a: Age, i: nat, target: Target,
                    b: nat, k: nat, t: nat)
    requires Passed(rows, rows', i, target, b) && NewSlotRight(g, lines, rows, a, b, i, k, t)
    requires OnWay(g, lines, a, i, t) <==> target == Row(t)
    ensures NewSlotRight(g, lines, rows', a, b, i + 1, k, t)
  {
    if k == i {
      SlotAdded(rows[i], rows'[i], target, b, Row(t), b);
    }
  }

  /** Past the next row the line leads to its target alone. */
  lemma OnWayIsTarget(g: Graph, lines: Lines, w: Walk, a: Age, b: nat, i: nat, t: nat)
    requires OnLine(g, lines, w, a, b, i) && i < |g| && w.target != Row(i)
    ensures OnWay(g, lines, a, i, t) <==> w.target == Row(t)
  {
    var np := w.rows[w.child].nextParent;
    if OnWay(g, lines, a, i, t) {
      var c: nat, p: nat :| PathColumns.Names(g, c, p, t) && c < i && AgeOf(lines, c, p) == a;
      assert OnLink(g, lines, a, c, p);
    }
    if w.target == Row(t) {
      assert PathColumns.Names(g, w.child, np, t);
    }
  }

  lemma WalkSpans(g: Graph, lines: Lines, w: Walk, a: Age, b: nat, i: nat)
    requires OnLine(g, lines, w, a, b, i) && i < |g| && w.target != Row(i)
    ensures Spans(g, lines, a, i)
  {
    if w.target != Nowhere {
      assert LinkSpans(g, lines, a, w.child, w.rows[w.child].nextParent, i);
    }
  }

  lemma PassKeepsState(g: Graph, lines: Lines, w: Walk, rows': seq<Vertex>, a: Age, b: nat, i: nat)
    requires OnLine(g, lines, w, a, b, i) && i < |g| && w.target != Row(i) && Passed(w.rows, rows', i, w.target, b)
    ensures lines[i] != a && LineState(g, lines, rows', a, b, i + 1)
  {
    var rows, j := w.rows, i + 1;
    if lines[i] == a {
      RowOnLineIsTarget(g, lines, a, i, w.child, rows[w.child].nextParent);
    }
    WalkSpans(g, lines, w, a, b, i);
    forall k: nat ensures PlacedRight(g, lines, rows', a, j, k) && PointRight(g, lines, rows', a, j, k) {
      assert PlacedRight(g, lines, rows, a, i, k) && PointRight(g, lines, rows, a, i, k);
      PassPoint(g, lines, rows, rows', a, i, w.target, b, k);
    }
    forall k: nat ensures BranchRight(lines, rows', a, b, j, k) {
      assert BranchRight(lines, rows, a, b, i, k);
    }
    forall k: nat, t: nat ensures OldSlotRight(g, lines, rows', a, b, k, t) {
      assert OldSlotRight(g, lines, rows, a, b, k, t);
      PassOldSlot(g, lines, rows, rows', a, i, w.target, b, k, t);
    }
    forall k: nat, t: nat ensures NewSlotRight(g, lines, rows', a, b, j, k, t) {
      assert NewSlotRight(g, lines, rows, a, b, i, k, t);
      OnWayIsTarget(g, lines, w, a, b, i, t);
      PassNewSlot(g, lines, rows, rows', a, i, w.target, b, k, t);
    }
  }

  lemma VisitPassing(g: Graph, lines: Lines, w: Walk, a: Age, b: nat, i: nat)
    requires OnLine(g, lines, w, a, b, i) && i < |g| && w.target != Row(i)
    ensures OnLine(g, lines, WalkRow(g, w, b, i), a, b, i + 1)
  {
    var rows, rows' := w.rows, WalkRow(g, w, b, i).rows;
    PathProofs.PassRow(g, rows, w.child, w.target, b, i);
    assert PathProofs.VertexOk(g, rows[i], b + 1, i);
    PathProofs.RegisterFree(g, rows[i], i, w.target, b, b + 1);
    assert Passed(rows, rows', i, w.target, b);
    PassKeepsState(g, lines, w, rows', a, b, i);
    forall k: nat | k != w.child ensures CountRight(g, rows', a.row, k) {
      assert CountRight(g, rows, a.row, k);
    }
  }

  // ---------- reaching a row ----------

  /** Row `i` has joined branch `b` on its next free point, and the walk's link to it is done. */
  ghost predicate Arrived(rows: seq<Vertex>, rows': seq<Vertex>, child: nat, i: nat, b: nat) {
    && child < i < |rows| == |rows'|
    && rows[i].onBranch.None? && rows'[i].onBranch == Some(b) && rows'[i].x == rows[i].nextX
    && rows'[i].nextParent == rows[i].nextParent
    && rows'[child] == rows[child].(nextParent := rows[child].nextParent + 1)
    && (forall k {:trigger rows'[k]} :: 0 <= k < |rows| && k != i && k != child ==> rows'[k] == rows[k])
  }

  lemma ArriveArrives(g: Graph, rows: seq<Vertex>, child: nat, b: nat, i: nat)
    requires PathProofs.Walking(g, rows, child, Row(i), b, i) && i < |g| && rows[i].onBranch.None?
    ensures Arrived(rows, WalkRow(g, Walk(rows, child, Row(i), false), b, i).rows, child, i, b)
  {
    assert PathProofs.VertexOk(g, rows[i], b + 1, i);
    PathProofs.ArriveUnfolds(g, rows, child, b, i);
    PathProofs.RegisterOwn(g, rows[i], i, b, b + 1);
  }

  lemma ArriveKeepsState(g: Graph, lines: Lines, rows: seq<Vertex>, rows': seq<Vertex>, child: nat, a: Age, b: nat,
                         i: nat)
    requires LineState(g, lines, rows, a, b, i) && Arrived(rows, rows', child, i, b) && lines[i] == a
    ensures LineState(g, lines, rows', a, b, i + 1)
  {
    var j := i + 1;
    forall k: nat ensures PlacedRight(g, lines, rows', a, j, k) && PointRight(g, lines, rows', a, j, k) {
      assert PlacedRight(g, lines, rows, a, i, k) && PointRight(g, lines, rows, a, i, k);
    }
    forall k: nat ensures BranchRight(lines, rows', a, b, j, k) {
      assert BranchRight(lines, rows, a, b, i, k);
    }
    forall k: nat, t: nat ensures OldSlotRight(g, lines, rows', a, b, k, t) {
      assert OldSlotRight(g, lines, rows, a, b, k, t);
    }
    forall k: nat, t: nat ensures NewSlotRight(g, lines, rows', a, b, j, k, t) {
      assert NewSlotRight(g, lines, rows, a, b, i, k, t);
    }
  }

  /** The row a walk reaches is on its line, unless it has been placed before. */
  lemma TargetIsOnLine(g: Graph, lines: Lines, w: Walk, a: Age, b: nat, i: nat)
    requires OnLine(g, lines, w, a, b, i) && i < |g| && w.target == Row(i)
    ensures w.rows[i].onBranch.None? ==> lines[i] == a
    ensures w.rows[i].onBranch.Some? ==> Older(lines[i], a)
  {
    assert PathColumns.Names(g, w.child, w.rows[w.child].nextParent, i);
    assert LineRight(g, lines, i) && PlacedRight(g, lines, w.rows, a, i, i);
  }

  /** Where the walk stops, or goes on below row `i`. */
  ghost predicate Halted(g: Graph, lines: Lines, rows: seq<Vertex>, a: Age, b: nat, i: nat) {
    && LineState(g, lines, rows, a, b, i)
    && (i < |g| ==> AllWalked(g, lines, a, i) && g[a.row] != [])
    && (forall k: nat {:trigger CountRight(g, rows, a.row, k)} :: CountRight(g, rows, a.row, k))
    && rows[a.row].nextParent == if g[a.row] == [] then a.parent else a.parent + 1
  }

  lemma CountsAfterLink(g: Graph, rows: seq<Vertex>, rows': seq<Vertex>, a: Age, child: nat)
    requires CountsWalked(g, rows, a, child) && |rows'| == |rows| && a.row <= child
    requires rows'[child].nextParent == rows[child].nextParent + 1
    requires forall k {:trigger rows'[k]} :: 0 <= k < |rows| && k != child ==> rows'[k].nextParent == rows[k].nextParent
    requires forall k {:trigger rows'[k]} :: 0 <= k < |rows| ==> rows'[k].onBranch == rows[k].onBranch
    ensures forall k: nat {:trigger CountRight(g, rows', a.row, k)} :: CountRight(g, rows', a.row, k)
    ensures rows'[a.row].nextParent == a.parent + 1
  {
    forall k: nat ensures CountRight(g, rows', a.row, k) {
      assert k != child ==> CountRight(g, rows, a.row, k);
    }
  }

  /** The row a line begins under has a parent if the walk along the line leads anywhere. */
  lemma LineHasParent(g: Graph, lines: Lines, w: Walk, a: Age, b: nat, i: nat)
    requires OnLine(g, lines, w, a, b, i) && w.target != Nowhere
    ensures g[a.row] != []
  {
    assert PathProofs.VertexOk(g, w.rows[a.row], b + 1, a.row);
  }

  lemma VisitPlaced(g: Graph, lines: Lines, w: Walk, a: Age, b: nat, i: nat)
    requires OnLine(g, lines, w, a, b, i) && i < |g| && w.target == Row(i) && w.rows[i].onBranch.Some?
    ensures var w' := WalkRow(g, w, b, i); w'.stopped && Halted(g, lines, w'.rows, a, b, i + 1)
  {
    var rows, child, j := w.rows, w.child, i + 1;
    LineHasParent(g, lines, w, a, b, i);
    assert PathProofs.VertexOk(g, rows[i], b + 1, i);
    PathProofs.JoinUnfolds(g, rows, child, b, i);
    TargetIsOnLine(g, lines, w, a, b, i);
    var rows' := ParentProcessed(rows, child);
    CountsAfterLink(g, rows, rows', a, child);
    forall k: nat ensures PlacedRight(g, lines, rows', a, j, k) && PointRight(g, lines, rows', a, j, k) {
      assert PlacedRight(g, lines, rows, a, i, k) && PointRight(g, lines, rows, a, i, k);
    }
    forall k: nat ensures BranchRight(lines, rows', a, b, j, k) {
      assert BranchRight(lines, rows, a, b, i, k);
    }
    forall k: nat, t: nat ensures OldSlotRight(g, lines, rows', a, b, k, t) {
      assert OldSlotRight(g, lines, rows, a, b, k, t);
    }
    forall k: nat, t: nat ensures NewSlotRight(g, lines, rows', a, b, j, k, t) {
      assert NewSlotRight(g, lines, rows, a, b, i, k, t);
    }
    LinkDone(g, lines, a, i, child, rows[child].nextParent);
  }

  /** With the link to row `i` done and row `i` not on the line, every link above has been walked. */
  lemma LinkDone(g: Graph, lines: Lines, a: Age, i: nat, child: nat, np: nat)
    requires |lines| == |g| && a.row < i < |g| && LinksWalked(g, lines, a, i, child, np)
    requires PathColumns.Names(g, child, np, i) && (lines[i] != a || g[i] == [])
    ensures AllWalked(g, lines, a, i + 1)
  {
    forall c: nat, p: nat | OnLink(g, lines, a, c, p) && c < i + 1 ensures g[c][p].Row? && g[c][p].row < i + 1 {
    }
  }

  lemma VisitNew(g: Graph, lines: Lines, w: Walk, a: Age, b: nat, i: nat)
    requires OnLine(g, lines, w, a, b, i) && i < |g| && w.target == Row(i) && w.rows[i].onBranch.None?
    ensures var w' := WalkRow(g, w, b, i);
            if w'.stopped then Halted(g, lines, w'.rows, a, b, i + 1) else OnLine(g, lines, w', a, b, i + 1)
  {
    var rows, child, w' := w.rows, w.child, WalkRow(g, w, b, i);
    TargetIsOnLine(g, lines, w, a, b, i);
    LineHasParent(g, lines, w, a, b, i);
    ArriveArrives(g, rows, child, b, i);
    ArriveKeepsState(g, lines, rows, w'.rows, child, a, b, i);
    PathProofs.WalkRowKeeps(g, w, b, i);
    assert PathProofs.VertexOk(g, rows[i], b + 1, i);
    CountsAfterArrival(g, rows, w'.rows, a, child, i, b);
    if g[i] == [] {
      LinkDone(g, lines, a, i, child, rows[child].nextParent);
    } else {
      NextLink(g, lines, a, i, child, rows[child].nextParent);
    }
  }

  lemma NextLink(g: Graph, lines: Lines, a: Age, i: nat, child: nat, np: nat)
    requires |lines| == |g| && a.row < i < |g| && LinksWalked(g, lines, a, i, child, np)
    requires PathColumns.Names(g, child, np, i) && lines[i] == a
    ensures LinksWalked(g, lines, a, i + 1, i, 0)
  {
    forall c: nat, p: nat | OnLink(g, lines, a, c, p) && c < i + 1
      ensures (c == i && p == 0) || (g[c][p].Row? && g[c][p].row < i + 1)
    {
    }
  }

  lemma CountsAfterArrival(g: Graph, rows: seq<Vertex>, rows': seq<Vertex>, a: Age, child: nat, i: nat, b: nat)
    requires CountsWalked(g, rows, a, child) && Arrived(rows, rows', child, i, b) && a.row <= child
    requires rows[i].nextParent == 0
    ensures rows'[a.row].nextParent == a.parent + 1 && rows'[i].nextParent == 0
    ensures forall k: nat {:trigger CountRight(g, rows', a.row, k)} :: k != i || g[i] == [] ==>
        CountRight(g, rows', a.row, k)
  {
    forall k: nat | k != i || g[i] == [] ensures CountRight(g, rows', a.row, k) {
      assert k != child ==> CountRight(g, rows, a.row, k);
    }
  }

  // ---------- the end of a walk ----------

  /** Once all its links above row `i` have been walked, a line has no rows from there on. */
  lemma {:induction false} NoRowsBelow(g: Graph, lines: Lines, a: Age, i: nat, k: nat)
    requires AreLines(g, lines) && a.row < i <= k < |g| && AllWalked(g, lines, a, i)
    ensures lines[k] != a
  {
    if lines[k] == a {
      assert LineRight(g, lines, k);
      var c: nat, p: nat :| PathColumns.Names(g, c, p, k) && AgeOf(lines, c, p) == a;
      assert OnLink(g, lines, a, c, p);
      if c >= i {
        NoRowsBelow(g, lines, a, i, c);
      }
    }
  }

  lemma NotPassedBelow(g: Graph, lines: Lines, a: Age, i: nat, k: nat)
    requires AreLines(g, lines) && a.row < i <= k < |g| && AllWalked(g, lines, a, i) && g[a.row] != []
    ensures !Spans(g, lines, a, k)
  {
    forall c: nat, p: nat ensures !LinkSpans(g, lines, a, c, p, k) {
      if LinkSpans(g, lines, a, c, p, k) {
        assert OnLink(g, lines, a, c, p);
        if c >= i {
          NoRowsBelow(g, lines, a, i, c);
        }
      }
    }
  }

  lemma HaltedPoint(g: Graph, lines: Lines, rows: seq<Vertex>, a: Age, b: nat, i: nat, k: nat)
    requires Halted(g, lines, rows, a, b, i)
    ensures PlacedRight(g, lines, rows, Next(a), 0, k) && PointRight(g, lines, rows, Next(a), 0, k)
  {
    assert PlacedRight(g, lines, rows, a, i, k) && PointRight(g, lines, rows, a, i, k);
    if i <= k < |g| {
      NoRowsBelow(g, lines, a, i, k);
      NotPassedBelow(g, lines, a, i, k);
    }
  }

  lemma HaltedSlot(g: Graph, lines: Lines, rows: seq<Vertex>, a: Age, b: nat, i: nat, k: nat, t: nat)
    requires Halted(g, lines, rows, a, b, i)
    ensures SlotRight(g, lines, rows, Next(a), k, t)
  {
    assert OldSlotRight(g, lines, rows, a, b, k, t) && NewSlotRight(g, lines, rows, a, b, i, k, t);
    assert BranchRight(lines, rows, a, b, i, t);
    LateAboveNext(g, lines, t, k, a);
    if k < t < |rows| && rows[k].onBranch.None? && rows[t].onBranch == Some(b) {
      assert OnWay(g, lines, a, k, t) <==> PlacedFromAbove(g, lines, t, k);
      assert !LateAbove(g, lines, t, k, Next(a));
    }
  }

  /** A walk that has halted leaves the clock one line further. */
  lemma HaltedClocked(g: Graph, lines: Lines, w: World, a: Age, b: nat, i: nat)
    requires Halted(g, lines, w.rows, a, b, i) && PathProofs.Inv(g, w)
    ensures Clocked(g, lines, w, Next(a))
  {
    var next := Next(a);
    forall k: nat ensures PlacedRight(g, lines, w.rows, next, 0, k) && PointRight(g, lines, w.rows, next, 0, k) {
      HaltedPoint(g, lines, w.rows, a, b, i, k);
    }
    forall k: nat, t: nat ensures SlotRight(g, lines, w.rows, next, k, t) {
      HaltedSlot(g, lines, w.rows, a, b, i, k, t);
    }
  }

  lemma EndHalts(g: Graph, lines: Lines, w: Walk, a: Age, b: nat)
    requires OnLine(g, lines, w, a, b, |g|)
    ensures Halted(g, lines, BranchWalk(g, w, b, |g|), a, b, |g|)
  {
    var rows, child, n := w.rows, w.child, |g|;
    var rows' := BranchWalk(g, w, b, n);
    if w.target == Outside {
      LineHasParent(g, lines, w, a, b, n);
      CountsAfterLink(g, rows, rows', a, child);
    }
    forall k: nat ensures PlacedRight(g, lines, rows', a, n, k) && PointRight(g, lines, rows', a, n, k) {
      assert PlacedRight(g, lines, rows, a, n, k) && PointRight(g, lines, rows, a, n, k);
    }
    forall k: nat ensures BranchRight(lines, rows', a, b, n, k) {
      assert BranchRight(lines, rows, a, b, n, k);
    }
    forall k: nat, t: nat ensures OldSlotRight(g, lines, rows', a, b, k, t) {
      assert OldSlotRight(g, lines, rows, a, b, k, t);
    }
    forall k: nat, t: nat ensures NewSlotRight(g, lines, rows', a, b, n, k, t) {
      assert NewSlotRight(g, lines, rows, a, b, n, k, t);
    }
  }

  /** A walk along a line halts somewhere, with everything where the line puts it. */
  lemma {:induction false} WalkHalts(g: Graph, lines: Lines, w: Walk, a: Age, b: nat, i: nat) returns (end: nat)
    requires OnLine(g, lines, w, a, b, i)
    ensures Halted(g, lines, BranchWalk(g, w, b, i), a, b, end)
    decreases |g| - i
  {
    if i == |g| {
      EndHalts(g, lines, w, a, b);
      end := i;
    } else {
      var w' := WalkRow(g, w, b, i);
      if w.target != Row(i) {
        VisitPassing(g, lines, w, a, b, i);
      } else if w.rows[i].onBranch.Some? {
        VisitPlaced(g, lines, w, a, b, i);
      } else {
        VisitNew(g, lines, w, a, b, i);
      }
      if w'.stopped {
        end := i + 1;
      } else {
        end := WalkHalts(g, lines, w', a, b, i + 1);
      }
    }
  }

  // ---------- the beginning of a walk ----------

  /** Rows above a line's first are on older lines; the first is too, unless the line begins with it. */
  lemma RowsAbove(g: Graph, lines: Lines, a: Age, k: nat)
    requires AreLines(g, lines) && k <= a.row < |g|
    ensures Older(lines[k], a) || (k == a.row && a == Age(k, 0) == lines[k])
  {
    LineShape(g, lines, k);
  }

  lemma RowsAboveStand(g: Graph, lines: Lines, w: World, a: Age, k: nat)
    requires Clocked(g, lines, w, a) && k <= a.row
    ensures w.rows[k].onBranch.None? ==> k == a.row && a == Age(k, 0) == lines[k]
    ensures lines[k] == a ==> k == a.row && a == Age(k, 0) && w.rows[k].onBranch.None?
  {
    RowsAbove(g, lines, a, k);
    assert PlacedRight(g, lines, w.rows, a, 0, k);
  }

  /** A branch that begins with a row on no branch puts that row where it belongs. */
  lemma FirstRowState(g: Graph, lines: Lines, w: World, a: Age, begun: seq<Vertex>)
    requires Clocked(g, lines, w, a) && w.rows[a.row].onBranch.None?
    requires begun == w.rows[a.row := Begun(w.rows[a.row], a.row, w.branches)]
    ensures LineState(g, lines, begun, a, w.branches, a.row + 1)
  {
    var rows, s, b, j := w.rows, a.row, w.branches, a.row + 1;
    PathProofs.NewBranchIsUnused(g, rows, b);
    RowsAboveStand(g, lines, w, a, s);
    assert !IsLate(g, lines, a);
    forall k: nat ensures PlacedRight(g, lines, begun, a, j, k) && PointRight(g, lines, begun, a, j, k) {
      assert PlacedRight(g, lines, rows, a, 0, k) && PointRight(g, lines, rows, a, 0, k);
      if k <= s {
        RowsAboveStand(g, lines, w, a, k);
      }
    }
    forall k: nat ensures BranchRight(lines, begun, a, b, j, k) {
      BeganBranch(g, lines, w, a, begun, k);
    }
    forall k: nat, t: nat ensures OldSlotRight(g, lines, begun, a, b, k, t) {
      assert SlotRight(g, lines, rows, a, k, t);
      if k < s {
        RowsAboveStand(g, lines, w, a, k);
      }
    }
    forall k: nat, t: nat ensures NewSlotRight(g, lines, begun, a, b, j, k, t) {
      if k <= s {
        RowsAboveStand(g, lines, w, a, k);
      }
    }
  }

  lemma BeganBranch(g: Graph, lines: Lines, w: World, a: Age, begun: seq<Vertex>, k: nat)
    requires Clocked(g, lines, w, a) && w.rows[a.row].onBranch.None?
    requires begun == w.rows[a.row := Begun(w.rows[a.row], a.row, w.branches)]
    ensures BranchRight(lines, begun, a, w.branches, a.row + 1, k)
  {
    RowsAboveStand(g, lines, w, a, a.row);
    if k < |g| {
      assert PathProofs.VertexOk(g, w.rows[k], w.branches, k);
      if k <= a.row {
        RowsAboveStand(g, lines, w, a, k);
      }
    }
  }

  /** A branch that begins under a placed row changes nothing yet. */
  lemma UnderRowState(g: Graph, lines: Lines, w: World, a: Age)
    requires Clocked(g, lines, w, a) && w.rows[a.row].onBranch.Some? && !IsLate(g, lines, a)
    ensures LineState(g, lines, w.rows, a, w.branches, a.row + 1)
  {
    var rows, s, b, j := w.rows, a.row, w.branches, a.row + 1;
    PathProofs.NewBranchIsUnused(g, rows, b);
    forall k: nat ensures PlacedRight(g, lines, rows, a, j, k) && PointRight(g, lines, rows, a, j, k) {
      assert PlacedRight(g, lines, rows, a, 0, k) && PointRight(g, lines, rows, a, 0, k);
      if k <= s {
        RowsAboveStand(g, lines, w, a, k);
      }
    }
    forall k: nat ensures BranchRight(lines, rows, a, b, j, k) {
      if k < |g| {
        assert PathProofs.VertexOk(g, rows[k], b, k);
        if k <= s {
          RowsAboveStand(g, lines, w, a, k);
        }
      }
    }
    forall k: nat, t: nat ensures OldSlotRight(g, lines, rows, a, b, k, t) {
      assert SlotRight(g, lines, rows, a, k, t);
    }
    forall k: nat, t: nat ensures NewSlotRight(g, lines, rows, a, b, j, k, t) {
      if k <= s {
        RowsAboveStand(g, lines, w, a, k);
      }
    }
  }

  lemma FirstLinks(g: Graph, lines: Lines, w: World, a: Age)
    requires Clocked(g, lines, w, a) && w.rows[a.row].nextParent == a.parent
    requires w.rows[a.row].onBranch.None? <==> a.parent == 0
    ensures LinksWalked(g, lines, a, a.row + 1, a.row, a.parent)
  {
    var j := a.row + 1;
    forall c: nat, p: nat | OnLink(g, lines, a, c, p) && c < j
      ensures (c == a.row && p == a.parent) || (g[c][p].Row? && g[c][p].row < j)
    {
      if p == 0 {
        RowsAboveStand(g, lines, w, a, c);
      }
    }
  }

  /** A line for which the branch arm is taken is not late. */
  lemma BranchIsNotLate(g: Graph, lines: Lines, w: World, a: Age)
    requires Clocked(g, lines, w, a) && !TakesMergeArm(g, w.rows, a.row) && w.rows[a.row].nextParent == a.parent
    requires w.rows[a.row].onBranch.None? <==> a.parent == 0
    ensures !IsLate(g, lines, a)
  {
    forall t: nat ensures !Late(g, lines, a, t) {
      assert PlacedRight(g, lines, w.rows, a, 0, t);
    }
  }

  lemma BranchOnLine(g: Graph, lines: Lines, w: World, a: Age) returns (begun: seq<Vertex>)
    requires Clocked(g, lines, w, a) && !TakesMergeArm(g, w.rows, a.row) && Unfinished(g, w.rows, a.row)
    requires w.rows[a.row].nextParent == a.parent && (w.rows[a.row].onBranch.None? <==> a.parent == 0)
    ensures var walk := Walk(begun, a.row, NextParent(g, w.rows, a.row), false);
      && OnLine(g, lines, walk, a, w.branches, a.row + 1)
      && Run(g, w, a.row).rows == BranchWalk(g, walk, w.branches, a.row + 1)
  {
    var s := a.row;
    begun := PathProofs.BranchBegins(g, w, s);
    BranchIsNotLate(g, lines, w, a);
    FirstLinks(g, lines, w, a);
    if w.rows[s].onBranch.None? {
      RowsAboveStand(g, lines, w, a, s);
      FirstRowState(g, lines, w, a, begun);
    } else {
      assert PathProofs.VertexOk(g, w.rows[s], w.branches, s);
      assert begun == w.rows;
      UnderRowState(g, lines, w, a);
    }
    forall k: nat | k != s ensures CountRight(g, begun, s, k) {
      assert CountRight(g, w.rows, s, k);
    }
  }

  /** One run of the solver lets the clock go on by one line. */
  lemma RunClocked(g: Graph, lines: Lines, w: World, a: Age)
    requires Clocked(g, lines, w, a) && Unfinished(g, w.rows, a.row)
    requires w.rows[a.row].nextParent == a.parent && (w.rows[a.row].onBranch.None? <==> a.parent == 0)
    ensures var w' := Run(g, w, a.row);
      && Clocked(g, lines, w', Next(a)) && w'.rows[a.row].onBranch.Some?
      && w'.rows[a.row].nextParent == if g[a.row] == [] then 0 else a.parent + 1
  {
    PathProofs.RunKeeps(g, w, a.row);
    var w' := Run(g, w, a.row);
    if TakesMergeArm(g, w.rows, a.row) {
      MergeClocked(g, lines, w, a, NextParent(g, w.rows, a.row).row);
    } else {
      var begun := BranchOnLine(g, lines, w, a);
      var walk := Walk(begun, a.row, NextParent(g, w.rows, a.row), false);
      var end := WalkHalts(g, lines, walk, a, w.branches, a.row + 1);
      HaltedClocked(g, lines, w', a, w.branches, end);
      RowsAbove(g, lines, Next(a), a.row);
      assert PlacedRight(g, lines, w'.rows, Next(a), 0, a.row);
      assert PathProofs.VertexOk(g, w.rows[a.row], w.branches, a.row);
    }
  }

  // ---------- the whole solver ----------

  /** The clock shows the line the next run walks along. */
  ghost predicate Ticking(g: Graph, lines: Lines, w: World, a: Age) {
    && Clocked(g, lines, w, a)
    && if w.rows[a.row].onBranch.None? then a.parent == 0
       else a.parent == if g[a.row] == [] then 1 else w.rows[a.row].nextParent
  }

  lemma RunTicks(g: Graph, lines: Lines, w: World, a: Age)
    requires Ticking(g, lines, w, a) && Unfinished(g, w.rows, a.row)
    ensures Ticking(g, lines, Run(g, w, a.row), Next(a))
  {
    assert PathProofs.VertexOk(g, w.rows[a.row], w.branches, a.row) && PathProofs.Settled(g, w.rows, a.row);
    RunClocked(g, lines, w, a);
  }

  /** A row that is placed when its turn comes begins no line with itself. */
  lemma BeginsNothing(g: Graph, lines: Lines, r: nat, k: nat)
    requires AreLines(g, lines) && r < |g| && lines[r] != Age(r, 0)
    ensures !Takes(g, lines, Age(r, 0), k)
  {
    forall c: nat, p: nat ensures !LinkSpans(g, lines, Age(r, 0), c, p, k) {
      if c < |g| {
        LineShape(g, lines, c);
      }
    }
  }

  /** Line `a` is the last that begins at its row or under it; `a'` is the next that begins anywhere. */
  ghost predicate Follows(g: Graph, lines: Lines, a: Age, a': Age) {
    && a.row + 1 == a'.row < |g| == |lines| && a.parent == Beginnings(g, a.row)
    && if lines[a'.row] == Age(a'.row, 0) then a'.parent == 0 else a'.parent == 1
  }

  lemma FollowsOlder(g: Graph, lines: Lines, a: Age, a': Age, k: nat)
    requires AreLines(g, lines) && Follows(g, lines, a, a') && k < |g|
    ensures Older(lines[k], a') <==> Older(lines[k], a)
  {
    LineShape(g, lines, k);
  }

  lemma FollowsTaken(g: Graph, lines: Lines, a: Age, a': Age, k: nat)
    requires AreLines(g, lines) && Follows(g, lines, a, a')
    ensures Taken(g, lines, k, a') == Taken(g, lines, k, a)
  {
    assert Taken(g, lines, k, Age(a'.row, 0)) == Taken(g, lines, k, a);
    if a'.parent == 1 {
      BeginsNothing(g, lines, a'.row, k);
    }
  }

  lemma FollowsReserved(g: Graph, lines: Lines, a: Age, a': Age, t: nat, k: nat)
    requires AreLines(g, lines) && Follows(g, lines, a, a')
    ensures Reserved(g, lines, t, k, a') <==> Reserved(g, lines, t, k, a)
  {
    if k > 0 {
      forall q: nat {:trigger Late(g, lines, Age(k - 1, q), t)} | Late(g, lines, Age(k - 1, q), t)
        ensures Older(Age(k - 1, q), a') <==> Older(Age(k - 1, q), a)
      {
      }
    }
  }

  lemma FollowsTicks(g: Graph, lines: Lines, w: World, a: Age) returns (a': Age)
    requires Ticking(g, lines, w, a) && !Unfinished(g, w.rows, a.row) && a.row + 1 < |g|
    ensures Ticking(g, lines, w, a') && a'.row == a.row + 1
  {
    var r := a.row + 1;
    assert PathProofs.VertexOk(g, w.rows[a.row], w.branches, a.row);
    assert PlacedRight(g, lines, w.rows, a, 0, r) && CountRight(g, w.rows, a.row, r);
    LineShape(g, lines, r);
    a' := Age(r, if w.rows[r].onBranch.None? then 0 else 1);
    assert Follows(g, lines, a, a');
    forall k: nat ensures PlacedRight(g, lines, w.rows, a', 0, k) && PointRight(g, lines, w.rows, a', 0, k) {
      assert PlacedRight(g, lines, w.rows, a, 0, k) && PointRight(g, lines, w.rows, a, 0, k);
      if k < |g| {
        FollowsOlder(g, lines, a, a', k);
        FollowsTaken(g, lines, a, a', k);
      }
    }
    forall k: nat, t: nat ensures SlotRight(g, lines, w.rows, a', k, t) {
      assert SlotRight(g, lines, w.rows, a, k, t);
      FollowsReserved(g, lines, a, a', t, k);
    }
    forall k: nat ensures CountRight(g, w.rows, r, k) {
      assert CountRight(g, w.rows, a.row, k);
    }
  }

  lemma {:induction false} SolvePoints(g: Graph, lines: Lines, w: World, a: Age, k: nat)
    requires Ticking(g, lines, w, a) && PathProofs.FinishedBelow(g, w.rows, a.row) && k < |g|
    ensures PathProofs.Solve(g, w, a.row).rows[k].x == PointOf(g, lines, k)
    decreases PathProofs.Remaining(g, w.rows), |g| - a.row
  {
    PathProofs.WorkNonNegative(g, w.rows, w.branches, |g|);
    if Unfinished(g, w.rows, a.row) {
      PathProofs.RunKeeps(g, w, a.row);
      PathProofs.FinishedStays(g, w, Run(g, w, a.row).rows, a.row);
      RunTicks(g, lines, w, a);
      SolvePoints(g, lines, Run(g, w, a.row), Next(a), k);
    } else if a.row + 1 < |g| {
      var a' := FollowsTicks(g, lines, w, a);
      SolvePoints(g, lines, w, a', k);
    } else {
      assert PathProofs.Solve(g, w, a.row) == PathProofs.Solve(g, w, a.row + 1) == w;
      assert !Unfinished(g, w.rows, k) && PointRight(g, lines, w.rows, a, 0, k);
    }
  }

  /** At the start the clock shows the first line, and nothing is placed. */
  lemma StartTicks(g: Graph, lines: Lines)
    requires AreLines(g, lines) && g != []
    ensures Ticking(g, lines, Start(g), Age(0, 0))
  {
    var w, a := Start(g), Age(0, 0);
    PathProofs.StartOk(g);
    forall k: nat ensures PlacedRight(g, lines, w.rows, a, 0, k) {
    }
    forall k: nat ensures PointRight(g, lines, w.rows, a, 0, k) {
    }
    forall k: nat, t: nat ensures SlotRight(g, lines, w.rows, a, k, t) {
    }
    forall k: nat ensures CountRight(g, w.rows, a.row, k) {
    }
  }

  /** The solver puts every row on the point that the lines alone give it. */
  lemma SolvedPoints(g: Graph, k: nat)
    requires WellFormed(g) && k < |g|
    ensures AreLines(g, LinesTo(g, |g|))
    ensures PathProofs.Solved(g)[k].x == PointOf(g, LinesTo(g, |g|), k)
  {
    var lines := LinesTo(g, |g|);
    LinesAreLines(g);
    StartTicks(g, lines);
    SolvePoints(g, lines, Start(g), Age(0, 0), k);
  }
}
