/**
 * Commit lists as both the graph worker and the lane layout see them: rows in
 * display order, each naming its parents by hash.
 */
module CommitGraph {

  type Hash = string

  datatype Commit = Commit(hash: Hash, parents: seq<Hash>)

  function Hashes(commits: seq<Commit>): (hs: seq<Hash>)
    ensures |hs| == |commits|
    ensures forall i :: 0 <= i < |hs| ==> hs[i] == commits[i].hash
  {
    seq(|commits|, i requires 0 <= i < |commits| => commits[i].hash)
  }

  ghost predicate Distinct<T>(s: seq<T>) {
    forall i, j :: 0 <= i < j < |s| ==> s[i] != s[j]
  }

  /** Row `child` names the commit of row `parent` among its parents. */
  ghost predicate Link(commits: seq<Commit>, child: int, parent: int) {
    && 0 <= child < |commits|
    && 0 <= parent < |commits|
    && commits[parent].hash in commits[child].parents
  }

  /** Every parent that is in the list lies on a later row. */
  ghost predicate Topological(commits: seq<Commit>) {
    forall child, parent :: Link(commits, child, parent) ==> child < parent
  }

  /** What the layout relies on: distinct hashes, parents after children. */
  ghost predicate History(commits: seq<Commit>) {
    Distinct(Hashes(commits)) && Topological(commits)
  }

  lemma SameHashSameRow(commits: seq<Commit>, a: int, b: int)
    requires Distinct(Hashes(commits))
    requires 0 <= a < |commits| && 0 <= b < |commits|
    requires commits[a].hash == commits[b].hash
    ensures a == b
  {
    assert Hashes(commits)[a] == Hashes(commits)[b];
  }

  // ---------- hash lookup tables ----------

  /** `table` sends every listed hash to the last row carrying it, and nothing else. */
  ghost predicate IsLookup(hashes: seq<Hash>, table: map<Hash, nat>) {
    && (forall i :: 0 <= i < |hashes| ==> hashes[i] in table)
    && (forall h :: h in table ==>
          && table[h] < |hashes|
          && hashes[table[h]] == h
          && forall j :: table[h] < j < |hashes| ==> hashes[j] != h)
  }

  /**
   * `table` after each row's index has been written over `before`: listed hashes by their last row,
   * others as they were.
   */
  ghost predicate WrittenOver(hashes: seq<Hash>, before: map<Hash, nat>, table: map<Hash, nat>) {
    && (forall h :: h in table <==> h in hashes || h in before)
    && (forall h :: h in table && h !in hashes ==> table[h] == before[h])
    && (forall h :: h in hashes ==>
          && table[h] < |hashes|
          && hashes[table[h]] == h
          && forall j :: table[h] < j < |hashes| ==> hashes[j] != h)
  }

  /** Writes each row's index into a table in turn. */
  method FillLookup(before: map<Hash, nat>, hashes: seq<Hash>) returns (table: map<Hash, nat>)
    ensures WrittenOver(hashes, before, table)
  {
    table := before;
    for i := 0 to |hashes|
      invariant WrittenOver(hashes[..i], before, table)
    {
      table := table[hashes[i] := i];
      assert hashes[..i + 1] == hashes[..i] + [hashes[i]];
    }
    assert hashes[..|hashes|] == hashes;
  }

  /**
   * A table written over an earlier one has no stale entry if and only if everything the earlier
   * one knew is still listed.
   */
  lemma NoStaleEntryIff(hashes: seq<Hash>, before: map<Hash, nat>, table: map<Hash, nat>)
    requires WrittenOver(hashes, before, table)
    ensures IsLookup(hashes, table) <==> forall h :: h in before ==> h in hashes
  {
    if IsLookup(hashes, table) {
      forall h | h in before ensures h in hashes {
        assert h in table && hashes[table[h]] == h;
      }
    }
  }

  /** The table built by assigning each row's index in turn. */
  method BuildLookup(hashes: seq<Hash>) returns (table: map<Hash, nat>)
    ensures IsLookup(hashes, table)
  {
    table := FillLookup(map[], hashes);
    NoStaleEntryIff(hashes, map[], table);
  }

  /** The table is determined by the list. */
  lemma LookupIsUnique(hashes: seq<Hash>, one: map<Hash, nat>, other: map<Hash, nat>)
    requires IsLookup(hashes, one) && IsLookup(hashes, other)
    ensures one == other
  {
    assert forall h :: h in one ==> hashes[one[h]] in other && one[h] == other[h];
    assert forall h :: h in other ==> hashes[other[h]] in one;
  }

  /** With distinct hashes a lookup is the inverse of reading a row's hash. */
  lemma LookupInverts(hashes: seq<Hash>, table: map<Hash, nat>, i: int)
    requires Distinct(hashes) && IsLookup(hashes, table)
    requires 0 <= i < |hashes|
    ensures hashes[i] in table && table[hashes[i]] == i
  {
  }

  // ---------- lanes that must be open at the same time ----------

  /** Some row above `k` names row `r` as a parent. */
  ghost predicate Awaited(commits: seq<Commit>, k: nat, r: nat) {
    exists child :: 0 <= child < k && Link(commits, child, r)
  }

  /** Rows from `k` on that are already awaited above `k`. */
  ghost function Pending(commits: seq<Commit>, k: nat): set<nat> {
    set r: nat | k <= r < |commits| && Awaited(commits, k, r)
  }

  /** Rows that need a lane of their own while row `i` is drawn. */
  ghost function Occupants(commits: seq<Commit>, i: nat): set<nat> {
    set r: nat | i <= r < |commits| && (r == i || Awaited(commits, i, r))
  }

  /** How many lanes row `i` needs open. */
  ghost function Needed(commits: seq<Commit>, i: nat): nat {
    |Occupants(commits, i)|
  }

  /** The largest number of lanes that any of the first `k` rows needs at once. */
  ghost function Width(commits: seq<Commit>, k: nat): (w: nat)
    ensures forall i :: 0 <= i < k ==> Needed(commits, i) <= w
    ensures k > 0 ==> exists i :: 0 <= i < k && Needed(commits, i) == w
  {
    if k == 0 then 0
    else
      var rest := Width(commits, k - 1);
      var here := Needed(commits, k - 1);
      if here > rest then here else rest
  }

  /** Giving each row a lane so that rows which are open together never share one. */
  ghost predicate ConflictFree(commits: seq<Commit>, lanes: seq<int>) {
    && |lanes| == |commits|
    && forall i, a, b ::
         0 <= i < |commits| && a in Occupants(commits, i) && b in Occupants(commits, i) && a != b ==>
           lanes[a] != lanes[b]
  }

  /** What is pending after a row is what the next row shares the screen with. */
  lemma PendingAfterFitsBelow(commits: seq<Commit>, i: nat)
    requires i < |commits|
    ensures |Pending(commits, i + 1)| <= Width(commits, |commits|)
  {
    if i + 1 < |commits| {
      SubsetSize(Pending(commits, i + 1), Occupants(commits, i + 1));
      assert Needed(commits, i + 1) <= Width(commits, |commits|);
    } else {
      assert Pending(commits, i + 1) == {};
    }
  }

  lemma {:induction false} SubsetSize<T>(small: set<T>, large: set<T>)
    requires small <= large
    ensures |small| <= |large|
  {
    assert large == small + (large - small);
  }

  /** Pigeonhole: rows sent to different lanes below `bound` are at most `bound` many. */
  lemma {:induction false} Pigeonhole(rows: set<nat>, lanes: seq<int>, bound: nat)
    requires forall r :: r in rows ==> 0 <= r < |lanes| && 0 <= lanes[r] < bound
    requires forall a, b :: a in rows && b in rows && a != b ==> lanes[a] != lanes[b]
    ensures |rows| <= bound
    decreases bound
  {
    if rows != {} {
      var some :| some in rows;
      assert lanes[some] < bound;
      if top :| top in rows && lanes[top] == bound - 1 {
        Pigeonhole(rows - {top}, lanes, bound - 1);
      } else {
        Pigeonhole(rows, lanes, bound - 1);
      }
    }
  }

  /** No conflict-free assignment fits into fewer lanes than the width. */
  lemma WidthIsLowerBound(commits: seq<Commit>, lanes: seq<int>, bound: nat)
    requires ConflictFree(commits, lanes)
    requires forall r :: 0 <= r < |lanes| ==> 0 <= lanes[r] < bound
    ensures Width(commits, |commits|) <= bound
  {
    if |commits| > 0 {
      var i :| 0 <= i < |commits| && Needed(commits, i) == Width(commits, |commits|);
      Pigeonhole(Occupants(commits, i), lanes, bound);
    }
  }
}
