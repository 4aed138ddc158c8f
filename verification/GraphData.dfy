/** Assembling the rows of the commit graph: log, stashes, refs and the uncommitted row. */
module GraphData {
  import opened Wrappers
  import opened CommitGraph
  import opened Sorting

  const UNCOMMITTED: Hash := "__uncommitted__"

  datatype Stash = Stash(hash: Hash, baseHash: Hash, selector: string, date: int)

  datatype Ref =
    | Head(hash: Hash, name: string)
    | Tag(hash: Hash, name: string, annotated: bool)
    | Remote(hash: Hash, name: string)

  datatype TagLabel = TagLabel(name: string, annotated: bool)

  datatype RemoteLabel = RemoteLabel(name: string, remote: Option<string>)

  datatype Row = Row(hash: Hash, parentHashes: seq<Hash>, heads: seq<string>, tags: seq<TagLabel>,
                     remotes: seq<RemoteLabel>, stash: Option<Stash>, isUncommitted: bool)

  /** A stash that will be inserted in front of the row of its base commit. */
  datatype Insertion = Insertion(index: nat, data: Stash)

  function RowHashes(rows: seq<Row>): (hs: seq<Hash>)
    ensures |hs| == |rows|
    ensures forall i :: 0 <= i < |hs| ==> hs[i] == rows[i].hash
  {
    Hashes(AsCommits(rows))
  }

  /** The rows as the layout sees them. */
  function AsCommits(rows: seq<Row>): (cs: seq<Commit>)
    ensures |cs| == |rows|
    ensures forall i :: 0 <= i < |cs| ==> cs[i] == Commit(rows[i].hash, rows[i].parentHashes)
  {
    seq(|rows|, i requires 0 <= i < |rows| => Commit(rows[i].hash, rows[i].parentHashes))
  }

  function PlainRow(c: Commit): Row {
    Row(c.hash, c.parents, [], [], [], None, false)
  }

  function StashRow(s: Stash): Row {
    Row(s.hash, [s.baseHash], [], [], [], Some(s), false)
  }

  // ---------- splicing against weaving ----------

  /** Earlier base first; on one base the newest stash first. */
  predicate Before(a: Insertion, b: Insertion) {
    a.index < b.index || (a.index == b.index && a.data.date >= b.data.date)
  }

  function At(k: nat): Insertion -> bool {
    (t: Insertion) => t.index == k
  }

  function StashRows(ts: seq<Insertion>): (rows: seq<Row>)
    ensures |rows| == |ts|
    ensures forall i :: 0 <= i < |rows| ==> rows[i] == StashRow(ts[i].data)
  {
    seq(|ts|, i requires 0 <= i < |ts| => StashRow(ts[i].data))
  }

  /** One pass over the commits from `k` on: each is preceded by the stashes made on it. */
  function Weave(commits: seq<Row>, ts: seq<Insertion>, k: nat): seq<Row>
    requires k <= |commits|
    decreases |commits| - k
  {
    if k == |commits| then []
    else Block(commits, ts, k) + Weave(commits, ts, k + 1)
  }

  /** Commit `k` behind its own stashes. */
  function Block(commits: seq<Row>, ts: seq<Insertion>, k: nat): seq<Row>
    requires k < |commits|
  {
    StashRows(Filter(ts, At(k))) + [commits[k]]
  }

  function Splice(rows: seq<Row>, at: nat, row: Row): seq<Row>
    requires at <= |rows|
  {
    rows[..at] + [row] + rows[at..]
  }

  lemma BlockAlone(commits: seq<Row>, ts: seq<Insertion>, k: nat)
    requires k < |commits| && forall t :: t in ts ==> t.index != k
    ensures Block(commits, ts, k) == [commits[k]]
  {
    FilterNone(ts, At(k));
  }

  lemma PrependSlice(rows: seq<Row>, k: nat, b: nat, rest: seq<Row>)
    requires k < b <= |rows|
    ensures [rows[k]] + (rows[k + 1..b] + rest) == rows[k..b] + rest
  {
  }

  /** Commits above every insertion stand as they were. */
  lemma {:induction false} WeavePrefix(commits: seq<Row>, ts: seq<Insertion>, k: nat, b: nat)
    requires k <= b <= |commits|
    requires forall t :: t in ts ==> t.index >= b
    ensures Weave(commits, ts, k) == commits[k..b] + Weave(commits, ts, b)
    decreases b - k
  {
    if k < b {
      BlockAlone(commits, ts, k);
      WeavePrefix(commits, ts, k + 1, b);
      PrependSlice(commits, k, b, Weave(commits, ts, b));
    }
  }

  lemma BlockCons(commits: seq<Row>, t: Insertion, ts: seq<Insertion>, k: nat)
    requires k < |commits|
    ensures Block(commits, [t] + ts, k)
         == if t.index == k then [StashRow(t.data)] + Block(commits, ts, k) else Block(commits, ts, k)
  {
    FilterConcat([t], ts, At(k));
    FilterOne(t, At(k));
    var own := Filter(ts, At(k));
    if t.index == k {
      assert StashRows([t] + own) == [StashRow(t.data)] + StashRows(own);
    } else {
      assert [] + own == own;
    }
  }

  /** An insertion above row `k` does not show from row `k` on. */
  lemma {:induction false} WeaveConsAbove(commits: seq<Row>, t: Insertion, ts: seq<Insertion>, more: seq<Insertion>,
                                          k: nat)
    requires more == [t] + ts && k <= |commits| && t.index < k
    ensures Weave(commits, more, k) == Weave(commits, ts, k)
    decreases |commits| - k
  {
    if k < |commits| {
      WeaveConsAbove(commits, t, ts, more, k + 1);
      BlockCons(commits, t, ts, k);
    }
  }

  /** One more insertion in front of all others goes in front of its base's block. */
  lemma WeaveCons(commits: seq<Row>, t: Insertion, ts: seq<Insertion>, more: seq<Insertion>, k: nat)
    requires more == [t] + ts && k < |commits| && t.index == k
    ensures Weave(commits, more, k) == [StashRow(t.data)] + Weave(commits, ts, k)
  {
    WeaveConsAbove(commits, t, ts, more, k + 1);
    BlockCons(commits, t, ts, k);
    Regroup(StashRow(t.data), Block(commits, ts, k), Weave(commits, ts, k + 1));
  }

  lemma Regroup(head: Row, block: seq<Row>, rest: seq<Row>)
    ensures ([head] + block) + rest == [head] + (block + rest)
  {
  }

  /** Splicing at the smallest remaining index extends the weave by that insertion. */
  lemma SpliceStep(commits: seq<Row>, t: Insertion, ts: seq<Insertion>, more: seq<Insertion>)
    requires more == [t] + ts && t.index < |commits|
    requires forall u :: u in ts ==> t.index <= u.index
    ensures t.index <= |Weave(commits, ts, 0)|
    ensures Splice(Weave(commits, ts, 0), t.index, StashRow(t.data)) == Weave(commits, more, 0)
  {
    var b := t.index;
    WeavePrefix(commits, ts, 0, b);
    WeavePrefix(commits, more, 0, b);
    WeaveCons(commits, t, ts, more, b);
    var rest := Weave(commits, ts, b);
    assert Weave(commits, ts, 0)[..b] == commits[..b] && Weave(commits, ts, 0)[b..] == rest;
  }

  /** Splices sorted insertions from the back to the front. */
  method SpliceStashes(commits: seq<Row>, toAdd: seq<Insertion>) returns (rows: seq<Row>)
    requires forall t :: t in toAdd ==> t.index < |commits|
    requires SortedBy(toAdd, Before)
    ensures rows == Weave(commits, toAdd, 0)
  {
    rows := commits;
    WeavePrefix(commits, [], 0, |commits|);
    assert toAdd[|toAdd|..] == [];
    for i := |toAdd| downto 0
      invariant rows == Weave(commits, toAdd[i..], 0)
    {
      assert toAdd[i..] == [toAdd[i]] + toAdd[i + 1..];
      SpliceStep(commits, toAdd[i], toAdd[i + 1..], toAdd[i..]);
      rows := Splice(rows, toAdd[i].index, StashRow(toAdd[i].data));
    }
    assert toAdd[0..] == toAdd;
  }

  // ---------- what the woven list looks like ----------

  lemma BeforeIsAnOrder()
    ensures TotalOrder(Before)
  {
  }

  lemma {:induction false} FilterCounts<T>(s: seq<T>, p: T -> bool, n: nat, x: T)
    requires n <= |s|
    ensures multiset(FilterTo(s, p, n))[x] == if p(x) then multiset(s[..n])[x] else 0
  {
    if n > 0 {
      FilterCounts(s, p, n - 1, x);
      assert s[..n] == s[..n - 1] + [s[n - 1]];
    }
  }

  /** The stashes in front of one commit: all of its own, newest first, ties in their original order. */
  lemma OwnStashesNewestFirst(toAdd: seq<Insertion>, k: nat, date: int)
    ensures var own := Filter(Sort(toAdd, Before), At(k));
      && multiset(own) == multiset(Filter(toAdd, At(k)))
      && (forall i, j :: 0 <= i < j < |own| ==> own[i].data.date >= own[j].data.date)
    ensures var tied := (t: Insertion) => t.index == k && t.data.date == date;
      Filter(Sort(toAdd, Before), tied) == Filter(toAdd, tied)
  {
    var sorted := Sort(toAdd, Before);
    var own := Filter(sorted, At(k));
    BeforeIsAnOrder();
    SortSorts(toAdd, Before);
    SortPermutes(toAdd, Before);
    FilterSorted(sorted, Before, At(k), |sorted|);
    forall t: Insertion ensures multiset(own)[t] == multiset(Filter(toAdd, At(k)))[t] {
      FilterCounts(sorted, At(k), |sorted|, t);
      FilterCounts(toAdd, At(k), |toAdd|, t);
      assert sorted[..|sorted|] == sorted && toAdd[..|toAdd|] == toAdd;
    }
    forall i, j | 0 <= i < j < |own| ensures own[i].data.date >= own[j].data.date {
      FilterMembers(sorted, At(k), own[i]);
      FilterMembers(sorted, At(k), own[j]);
    }
    SortStable(toAdd, Before, (t: Insertion) => t.index == k && t.data.date == date);
  }

  /** A commit of the log from row `k` on. */
  ghost predicate LoggedFrom(commits: seq<Row>, k: nat, r: Row) {
    exists j :: k <= j < |commits| && commits[j] == r
  }

  /** A stash inserted at row `k` or below. */
  ghost predicate InsertedFrom(ts: seq<Insertion>, k: nat, r: Row) {
    exists t :: t in ts && k <= t.index && r == StashRow(t.data)
  }

  lemma {:induction false} WeaveMembers(commits: seq<Row>, ts: seq<Insertion>, k: nat, r: Row)
    requires k <= |commits| && forall t :: t in ts ==> t.index < |commits|
    ensures r in Weave(commits, ts, k) <==> LoggedFrom(commits, k, r) || InsertedFrom(ts, k, r)
    decreases |commits| - k
  {
    if k < |commits| {
      WeaveMembers(commits, ts, k + 1, r);
      BlockMembers(commits, ts, k, r);
      if InsertedFrom(ts, k, r) {
        var t :| t in ts && k <= t.index && r == StashRow(t.data);
        assert t.index == k || InsertedFrom(ts, k + 1, r);
      }
    }
  }

  /** `listed` tells the log's commits from the inserted stashes. */
  ghost predicate Tells(commits: seq<Row>, ts: seq<Insertion>, listed: Row -> bool) {
    && (forall i :: 0 <= i < |commits| ==> listed(commits[i]))
    && (forall t :: t in ts ==> !listed(StashRow(t.data)))
  }

  lemma BlockKeepsLog(commits: seq<Row>, ts: seq<Insertion>, k: nat, listed: Row -> bool)
    requires k < |commits| && Tells(commits, ts, listed)
    ensures Filter(Block(commits, ts, k), listed) == [commits[k]]
  {
    var own := StashRows(Filter(ts, At(k)));
    forall r | r in own ensures !listed(r) {
      var i :| 0 <= i < |own| && own[i] == r;
      FilterMembers(ts, At(k), Filter(ts, At(k))[i]);
    }
    FilterNone(own, listed);
    FilterConcat(own, [commits[k]], listed);
    FilterOne(commits[k], listed);
  }

  /** Leaving the inserted stashes out gives back the log, in its own order. */
  lemma {:induction false} WeaveKeepsLog(commits: seq<Row>, ts: seq<Insertion>, k: nat, listed: Row -> bool)
    requires k <= |commits| && Tells(commits, ts, listed)
    ensures Filter(Weave(commits, ts, k), listed) == commits[k..]
    decreases |commits| - k
  {
    if k < |commits| {
      WeaveKeepsLog(commits, ts, k + 1, listed);
      BlockKeepsLog(commits, ts, k, listed);
      KeepStep(Block(commits, ts, k), Weave(commits, ts, k + 1), commits, k, listed);
    } else {
      assert commits[k..] == [];
    }
  }

  lemma KeepStep(block: seq<Row>, rest: seq<Row>, commits: seq<Row>, k: nat, listed: Row -> bool)
    requires k < |commits|
    requires Filter(block, listed) == [commits[k]] && Filter(rest, listed) == commits[k + 1..]
    ensures Filter(block + rest, listed) == commits[k..]
  {
    FilterConcat(block, rest, listed);
    assert [commits[k]] + commits[k + 1..] == commits[k..];
  }

  /** The members of one block. */
  lemma BlockMembers(commits: seq<Row>, ts: seq<Insertion>, k: nat, r: Row)
    requires k < |commits|
    ensures r in Block(commits, ts, k)
       <==> r == commits[k] || exists t :: t in ts && t.index == k && r == StashRow(t.data)
  {
    var own := Filter(ts, At(k));
    if r in StashRows(own) {
      var i :| 0 <= i < |own| && StashRows(own)[i] == r;
      FilterMembers(ts, At(k), own[i]);
    }
    if t :| t in ts && t.index == k && r == StashRow(t.data) {
      FilterMembers(ts, At(k), t);
      var i :| 0 <= i < |own| && own[i] == t;
      assert StashRows(own)[i] == r;
    }
  }

  // ---------- the woven list is a history ----------

  ghost predicate RowsHistory(rows: seq<Row>) {
    History(AsCommits(rows))
  }

  ghost predicate DistinctStashes(ts: seq<Insertion>) {
    forall i, j :: 0 <= i < j < |ts| ==> ts[i].data.hash != ts[j].data.hash
  }

  /** Inserted stashes are new commits on listed bases, and nobody's parents. */
  ghost predicate NewStash(commits: seq<Row>, t: Insertion) {
    && t.index < |commits| && commits[t.index].hash == t.data.baseHash
    && forall i :: 0 <= i < |commits| ==> commits[i].hash != t.data.hash && t.data.hash !in commits[i].parentHashes
  }

  ghost predicate Insertable(commits: seq<Row>, ts: seq<Insertion>) {
    && RowsHistory(commits)
    && DistinctStashes(ts)
    && forall t {:trigger NewStash(commits, t)} :: t in ts ==> NewStash(commits, t)
  }

  /** No row of `above` is, or is a parent of, a row of `below`. */
  ghost predicate NoBackLink(above: seq<Row>, below: seq<Row>) {
    forall x, y :: x in above && y in below ==> x.hash != y.hash && x.hash !in y.parentHashes
  }

  lemma HistoryConcat(above: seq<Row>, below: seq<Row>)
    requires RowsHistory(above) && RowsHistory(below) && NoBackLink(above, below)
    ensures RowsHistory(above + below)
  {
    var rows := above + below;
    var cs, n := AsCommits(rows), |above|;
    forall i, j | 0 <= i < j < |rows| ensures Hashes(cs)[i] != Hashes(cs)[j] {
      if j < n {
        assert Hashes(AsCommits(above))[i] != Hashes(AsCommits(above))[j];
      } else if i >= n {
        assert Hashes(AsCommits(below))[i - n] != Hashes(AsCommits(below))[j - n];
      } else {
        assert rows[i] in above && rows[j] in below;
      }
    }
    forall child, parent | Link(cs, child, parent) ensures child < parent {
      if child < n && parent < n {
        assert Link(AsCommits(above), child, parent);
      } else if child >= n && parent >= n {
        assert Link(AsCommits(below), child - n, parent - n);
      } else if child >= n {
        LowerRowsLinkDown(above, below, child, parent);
      }
    }
  }

  lemma LowerRowsLinkDown(above: seq<Row>, below: seq<Row>, child: nat, parent: nat)
    requires NoBackLink(above, below)
    requires parent < |above| <= child < |above| + |below|
    ensures !Link(AsCommits(above + below), child, parent)
  {
    assert (above + below)[parent] in above && (above + below)[child] in below;
  }

  lemma NoSelfLink(commits: seq<Row>, k: nat)
    requires RowsHistory(commits) && k < |commits|
    ensures commits[k].hash !in commits[k].parentHashes
  {
    assert !Link(AsCommits(commits), k, k);
  }

  lemma {:induction false} FilterKeepsDistinct(ts: seq<Insertion>, p: Insertion -> bool, n: nat)
    requires DistinctStashes(ts) && n <= |ts|
    ensures DistinctStashes(FilterTo(ts, p, n))
  {
    if n > 0 {
      FilterKeepsDistinct(ts, p, n - 1);
      var f := FilterTo(ts, p, n - 1);
      forall i | 0 <= i < |f| ensures f[i].data.hash != ts[n - 1].data.hash {
        FilterToMembers(ts, p, n - 1, f[i]);
      }
    }
  }

  lemma OwnStashIsNew(commits: seq<Row>, ts: seq<Insertion>, k: nat, i: nat)
    requires Insertable(commits, ts) && k < |commits| && i < |Filter(ts, At(k))|
    ensures var t := Filter(ts, At(k))[i]; t.index == k && t in ts && NewStash(commits, t)
  {
    FilterMembers(ts, At(k), Filter(ts, At(k))[i]);
  }

  /** One commit behind its own stashes is a history. */
  lemma BlockIsHistory(commits: seq<Row>, ts: seq<Insertion>, k: nat)
    requires Insertable(commits, ts) && k < |commits|
    ensures RowsHistory(Block(commits, ts, k))
  {
    var own := Filter(ts, At(k));
    var rows := Block(commits, ts, k);
    var cs := AsCommits(rows);
    FilterKeepsDistinct(ts, At(k), |ts|);
    forall i, j | 0 <= i < j < |rows| ensures Hashes(cs)[i] != Hashes(cs)[j] {
      OwnStashIsNew(commits, ts, k, i);
    }
    forall child, parent | Link(cs, child, parent) ensures child < parent {
      if child < |own| {
        OwnStashIsNew(commits, ts, k, child);
        if parent < |own| {
          OwnStashIsNew(commits, ts, k, parent);
        }
      } else {
        NoSelfLink(commits, k);
        if parent < |own| {
          OwnStashIsNew(commits, ts, k, parent);
        }
      }
    }
  }

  /** A block links neither up from the rows below it nor shares a hash with them. */
  lemma BlockIsAbove(commits: seq<Row>, ts: seq<Insertion>, k: nat)
    requires Insertable(commits, ts) && k < |commits|
    ensures NoBackLink(Block(commits, ts, k), Weave(commits, ts, k + 1))
  {
    forall x, y | x in Block(commits, ts, k) && y in Weave(commits, ts, k + 1)
      ensures x.hash != y.hash && x.hash !in y.parentHashes
    {
      BlockMembers(commits, ts, k, x);
      assert forall t :: t in ts ==> NewStash(commits, t);
      WeaveMembers(commits, ts, k + 1, y);
      if LoggedFrom(commits, k + 1, y) {
        var j :| k + 1 <= j < |commits| && commits[j] == y;
        AboveCommit(commits, ts, k, x, j);
      } else {
        var u :| u in ts && k + 1 <= u.index && y == StashRow(u.data);
        AboveStash(commits, ts, k, x, u);
      }
    }
  }

  lemma AboveCommit(commits: seq<Row>, ts: seq<Insertion>, k: nat, x: Row, j: nat)
    requires Insertable(commits, ts) && k < j < |commits|
    requires x == commits[k] || exists t :: t in ts && t.index == k && x == StashRow(t.data)
    ensures x.hash != commits[j].hash && x.hash !in commits[j].parentHashes
  {
    if x == commits[k] {
      assert Hashes(AsCommits(commits))[k] != Hashes(AsCommits(commits))[j];
      assert !Link(AsCommits(commits), j, k);
    } else {
      var t :| t in ts && t.index == k && x == StashRow(t.data);
      assert NewStash(commits, t);
    }
  }

  lemma AboveStash(commits: seq<Row>, ts: seq<Insertion>, k: nat, x: Row, u: Insertion)
    requires Insertable(commits, ts) && k < |commits| && u in ts && k < u.index
    requires x == commits[k] || exists t :: t in ts && t.index == k && x == StashRow(t.data)
    ensures x.hash != u.data.hash && x.hash != u.data.baseHash
  {
    assert NewStash(commits, u);
    if x == commits[k] {
      assert Hashes(AsCommits(commits))[k] != Hashes(AsCommits(commits))[u.index];
    } else {
      var t :| t in ts && t.index == k && x == StashRow(t.data);
      assert NewStash(commits, t);
      var a :| 0 <= a < |ts| && ts[a] == t;
      var b :| 0 <= b < |ts| && ts[b] == u;
      assert a != b;
    }
  }

  /** The woven list keeps distinct hashes and parents below their children. */
  lemma {:induction false} WeaveIsHistory(commits: seq<Row>, ts: seq<Insertion>, k: nat)
    requires Insertable(commits, ts) && k <= |commits|
    ensures RowsHistory(Weave(commits, ts, k))
    decreases |commits| - k
  {
    if k < |commits| {
      WeaveIsHistory(commits, ts, k + 1);
      BlockIsHistory(commits, ts, k);
      BlockIsAbove(commits, ts, k);
      HistoryConcat(Block(commits, ts, k), Weave(commits, ts, k + 1));
    }
  }

  // ---------- stashes that the log already lists ----------

  /** The last of the first `n` stashes that is the commit `hash` itself. */
  function MarkFor(stashes: seq<Stash>, n: nat, hash: Hash): Option<Stash>
    requires n <= |stashes|
  {
    if n == 0 then None
    else if stashes[n - 1].hash == hash then Some(stashes[n - 1])
    else MarkFor(stashes, n - 1, hash)
  }

  /** The log as rows, with the listed stashes marked. */
  function MarkedRows(log: seq<Commit>, stashes: seq<Stash>, n: nat): (rows: seq<Row>)
    requires n <= |stashes|
    ensures |rows| == |log|
    ensures forall i :: 0 <= i < |log| ==> rows[i] == PlainRow(log[i]).(stash := MarkFor(stashes, n, log[i].hash))
  {
    seq(|log|, i requires 0 <= i < |log| => PlainRow(log[i]).(stash := MarkFor(stashes, n, log[i].hash)))
  }

  method MarkListed(log: seq<Commit>, lookup: map<Hash, nat>, stashes: seq<Stash>) returns (rows: seq<Row>)
    requires Distinct(Hashes(log)) && IsLookup(Hashes(log), lookup)
    ensures rows == MarkedRows(log, stashes, |stashes|)
  {
    rows := seq(|log|, i requires 0 <= i < |log| => PlainRow(log[i]));
    for k := 0 to |stashes|
      invariant rows == MarkedRows(log, stashes, k)
    {
      var s := stashes[k];
      MarkOneMore(log, lookup, stashes, k);
      if s.hash in lookup {
        rows := rows[lookup[s.hash] := rows[lookup[s.hash]].(stash := Some(s))];
      }
    }
  }

  /** One more stash marks the row it is listed on. */
  lemma MarkOneMore(log: seq<Commit>, lookup: map<Hash, nat>, stashes: seq<Stash>, k: nat)
    requires Distinct(Hashes(log)) && IsLookup(Hashes(log), lookup) && k < |stashes|
    ensures var before, after := MarkedRows(log, stashes, k), MarkedRows(log, stashes, k + 1);
            var s := stashes[k];
            if s.hash in lookup
            then lookup[s.hash] < |log| && after == before[lookup[s.hash] := before[lookup[s.hash]].(stash := Some(s))]
            else after == before
  {
    forall i | 0 <= i < |log| ensures Hashes(log)[i] in lookup && lookup[Hashes(log)[i]] == i {
      LookupInverts(Hashes(log), lookup, i);
    }
  }

  // ---------- stashes to insert ----------

  /** Of the first `n` stashes, those that are not listed but whose base is. */
  function Insertions(lookup: map<Hash, nat>, stashes: seq<Stash>, n: nat): seq<Insertion>
    requires n <= |stashes|
  {
    if n == 0 then []
    else
      var s := stashes[n - 1];
      Insertions(lookup, stashes, n - 1)
        + if s.hash !in lookup && s.baseHash in lookup then [Insertion(lookup[s.baseHash], s)] else []
  }

  method CollectInsertions(lookup: map<Hash, nat>, stashes: seq<Stash>) returns (toAdd: seq<Insertion>)
    ensures toAdd == Insertions(lookup, stashes, |stashes|)
  {
    toAdd := [];
    for k := 0 to |stashes|
      invariant toAdd == Insertions(lookup, stashes, k)
    {
      var s := stashes[k];
      if s.hash in lookup {
        continue;
      }
      if s.baseHash !in lookup {
        continue;
      }
      toAdd := toAdd + [Insertion(lookup[s.baseHash], s)];
    }
  }

  /** An insertion comes from exactly one unlisted stash with a listed base. */
  lemma {:induction false} InsertionMembers(lookup: map<Hash, nat>, stashes: seq<Stash>, n: nat, t: Insertion)
    requires n <= |stashes|
    ensures t in Insertions(lookup, stashes, n) <==>
      && t.data.hash !in lookup && t.data.baseHash in lookup && t.index == lookup[t.data.baseHash]
      && exists k :: 0 <= k < n && stashes[k] == t.data
  {
    if n > 0 {
      InsertionMembers(lookup, stashes, n - 1, t);
    }
  }

  ghost predicate DistinctStashHashes(stashes: seq<Stash>) {
    forall i, j :: 0 <= i < j < |stashes| ==> stashes[i].hash != stashes[j].hash
  }

  lemma {:induction false} InsertionsAreDistinct(lookup: map<Hash, nat>, stashes: seq<Stash>, n: nat)
    requires n <= |stashes| && DistinctStashHashes(stashes)
    ensures DistinctStashes(Insertions(lookup, stashes, n))
  {
    if n > 0 {
      InsertionsAreDistinct(lookup, stashes, n - 1);
      var front := Insertions(lookup, stashes, n - 1);
      forall i | 0 <= i < |front| ensures front[i].data.hash != stashes[n - 1].hash {
        InsertionMembers(lookup, stashes, n - 1, front[i]);
      }
    }
  }

  /** Sorting keeps the insertions distinct. */
  lemma PermutedStashesDistinct(ts: seq<Insertion>, us: seq<Insertion>)
    requires DistinctStashes(ts) && multiset(ts) == multiset(us)
    ensures DistinctStashes(us)
  {
    forall i, j | 0 <= i < j < |us| ensures us[i].data.hash != us[j].data.hash {
      if us[i].data.hash == us[j].data.hash {
        assert us[i] in multiset(us) && us[j] in multiset(us);
        assert us[i] in ts && us[j] in ts;
        assert us[i] == us[j];
        CountTwice(us, i, j);
        OnlyOnce(ts, us[i]);
      }
    }
  }

  lemma {:induction false} OnlyOnce(ts: seq<Insertion>, t: Insertion)
    requires DistinctStashes(ts)
    ensures multiset(ts)[t] <= 1
  {
    if ts != [] {
      var front, last := ts[..|ts| - 1], ts[|ts| - 1];
      assert ts == front + [last];
      OnlyOnce(front, t);
      if last == t {
        assert t !in front;
        assert t !in multiset(front);
      }
    }
  }

  // ---------- refs ----------

  /** The part of a name before its first slash, if it has one. */
  function RemotePrefix(name: string, i: nat): Option<string>
    requires i <= |name|
    decreases |name| - i
  {
    if i == |name| then None
    else if name[i] == '/' then Some(name[..i])
    else RemotePrefix(name, i + 1)
  }

  function AddRef(row: Row, ref: Ref): Row {
    match ref
    case Head(_, name) => row.(heads := row.heads + [name])
    case Tag(_, name, annotated) => row.(tags := row.tags + [TagLabel(name, annotated)])
    case Remote(_, name) => row.(remotes := row.remotes + [RemoteLabel(name, RemotePrefix(name, 0))])
  }

  /** The row with those of the first `n` refs that point at it, in order. */
  function WithRefs(row: Row, refs: seq<Ref>, n: nat): (decorated: Row)
    requires n <= |refs|
    ensures decorated.hash == row.hash && decorated.parentHashes == row.parentHashes
  {
    if n == 0 then row
    else
      var front := WithRefs(row, refs, n - 1);
      if refs[n - 1].hash == row.hash then AddRef(front, refs[n - 1]) else front
  }

  function Decorate(rows: seq<Row>, refs: seq<Ref>, n: nat): (decorated: seq<Row>)
    requires n <= |refs|
    ensures |decorated| == |rows|
    ensures forall i :: 0 <= i < |rows| ==> decorated[i] == WithRefs(rows[i], refs, n)
  {
    seq(|rows|, i requires 0 <= i < |rows| => WithRefs(rows[i], refs, n))
  }

  /** Hangs every ref on the row its hash looks up. */
  method AttachRefs(rows: seq<Row>, lookup: map<Hash, nat>, refs: seq<Ref>) returns (decorated: seq<Row>)
    requires Distinct(RowHashes(rows)) && IsLookup(RowHashes(rows), lookup)
    ensures decorated == Decorate(rows, refs, |refs|)
  {
    decorated := rows;
    for k := 0 to |refs|
      invariant decorated == Decorate(rows, refs, k)
    {
      var ref := refs[k];
      if ref.hash in lookup {
        decorated := decorated[lookup[ref.hash] := AddRef(decorated[lookup[ref.hash]], ref)];
      }
      forall i | 0 <= i < |rows| ensures decorated[i] == Decorate(rows, refs, k + 1)[i] {
        LookupInverts(RowHashes(rows), lookup, i);
      }
    }
  }

  /** How many labels a row carries. */
  function Labels(row: Row): nat {
    |row.heads| + |row.tags| + |row.remotes|
  }

  function AllLabels(rows: seq<Row>, k: nat): nat
    requires k <= |rows|
  {
    if k == 0 then 0 else AllLabels(rows, k - 1) + Labels(rows[k - 1])
  }

  /** How many of the first `n` refs point at a listed row. */
  function ListedRefs(hashes: seq<Hash>, refs: seq<Ref>, n: nat): nat
    requires n <= |refs|
  {
    if n == 0 then 0 else ListedRefs(hashes, refs, n - 1) + if refs[n - 1].hash in hashes then 1 else 0
  }

  /** One ref adds one label, to its own row only. */
  lemma {:induction false} OneRefOneLabel(rows: seq<Row>, refs: seq<Ref>, n: nat, k: nat)
    requires Distinct(RowHashes(rows)) && n < |refs| && k <= |rows|
    ensures AllLabels(Decorate(rows, refs, n + 1), k) == AllLabels(Decorate(rows, refs, n), k)
         + if refs[n].hash in RowHashes(rows)[..k] then 1 else 0
  {
    if k > 0 {
      OneRefOneLabel(rows, refs, n, k - 1);
      var hashes := RowHashes(rows);
      assert hashes[..k] == hashes[..k - 1] + [hashes[k - 1]];
      if refs[n].hash == hashes[k - 1] {
        assert refs[n].hash !in hashes[..k - 1];
      }
    }
  }

  /** Every ref that points into the list is attached exactly once, and nothing else is. */
  lemma {:induction false} RefsAttachedOnce(rows: seq<Row>, refs: seq<Ref>, n: nat)
    requires Distinct(RowHashes(rows)) && n <= |refs|
    ensures AllLabels(Decorate(rows, refs, n), |rows|) == AllLabels(rows, |rows|) + ListedRefs(RowHashes(rows), refs, n)
  {
    if n == 0 {
      assert Decorate(rows, refs, 0) == rows;
    } else {
      RefsAttachedOnce(rows, refs, n - 1);
      OneRefOneLabel(rows, refs, n - 1, |rows|);
      assert RowHashes(rows)[..|rows|] == RowHashes(rows);
    }
  }

  // ---------- the whole assembly ----------

  function UncommittedRow(head: Hash): Row {
    Row(UNCOMMITTED, [head], [], [], [], None, true)
  }

  /** What git is relied on for, about the part of the log that is shown. */
  ghost predicate GitOrdered(log: seq<Commit>, stashes: seq<Stash>) {
    && History(log)
    && DistinctStashHashes(stashes)
    && (forall s, i :: s in stashes && 0 <= i < |log| && s.hash !in Hashes(log) ==> s.hash !in log[i].parents)
    && UNCOMMITTED !in Hashes(log)
    && (forall i :: 0 <= i < |log| ==> UNCOMMITTED !in log[i].parents)
    && (forall s :: s in stashes ==> s.hash != UNCOMMITTED && s.baseHash != UNCOMMITTED)
  }

  /** The commits and stashes in display order, before refs are hung on them. */
  ghost function Woven(log: seq<Commit>, stashes: seq<Stash>, lookup: map<Hash, nat>): seq<Row> {
    var toAdd := Sort(Insertions(lookup, stashes, |stashes|), Before);
    Weave(MarkedRows(log, stashes, |stashes|), toAdd, 0)
  }

  /** The insertions collected from git's data can be woven in. */
  lemma CollectedAreInsertable(log: seq<Commit>, stashes: seq<Stash>, lookup: map<Hash, nat>)
    requires GitOrdered(log, stashes) && IsLookup(Hashes(log), lookup)
    ensures Insertable(MarkedRows(log, stashes, |stashes|), Sort(Insertions(lookup, stashes, |stashes|), Before))
  {
    var rows := MarkedRows(log, stashes, |stashes|);
    var ts := Insertions(lookup, stashes, |stashes|);
    assert AsCommits(rows) == log;
    InsertionsAreDistinct(lookup, stashes, |stashes|);
    SortPermutes(ts, Before);
    PermutedStashesDistinct(ts, Sort(ts, Before));
    forall t | t in Sort(ts, Before) ensures NewStash(rows, t) {
      SortMembers(ts, Before, t);
      InsertionMembers(lookup, stashes, |stashes|, t);
      InsertionIsNew(log, stashes, lookup, t);
    }
  }

  /** An unlisted stash, to be inserted at its listed base. */
  predicate Inserts(lookup: map<Hash, nat>, stashes: seq<Stash>, t: Insertion) {
    && t.data in stashes && t.data.hash !in lookup
    && t.data.baseHash in lookup && t.index == lookup[t.data.baseHash]
  }

  lemma InsertionIsNew(log: seq<Commit>, stashes: seq<Stash>, lookup: map<Hash, nat>, t: Insertion)
    requires GitOrdered(log, stashes) && IsLookup(Hashes(log), lookup) && Inserts(lookup, stashes, t)
    ensures NewStash(MarkedRows(log, stashes, |stashes|), t)
  {
    var rows := MarkedRows(log, stashes, |stashes|);
    forall i | 0 <= i < |rows| ensures rows[i].hash != t.data.hash && t.data.hash !in rows[i].parentHashes {
      assert Hashes(log)[i] in lookup;
      assert t.data.hash !in Hashes(log);
    }
  }

  /** Refs change neither hashes nor parents. */
  lemma DecorateKeepsCommits(rows: seq<Row>, refs: seq<Ref>, n: nat)
    requires n <= |refs|
    ensures AsCommits(Decorate(rows, refs, n)) == AsCommits(rows)
    ensures RowHashes(Decorate(rows, refs, n)) == RowHashes(rows)
  {
  }

  lemma WovenIsClear(log: seq<Commit>, stashes: seq<Stash>, lookup: map<Hash, nat>, r: Row)
    requires GitOrdered(log, stashes) && IsLookup(Hashes(log), lookup)
    requires r in Woven(log, stashes, lookup)
    ensures r.hash != UNCOMMITTED && UNCOMMITTED !in r.parentHashes
  {
    var rows := MarkedRows(log, stashes, |stashes|);
    var ts := Insertions(lookup, stashes, |stashes|);
    CollectedAreInsertable(log, stashes, lookup);
    InsertedBelow(rows, Sort(ts, Before));
    WeaveMembers(rows, Sort(ts, Before), 0, r);
    if LoggedFrom(rows, 0, r) {
      LoggedIsClear(log, stashes, r);
    } else {
      var t :| t in Sort(ts, Before) && r == StashRow(t.data);
      SortMembers(ts, Before, t);
      InsertionMembers(lookup, stashes, |stashes|, t);
      InsertedIsClear(log, stashes, lookup, t);
    }
  }

  lemma InsertedBelow(rows: seq<Row>, ts: seq<Insertion>)
    requires Insertable(rows, ts)
    ensures forall t :: t in ts ==> t.index < |rows|
  {
    assert forall t :: t in ts ==> NewStash(rows, t);
  }

  lemma LoggedIsClear(log: seq<Commit>, stashes: seq<Stash>, r: Row)
    requires GitOrdered(log, stashes) && LoggedFrom(MarkedRows(log, stashes, |stashes|), 0, r)
    ensures r.hash != UNCOMMITTED && UNCOMMITTED !in r.parentHashes
  {
    var rows := MarkedRows(log, stashes, |stashes|);
    var j :| 0 <= j < |rows| && rows[j] == r;
    assert log[j] in log;
  }

  lemma InsertedIsClear(log: seq<Commit>, stashes: seq<Stash>, lookup: map<Hash, nat>, t: Insertion)
    requires GitOrdered(log, stashes) && IsLookup(Hashes(log), lookup) && Inserts(lookup, stashes, t)
    ensures t.data.hash != UNCOMMITTED && t.data.baseHash != UNCOMMITTED
  {
    var j := lookup[t.data.baseHash];
    assert log[j].hash == Hashes(log)[j] && log[j] in log;
  }

  /** The uncommitted row in front of a history that lists the head is still a history. */
  lemma UncommittedOnTop(rows: seq<Row>, head: Hash)
    requires RowsHistory(rows) && head != UNCOMMITTED
    requires forall r :: r in rows ==> r.hash != UNCOMMITTED && UNCOMMITTED !in r.parentHashes
    ensures RowsHistory([UncommittedRow(head)] + rows)
  {
    var top := [UncommittedRow(head)];
    assert Hashes(AsCommits(top)) == [UNCOMMITTED];
    assert RowsHistory(top) by {
      assert forall child, parent :: Link(AsCommits(top), child, parent) ==> child == parent == 0;
      assert !Link(AsCommits(top), 0, 0);
    }
    HistoryConcat(top, rows);
  }

  /** Every ref hung on its row. */
  function AllDecorated(rows: seq<Row>, heads: seq<Ref>, tags: seq<Ref>, remotes: seq<Ref>): (decorated: seq<Row>)
    ensures |decorated| == |rows|
  {
    Decorate(Decorate(Decorate(rows, heads, |heads|), tags, |tags|), remotes, |remotes|)
  }

  lemma AllDecoratedKeeps(rows: seq<Row>, heads: seq<Ref>, tags: seq<Ref>, remotes: seq<Ref>)
    ensures AsCommits(AllDecorated(rows, heads, tags, remotes)) == AsCommits(rows)
    ensures RowHashes(AllDecorated(rows, heads, tags, remotes)) == RowHashes(rows)
  {
    var one := Decorate(rows, heads, |heads|);
    var two := Decorate(one, tags, |tags|);
    DecorateKeepsCommits(rows, heads, |heads|);
    DecorateKeepsCommits(one, tags, |tags|);
    DecorateKeepsCommits(two, remotes, |remotes|);
  }

  /** In the assembled list every label stands for one in-list ref and every in-list ref has one label. */
  lemma AllRefsAttachedOnce(rows: seq<Row>, heads: seq<Ref>, tags: seq<Ref>, remotes: seq<Ref>)
    requires Distinct(RowHashes(rows))
    ensures AllLabels(AllDecorated(rows, heads, tags, remotes), |rows|)
         == AllLabels(rows, |rows|) + ListedRefs(RowHashes(rows), heads + tags + remotes, |heads + tags + remotes|)
  {
    var one := Decorate(rows, heads, |heads|);
    var two := Decorate(one, tags, |tags|);
    DecorateKeepsCommits(rows, heads, |heads|);
    DecorateKeepsCommits(one, tags, |tags|);
    RefsAttachedOnce(rows, heads, |heads|);
    RefsAttachedOnce(one, tags, |tags|);
    RefsAttachedOnce(two, remotes, |remotes|);
    ListedRefsJoin(RowHashes(rows), heads, tags, remotes);
    assert RowHashes(one) == RowHashes(rows) && RowHashes(two) == RowHashes(rows);
  }

  lemma ListedRefsJoin(hashes: seq<Hash>, a: seq<Ref>, b: seq<Ref>, c: seq<Ref>)
    ensures ListedRefs(hashes, a + b + c, |a + b + c|)
         == ListedRefs(hashes, a, |a|) + ListedRefs(hashes, b, |b|) + ListedRefs(hashes, c, |c|)
  {
    ListedRefsConcat(hashes, a, b, |b|);
    ListedRefsConcat(hashes, a + b, c, |c|);
  }

  lemma {:induction false} ListedRefsConcat(hashes: seq<Hash>, a: seq<Ref>, b: seq<Ref>, n: nat)
    requires n <= |b|
    ensures ListedRefs(hashes, a + b, |a| + n) == ListedRefs(hashes, a, |a|) + ListedRefs(hashes, b, n)
  {
    if n > 0 {
      ListedRefsConcat(hashes, a, b, n - 1);
    } else {
      ListedRefsPrefix(hashes, a, b, |a|);
    }
  }

  lemma {:induction false} ListedRefsPrefix(hashes: seq<Hash>, a: seq<Ref>, b: seq<Ref>, n: nat)
    requires n <= |a|
    ensures ListedRefs(hashes, a + b, n) == ListedRefs(hashes, a, n)
  {
    if n > 0 {
      ListedRefsPrefix(hashes, a, b, n - 1);
    }
  }

  /** Orders the log and the stashes into one list. */
  method WeaveRows(log: seq<Commit>, stashes: seq<Stash>) returns (rows: seq<Row>, lookup: map<Hash, nat>)
    requires GitOrdered(log, stashes)
    ensures IsLookup(Hashes(log), lookup) && rows == Woven(log, stashes, lookup)
    ensures RowsHistory(rows)
  {
    lookup := BuildLookup(Hashes(log));
    rows := MarkListed(log, lookup, stashes);
    var toAdd := CollectInsertions(lookup, stashes);
    CollectedAreInsertable(log, stashes, lookup);
    BeforeIsAnOrder();
    SortSorts(toAdd, Before);
    toAdd := Sort(toAdd, Before);
    forall t | t in toAdd ensures t.index < |rows| {
      assert NewStash(rows, t);
    }
    WeaveIsHistory(rows, toAdd, 0);
    rows := SpliceStashes(rows, toAdd);
  }

  /** Whatever the log lists is still listed among the stashes. */
  lemma LoggedStaysListed(log: seq<Commit>, stashes: seq<Stash>, lookup: map<Hash, nat>)
    requires GitOrdered(log, stashes) && IsLookup(Hashes(log), lookup)
    ensures forall h :: h in lookup ==> h in RowHashes(Woven(log, stashes, lookup))
  {
    var rows, ts := MarkedRows(log, stashes, |stashes|), Sort(Insertions(lookup, stashes, |stashes|), Before);
    var woven := Woven(log, stashes, lookup);
    CollectedAreInsertable(log, stashes, lookup);
    InsertedBelow(rows, ts);
    forall h | h in lookup ensures h in RowHashes(woven) {
      var r := rows[lookup[h]];
      assert LoggedFrom(rows, 0, r);
      WeaveMembers(rows, ts, 0, r);
      var k :| 0 <= k < |woven| && woven[k] == r;
      assert RowHashes(woven)[k] == Hashes(log)[lookup[h]];
    }
  }

  /** Writes the finished order over the log's lookup table and hangs every ref on the row it then finds. */
  method HangRefs(rows: seq<Row>, lookup: map<Hash, nat>, heads: seq<Ref>, tags: seq<Ref>, remotes: seq<Ref>)
    returns (decorated: seq<Row>)
    requires RowsHistory(rows) && forall h :: h in lookup ==> h in RowHashes(rows)
    ensures decorated == AllDecorated(rows, heads, tags, remotes)
  {
    assert Hashes(AsCommits(rows)) == RowHashes(rows);
    var commitLookup := FillLookup(lookup, RowHashes(rows));
    NoStaleEntryIff(RowHashes(rows), lookup, commitLookup);
    decorated := AttachRefs(rows, commitLookup, heads);
    DecorateKeepsCommits(rows, heads, |heads|);
    ghost var one := decorated;
    decorated := AttachRefs(decorated, commitLookup, tags);
    DecorateKeepsCommits(one, tags, |tags|);
    decorated := AttachRefs(decorated, commitLookup, remotes);
  }

  lemma DecoratedIsClear(log: seq<Commit>, stashes: seq<Stash>, lookup: map<Hash, nat>, rows: seq<Row>)
    requires GitOrdered(log, stashes) && IsLookup(Hashes(log), lookup)
    requires AsCommits(rows) == AsCommits(Woven(log, stashes, lookup))
    ensures forall r :: r in rows ==> r.hash != UNCOMMITTED && UNCOMMITTED !in r.parentHashes
  {
    var woven := Woven(log, stashes, lookup);
    forall i | 0 <= i < |rows| ensures rows[i].hash != UNCOMMITTED && UNCOMMITTED !in rows[i].parentHashes {
      assert AsCommits(rows)[i] == AsCommits(woven)[i];
      WovenIsClear(log, stashes, lookup, woven[i]);
    }
  }

  /** The part of the log that is shown. */
  function ShownLog(log: seq<Commit>, maxRows: nat): seq<Commit> {
    if |log| > maxRows then log[..maxRows] else log
  }

  /** Orders the shown log and the stashes, then hangs the refs on the rows. */
  method WeaveAndHang(shown: seq<Commit>, stashes: seq<Stash>, heads: seq<Ref>, tags: seq<Ref>, remotes: seq<Ref>)
    returns (rows: seq<Row>, ghost woven: seq<Row>, ghost lookup: map<Hash, nat>)
    requires GitOrdered(shown, stashes)
    ensures IsLookup(Hashes(shown), lookup) && woven == Woven(shown, stashes, lookup)
    ensures rows == AllDecorated(woven, heads, tags, remotes)
    ensures RowsHistory(woven) && AsCommits(rows) == AsCommits(woven) && RowHashes(rows) == RowHashes(woven)
  {
    var commitLookup;
    rows, commitLookup := WeaveRows(shown, stashes);
    woven, lookup := rows, commitLookup;
    LoggedStaysListed(shown, stashes, commitLookup);
    AllDecoratedKeeps(woven, heads, tags, remotes);
    rows := HangRefs(rows, commitLookup, heads, tags, remotes);
  }

  /**
   * The rows are the decorated interleave of the shown log, with the uncommitted row in front
   * exactly if the head is listed and something has changed.
   */
  ghost predicate Assembled(log: seq<Commit>, maxRows: nat, stashes: seq<Stash>,
                            heads: seq<Ref>, tags: seq<Ref>, remotes: seq<Ref>,
                            head: Option<Hash>, changes: Option<nat>,
                            rows: seq<Row>, woven: seq<Row>, lookup: map<Hash, nat>)
  {
    && IsLookup(Hashes(ShownLog(log, maxRows)), lookup)
    && woven == Woven(ShownLog(log, maxRows), stashes, lookup)
    && rows == (if head.Some? && changes.Some? && head.value in RowHashes(woven)
                then [UncommittedRow(head.value)] else []) + AllDecorated(woven, heads, tags, remotes)
    && History(AsCommits(woven)) && History(AsCommits(rows))
  }

  /**
   * Builds the rows of the graph. `changes` is what inspecting the work tree
   * returned: nothing when there is nothing to commit.
   */
  method AssembleGraph(log: seq<Commit>, maxRows: nat, stashes: seq<Stash>,
                       heads: seq<Ref>, tags: seq<Ref>, remotes: seq<Ref>,
                       head: Option<Hash>, changes: Option<nat>)
    returns (rows: seq<Row>, moreAvailable: bool, ghost woven: seq<Row>, ghost lookup: map<Hash, nat>)
    requires GitOrdered(ShownLog(log, maxRows), stashes)
    requires head.Some? ==> head.value != UNCOMMITTED
    ensures moreAvailable <==> |log| > maxRows
    ensures Assembled(log, maxRows, stashes, heads, tags, remotes, head, changes, rows, woven, lookup)
  {
    moreAvailable := |log| > maxRows;
    var shown := if moreAvailable then log[..maxRows] else log;
    rows, woven, lookup := WeaveAndHang(shown, stashes, heads, tags, remotes);
    if head.Some? && head.value in RowHashes(rows) && changes.Some? {
      DecoratedIsClear(shown, stashes, lookup, rows);
      UncommittedOnTop(rows, head.value);
      rows := [UncommittedRow(head.value)] + rows;
    } else {
      assert [] + rows == rows;
    }
  }
}
