/** What the rows handed to the layout show: every commit, every stash on its base, every label. */
module GraphRows {
  import opened Wrappers
  import opened CommitGraph
  import opened Sorting
  import opened GraphData

  // ---------- positions in the interleave ----------

  lemma {:induction false} WeaveEndsWith(commits: seq<Row>, ts: seq<Insertion>, k: nat)
    requires k <= |commits|
    ensures |Weave(commits, ts, k)| <= |Weave(commits, ts, 0)|
    ensures Weave(commits, ts, 0)[|Weave(commits, ts, 0)| - |Weave(commits, ts, k)|..] == Weave(commits, ts, k)
  {
    if k > 0 {
      WeaveEndsWith(commits, ts, k - 1);
      assert Weave(commits, ts, k - 1)[|Block(commits, ts, k - 1)|..] == Weave(commits, ts, k);
    }
  }

  lemma {:induction false} WeaveShrinks(commits: seq<Row>, ts: seq<Insertion>, j: nat, k: nat)
    requires j < k <= |commits|
    ensures |Weave(commits, ts, k)| < |Weave(commits, ts, j)|
    decreases k - j
  {
    if j + 1 < k {
      WeaveShrinks(commits, ts, j + 1, k);
    }
  }

  /** Commit `k` stands right above everything woven from the commits below it. */
  lemma CommitStands(commits: seq<Row>, ts: seq<Insertion>, k: nat) returns (at: nat)
    requires k < |commits|
    ensures at + 1 + |Weave(commits, ts, k + 1)| == |Weave(commits, ts, 0)|
    ensures Weave(commits, ts, 0)[at] == commits[k]
  {
    var all, rest := Weave(commits, ts, 0), Weave(commits, ts, k);
    WeaveEndsWith(commits, ts, k);
    at := |all| - |Weave(commits, ts, k + 1)| - 1;
    assert all[at] == rest[|Block(commits, ts, k)| - 1];
  }

  lemma CommitsInOrder(commits: seq<Row>, ts: seq<Insertion>, j: nat, k: nat) returns (upper: nat, lower: nat)
    requires j < k < |commits|
    ensures upper < lower < |Weave(commits, ts, 0)|
    ensures Weave(commits, ts, 0)[upper] == commits[j] && Weave(commits, ts, 0)[lower] == commits[k]
  {
    upper := CommitStands(commits, ts, j);
    lower := CommitStands(commits, ts, k);
    WeaveShrinks(commits, ts, j + 1, k + 1);
  }

  /** The stashes of commit `k` stand right above it, in their order. */
  lemma StashStands(commits: seq<Row>, ts: seq<Insertion>, k: nat, i: nat) returns (at: nat, base: nat)
    requires k < |commits| && i < |Filter(ts, At(k))|
    ensures at < base < |Weave(commits, ts, 0)| && base - at == |Filter(ts, At(k))| - i
    ensures Weave(commits, ts, 0)[base] == commits[k]
    ensures forall m :: at <= m < base ==> Weave(commits, ts, 0)[m] == StashRow(Filter(ts, At(k))[i + (m - at)].data)
  {
    var all, rest, own := Weave(commits, ts, 0), Weave(commits, ts, k), Filter(ts, At(k));
    WeaveEndsWith(commits, ts, k);
    var top := |all| - |rest|;
    at, base := top + i, top + |own|;
    assert all[base] == rest[|own|];
    forall m | at <= m < base ensures all[m] == StashRow(own[i + (m - at)].data) {
      assert all[m] == rest[m - top];
    }
  }

  // ---------- one stash ----------

  /** A stash that is not listed itself, made on this base, and not newer than `date`. */
  ghost predicate OlderOnBase(hashes: seq<Hash>, stashes: seq<Stash>, baseHash: Hash, date: int, row: Row) {
    && row.stash.Some? && row.stash.value in stashes && row.hash == row.stash.value.hash && row.hash !in hashes
    && row.stash.value.baseHash == baseHash && row.stash.value.date <= date
  }

  /** Row `at` is the stash and row `base` its base, and only older stashes of that base are in between. */
  ghost predicate StandsOnBase(rows: seq<Row>, hashes: seq<Hash>, stashes: seq<Stash>, s: Stash, at: nat, base: nat) {
    && at < base < |rows|
    && rows[at].hash == s.hash && rows[at].parentHashes == [s.baseHash] && rows[at].stash == Some(s)
    && !rows[at].isUncommitted
    && rows[base].hash == s.baseHash
    && forall m :: at < m < base ==> OlderOnBase(hashes, stashes, s.baseHash, s.date, rows[m])
  }

  lemma WovenStash(log: seq<Commit>, stashes: seq<Stash>, lookup: map<Hash, nat>, s: Stash) returns (at: nat, base: nat)
    requires GitOrdered(log, stashes) && IsLookup(Hashes(log), lookup)
    requires s in stashes && s.hash !in Hashes(log) && s.baseHash in Hashes(log)
    ensures StandsOnBase(Woven(log, stashes, lookup), Hashes(log), stashes, s, at, base)
  {
    var k := lookup[s.baseHash];
    var i := StashIsOwn(log, stashes, lookup, s);
    at, base := StashStands(MarkedRows(log, stashes, |stashes|),
      Sort(Insertions(lookup, stashes, |stashes|), Before), k, i);
    assert Hashes(log)[k] == s.baseHash;
    var own := Filter(Sort(Insertions(lookup, stashes, |stashes|), Before), At(k));
    forall j | i < j < |own| ensures OlderOnBase(Hashes(log), stashes, s.baseHash, s.date, StashRow(own[j].data)) {
      OwnAreOlder(log, stashes, lookup, k, i, j);
    }
    OwnStand(Woven(log, stashes, lookup), Hashes(log), stashes, s, own, i, at, base);
  }

  lemma OwnStand(rows: seq<Row>, hashes: seq<Hash>, stashes: seq<Stash>, s: Stash, own: seq<Insertion>, i: nat,
                 at: nat, base: nat)
    requires at < base < |rows| && i + (base - at) == |own| && own[i].data == s && rows[base].hash == s.baseHash
    requires forall m :: at <= m < base ==> rows[m] == StashRow(own[i + (m - at)].data)
    requires forall j :: i < j < |own| ==> OlderOnBase(hashes, stashes, s.baseHash, s.date, StashRow(own[j].data))
    ensures StandsOnBase(rows, hashes, stashes, s, at, base)
  {
    forall m | at < m < base ensures OlderOnBase(hashes, stashes, s.baseHash, s.date, rows[m]) {
      assert rows[m] == StashRow(own[i + (m - at)].data);
    }
  }

  /** A stash to insert is one of those made on its base. */
  lemma StashIsOwn(log: seq<Commit>, stashes: seq<Stash>, lookup: map<Hash, nat>, s: Stash) returns (i: nat)
    requires IsLookup(Hashes(log), lookup)
    requires s in stashes && s.hash !in Hashes(log) && s.baseHash in Hashes(log)
    ensures var own := Filter(Sort(Insertions(lookup, stashes, |stashes|), Before), At(lookup[s.baseHash]));
            i < |own| && own[i].data == s
  {
    var found, t := Insertions(lookup, stashes, |stashes|), Insertion(lookup[s.baseHash], s);
    InsertionMembers(lookup, stashes, |stashes|, t);
    SortMembers(found, Before, t);
    FilterMembers(Sort(found, Before), At(t.index), t);
    i :| 0 <= i < |Filter(Sort(found, Before), At(t.index))| && Filter(Sort(found, Before), At(t.index))[i] == t;
  }

  /** Of the stashes made on one commit the later ones are not newer. */
  lemma OwnAreOlder(log: seq<Commit>, stashes: seq<Stash>, lookup: map<Hash, nat>, k: nat, i: nat, j: nat)
    requires GitOrdered(log, stashes) && IsLookup(Hashes(log), lookup)
    requires i < j < |Filter(Sort(Insertions(lookup, stashes, |stashes|), Before), At(k))|
    ensures var own := Filter(Sort(Insertions(lookup, stashes, |stashes|), Before), At(k));
      && k < |log|
      && OlderOnBase(Hashes(log), stashes, log[k].hash, own[i].data.date, StashRow(own[j].data))
  {
    var found := Insertions(lookup, stashes, |stashes|);
    var own := Filter(Sort(found, Before), At(k));
    FilterMembers(Sort(found, Before), At(k), own[j]);
    SortMembers(found, Before, own[j]);
    InsertionMembers(lookup, stashes, |stashes|, own[j]);
    assert Hashes(log)[k] == own[j].data.baseHash;
    OwnStashesNewestFirst(found, k, 0);
  }

  // ---------- one commit of the log ----------

  lemma {:induction false} MarkedByOwn(stashes: seq<Stash>, n: nat, hash: Hash)
    requires n <= |stashes|
    ensures var mark := MarkFor(stashes, n, hash);
      && (mark.Some? ==> mark.value in stashes[..n] && mark.value.hash == hash)
      && (mark.None? ==> forall s :: s in stashes[..n] ==> s.hash != hash)
  {
    if n > 0 {
      MarkedByOwn(stashes, n - 1, hash);
      assert stashes[..n] == stashes[..n - 1] + [stashes[n - 1]];
    }
  }

  lemma OneStashPerHash(stashes: seq<Stash>, s: Stash, u: Stash)
    requires DistinctStashHashes(stashes) && s in stashes && u in stashes && s.hash == u.hash
    ensures s == u
  {
    var i :| 0 <= i < |stashes| && stashes[i] == s;
    var j :| 0 <= j < |stashes| && stashes[j] == u;
    assert i == j;
  }

  /** The row is the commit as the log has it, marked as a stash exactly if it is one. */
  ghost predicate ShowsCommit(row: Row, c: Commit, stashes: seq<Stash>) {
    && row.hash == c.hash && row.parentHashes == c.parents && !row.isUncommitted
    && forall s :: row.stash == Some(s) <==> s in stashes && s.hash == c.hash
  }

  lemma MarkedShowsCommit(log: seq<Commit>, stashes: seq<Stash>, k: nat)
    requires DistinctStashHashes(stashes) && k < |log|
    ensures ShowsCommit(MarkedRows(log, stashes, |stashes|)[k], log[k], stashes)
  {
    var row := MarkedRows(log, stashes, |stashes|)[k];
    MarkedByOwn(stashes, |stashes|, log[k].hash);
    assert stashes[..|stashes|] == stashes;
    forall s ensures row.stash == Some(s) <==> s in stashes && s.hash == log[k].hash {
      if s in stashes && s.hash == log[k].hash {
        OneStashPerHash(stashes, s, row.stash.value);
      }
    }
  }

  lemma WovenCommit(log: seq<Commit>, stashes: seq<Stash>, lookup: map<Hash, nat>, k: nat) returns (at: nat)
    requires GitOrdered(log, stashes) && IsLookup(Hashes(log), lookup) && k < |log|
    ensures at < |Woven(log, stashes, lookup)| && ShowsCommit(Woven(log, stashes, lookup)[at], log[k], stashes)
  {
    var commits, ts := MarkedRows(log, stashes, |stashes|), Sort(Insertions(lookup, stashes, |stashes|), Before);
    at := CommitStands(commits, ts, k);
    MarkedShowsCommit(log, stashes, k);
  }

  lemma WovenInOrder(log: seq<Commit>, stashes: seq<Stash>, lookup: map<Hash, nat>, j: nat, k: nat)
    returns (upper: nat, lower: nat)
    requires GitOrdered(log, stashes) && IsLookup(Hashes(log), lookup) && j < k < |log|
    ensures upper < lower < |Woven(log, stashes, lookup)|
    ensures Woven(log, stashes, lookup)[upper].hash == log[j].hash
    ensures Woven(log, stashes, lookup)[lower].hash == log[k].hash
  {
    upper, lower := CommitsInOrder(MarkedRows(log, stashes, |stashes|),
      Sort(Insertions(lookup, stashes, |stashes|), Before), j, k);
  }

  // ---------- nothing else is shown ----------

  predicate Unlabelled(row: Row) {
    row.heads == [] && row.tags == [] && row.remotes == []
  }

  /** The row is a commit of the log, or a stash that is not listed, on a base that is. */
  ghost predicate IsKnown(log: seq<Commit>, stashes: seq<Stash>, row: Row) {
    || (exists k {:trigger log[k]} :: 0 <= k < |log| && ShowsCommit(row, log[k], stashes))
    || (row.stash.Some? && row.stash.value in stashes && row.hash == row.stash.value.hash
        && row.hash !in Hashes(log) && row.stash.value.baseHash in Hashes(log))
  }

  lemma WovenIsKnown(log: seq<Commit>, stashes: seq<Stash>, lookup: map<Hash, nat>, row: Row)
    requires GitOrdered(log, stashes) && IsLookup(Hashes(log), lookup) && row in Woven(log, stashes, lookup)
    ensures IsKnown(log, stashes, row) && Unlabelled(row) && !row.isUncommitted
  {
    var commits, found := MarkedRows(log, stashes, |stashes|), Insertions(lookup, stashes, |stashes|);
    var ts := Sort(found, Before);
    CollectedAreInsertable(log, stashes, lookup);
    InsertedBelow(commits, ts);
    WeaveMembers(commits, ts, 0, row);
    if LoggedFrom(commits, 0, row) {
      var k :| 0 <= k < |commits| && commits[k] == row;
      MarkedShowsCommit(log, stashes, k);
    } else {
      var t :| t in ts && row == StashRow(t.data);
      SortMembers(found, Before, t);
      InsertionMembers(lookup, stashes, |stashes|, t);
      assert Hashes(log)[lookup[t.data.baseHash]] == t.data.baseHash;
      assert forall i :: 0 <= i < |log| ==> Hashes(log)[i] in lookup;
    }
  }

  // ---------- labels ----------

  function HeadsOf(hash: Hash): Ref -> bool {
    (r: Ref) => r.Head? && r.hash == hash
  }

  function TagsOf(hash: Hash): Ref -> bool {
    (r: Ref) => r.Tag? && r.hash == hash
  }

  function RemotesOf(hash: Hash): Ref -> bool {
    (r: Ref) => r.Remote? && r.hash == hash
  }

  /** The part of a remote branch's name in front of its first slash; none without a slash. */
  predicate IsRemoteOf(remote: Option<string>, name: string) {
    if remote.None? then '/' !in name else remote.value + "/" <= name && '/' !in remote.value
  }

  lemma {:induction false} PrefixIsRemote(name: string, i: nat)
    requires i <= |name| && '/' !in name[..i]
    ensures IsRemoteOf(RemotePrefix(name, i), name)
    decreases |name| - i
  {
    if i == |name| {
      assert name[..i] == name;
    } else if name[i] == '/' {
      assert name[..i] + "/" == name[..i + 1];
    } else {
      assert name[..i + 1] == name[..i] + [name[i]];
      PrefixIsRemote(name, i + 1);
    }
  }

  /** The row's labels, from the given positions on, are the refs that point at it: each of its kind, in order. */
  ghost predicate Labelled(row: Row, before: Row, heads: seq<Ref>, tags: seq<Ref>, remotes: seq<Ref>) {
    && |row.heads| == |before.heads| + |heads|
    && |row.tags| == |before.tags| + |tags|
    && |row.remotes| == |before.remotes| + |remotes|
    && before.heads <= row.heads && before.tags <= row.tags && before.remotes <= row.remotes
    && (forall i :: 0 <= i < |heads| ==> row.heads[|before.heads| + i] == heads[i].name)
    && (forall i :: 0 <= i < |tags| ==>
         tags[i].Tag? && row.tags[|before.tags| + i] == TagLabel(tags[i].name, tags[i].annotated))
    && (forall i :: 0 <= i < |remotes| ==>
         && row.remotes[|before.remotes| + i].name == remotes[i].name
         && IsRemoteOf(row.remotes[|before.remotes| + i].remote, remotes[i].name))
  }

  lemma {:induction false} RefsLabel(row: Row, refs: seq<Ref>, n: nat)
    requires n <= |refs|
    ensures Labelled(WithRefs(row, refs, n), row, FilterTo(refs, HeadsOf(row.hash), n),
                     FilterTo(refs, TagsOf(row.hash), n), FilterTo(refs, RemotesOf(row.hash), n))
    ensures WithRefs(row, refs, n).stash == row.stash && WithRefs(row, refs, n).isUncommitted == row.isUncommitted
  {
    if n > 0 {
      RefsLabel(row, refs, n - 1);
      if refs[n - 1].Remote? {
        PrefixIsRemote(refs[n - 1].name, 0);
      }
    }
  }

  /** One pass after the other labels a row with the refs of all three lists. */
  lemma PassesLabel(row: Row, a: seq<Ref>, b: seq<Ref>, c: seq<Ref>)
    requires Unlabelled(row)
    ensures var all := a + b + c;
            var done := WithRefs(WithRefs(WithRefs(row, a, |a|), b, |b|), c, |c|);
      && Labelled(done, row, Filter(all, HeadsOf(row.hash)), Filter(all, TagsOf(row.hash)),
                  Filter(all, RemotesOf(row.hash)))
      && done.stash == row.stash && done.isUncommitted == row.isUncommitted
  {
    var all := a + b + c;
    PassesAreOne(row, a, b, c);
    RefsLabel(row, all, |all|);
  }

  lemma PassesAreOne(row: Row, a: seq<Ref>, b: seq<Ref>, c: seq<Ref>)
    ensures WithRefs(WithRefs(WithRefs(row, a, |a|), b, |b|), c, |c|) == WithRefs(row, a + b + c, |a + b + c|)
  {
    RefsJoin(row, a, b, |b|);
    RefsJoin(row, a + b, c, |c|);
  }

  lemma {:induction false} RefsJoin(row: Row, a: seq<Ref>, b: seq<Ref>, n: nat)
    requires n <= |b|
    ensures WithRefs(row, a + b, |a| + n) == WithRefs(WithRefs(row, a, |a|), b, n)
  {
    if n == 0 {
      RefsPrefix(row, a, b, |a|);
    } else {
      RefsJoin(row, a, b, n - 1);
    }
  }

  lemma {:induction false} RefsPrefix(row: Row, a: seq<Ref>, b: seq<Ref>, n: nat)
    requires n <= |a|
    ensures WithRefs(row, a + b, n) == WithRefs(row, a, n)
  {
    if n > 0 {
      RefsPrefix(row, a, b, n - 1);
    }
  }

  // ---------- the assembled rows ----------

  /** How far the interleave has moved down: one row if there is an uncommitted row above it. */
  function Offset(rows: seq<Row>, woven: seq<Row>): int {
    |rows| - |woven|
  }

  /** A row of the interleave, as it is handed over. */
  ghost predicate HandedOver(woven: Row, row: Row, refs: seq<Ref>) {
    && row.hash == woven.hash && row.parentHashes == woven.parentHashes
    && row.stash == woven.stash && row.isUncommitted == woven.isUncommitted
    && Labelled(row, woven, Filter(refs, HeadsOf(row.hash)), Filter(refs, TagsOf(row.hash)),
                Filter(refs, RemotesOf(row.hash)))
  }

  /** The rows end with the interleave, row by row; in front there is at most one more. */
  ghost predicate Moved(rows: seq<Row>, woven: seq<Row>, refs: seq<Ref>) {
    && 0 <= Offset(rows, woven) <= 1
    && forall m {:trigger woven[m]} :: 0 <= m < |woven| ==>
         Unlabelled(woven[m]) && HandedOver(woven[m], rows[Offset(rows, woven) + m], refs)
  }

  lemma AssembledIsMoved(log: seq<Commit>, maxRows: nat, stashes: seq<Stash>,
                         heads: seq<Ref>, tags: seq<Ref>, remotes: seq<Ref>, head: Option<Hash>, changes: Option<nat>,
                         rows: seq<Row>, woven: seq<Row>, lookup: map<Hash, nat>)
    requires GitOrdered(ShownLog(log, maxRows), stashes)
    requires Assembled(log, maxRows, stashes, heads, tags, remotes, head, changes, rows, woven, lookup)
    ensures Moved(rows, woven, heads + tags + remotes)
  {
    var decorated := AllDecorated(woven, heads, tags, remotes);
    forall m | 0 <= m < |woven|
      ensures Unlabelled(woven[m]) && HandedOver(woven[m], decorated[m], heads + tags + remotes)
    {
      WovenIsKnown(ShownLog(log, maxRows), stashes, lookup, woven[m]);
      DecoratedIsHandedOver(woven, heads, tags, remotes, m);
    }
    MovedBelow(rows[..|rows| - |woven|], decorated, woven, heads + tags + remotes);
    assert rows == rows[..|rows| - |woven|] + decorated;
  }

  lemma MovedBelow(top: seq<Row>, decorated: seq<Row>, woven: seq<Row>, refs: seq<Ref>)
    requires |top| <= 1 && |decorated| == |woven|
    requires forall m {:trigger woven[m]} :: 0 <= m < |woven| ==>
               Unlabelled(woven[m]) && HandedOver(woven[m], decorated[m], refs)
    ensures Moved(top + decorated, woven, refs)
  {
    assert forall m :: 0 <= m < |woven| ==> (top + decorated)[|top| + m] == decorated[m];
  }

  lemma DecoratedIsHandedOver(woven: seq<Row>, heads: seq<Ref>, tags: seq<Ref>, remotes: seq<Ref>, m: nat)
    requires m < |woven| && Unlabelled(woven[m])
    ensures HandedOver(woven[m], AllDecorated(woven, heads, tags, remotes)[m], heads + tags + remotes)
  {
    PassesLabel(woven[m], heads, tags, remotes);
  }

  /** No other row has the hash of row `at`. */
  ghost predicate OnlyRow(rows: seq<Row>, at: nat) {
    at < |rows| && forall j :: 0 <= j < |rows| && rows[j].hash == rows[at].hash ==> j == at
  }

  lemma HistoryHasOnlyRows(rows: seq<Row>, at: nat)
    requires History(AsCommits(rows)) && at < |rows|
    ensures OnlyRow(rows, at)
  {
    forall j | 0 <= j < |rows| && rows[j].hash == rows[at].hash ensures j == at {
      SameHashSameRow(AsCommits(rows), j, at);
    }
  }

  /** Every shown commit of the log has exactly one row, with its parents and, if it is a stash, marked as that. */
  lemma CommitIsShown(log: seq<Commit>, maxRows: nat, stashes: seq<Stash>,
                      heads: seq<Ref>, tags: seq<Ref>, remotes: seq<Ref>, head: Option<Hash>, changes: Option<nat>,
                      rows: seq<Row>, woven: seq<Row>, lookup: map<Hash, nat>, k: nat)
    returns (at: nat)
    requires GitOrdered(ShownLog(log, maxRows), stashes)
    requires Assembled(log, maxRows, stashes, heads, tags, remotes, head, changes, rows, woven, lookup)
    requires k < |log| && k < maxRows
    ensures OnlyRow(rows, at) && ShowsCommit(rows[at], log[k], stashes)
  {
    var shown := ShownLog(log, maxRows);
    var j := WovenCommit(shown, stashes, lookup, k);
    AssembledIsMoved(log, maxRows, stashes, heads, tags, remotes, head, changes, rows, woven, lookup);
    at := CommitMoved(rows, woven, heads + tags + remotes, log[k], stashes, j);
  }

  lemma CommitMoved(rows: seq<Row>, woven: seq<Row>, refs: seq<Ref>, c: Commit, stashes: seq<Stash>, j: nat)
    returns (at: nat)
    requires Moved(rows, woven, refs) && History(AsCommits(rows)) && j < |woven| && ShowsCommit(woven[j], c, stashes)
    ensures OnlyRow(rows, at) && ShowsCommit(rows[at], c, stashes)
  {
    at := Offset(rows, woven) + j;
    HistoryHasOnlyRows(rows, at);
    assert HandedOver(woven[j], rows[at], refs);
  }

  /** Shown commits keep the order of the log. */
  lemma CommitsKeepOrder(log: seq<Commit>, maxRows: nat, stashes: seq<Stash>,
                         heads: seq<Ref>, tags: seq<Ref>, remotes: seq<Ref>, head: Option<Hash>, changes: Option<nat>,
                         rows: seq<Row>, woven: seq<Row>, lookup: map<Hash, nat>, j: nat, k: nat, a: nat, b: nat)
    requires GitOrdered(ShownLog(log, maxRows), stashes)
    requires Assembled(log, maxRows, stashes, heads, tags, remotes, head, changes, rows, woven, lookup)
    requires j < k < |log| && k < maxRows
    requires a < |rows| && rows[a].hash == log[j].hash && b < |rows| && rows[b].hash == log[k].hash
    ensures a < b
  {
    var upper, lower := WovenInOrder(ShownLog(log, maxRows), stashes, lookup, j, k);
    AssembledIsMoved(log, maxRows, stashes, heads, tags, remotes, head, changes, rows, woven, lookup);
    OrderMoved(rows, woven, heads + tags + remotes, upper, lower, a, b);
  }

  lemma OrderMoved(rows: seq<Row>, woven: seq<Row>, refs: seq<Ref>, upper: nat, lower: nat, a: nat, b: nat)
    requires Moved(rows, woven, refs) && History(AsCommits(rows))
    requires upper < lower < |woven| && a < |rows| && b < |rows|
    requires rows[a].hash == woven[upper].hash && rows[b].hash == woven[lower].hash
    ensures a < b
  {
    HistoryHasOnlyRows(rows, a);
    HistoryHasOnlyRows(rows, b);
    assert Offset(rows, woven) + upper == a && Offset(rows, woven) + lower == b;
  }

  /** The hashes of the part of the log that is shown. */
  ghost predicate IsShown(log: seq<Commit>, maxRows: nat, h: Hash) {
    exists k {:trigger log[k]} :: 0 <= k < |log| && k < maxRows && log[k].hash == h
  }

  lemma ShownHashes(log: seq<Commit>, maxRows: nat, h: Hash)
    ensures h in Hashes(ShownLog(log, maxRows)) <==> IsShown(log, maxRows, h)
  {
    var shown := ShownLog(log, maxRows);
    if IsShown(log, maxRows, h) {
      var k :| 0 <= k < |log| && k < maxRows && log[k].hash == h;
      assert Hashes(shown)[k] == h;
    }
    if h in Hashes(shown) {
      var k :| 0 <= k < |shown| && Hashes(shown)[k] == h;
      assert log[k] == shown[k];
    }
  }

  /**
   * Every stash that is not shown as a commit, on a base that is, has exactly one row. It is the
   * child of its base and stands on it, with only older stashes of the same base in between.
   */
  lemma StashIsShown(log: seq<Commit>, maxRows: nat, stashes: seq<Stash>,
                     heads: seq<Ref>, tags: seq<Ref>, remotes: seq<Ref>, head: Option<Hash>, changes: Option<nat>,
                     rows: seq<Row>, woven: seq<Row>, lookup: map<Hash, nat>, s: Stash)
    returns (at: nat, base: nat)
    requires GitOrdered(ShownLog(log, maxRows), stashes)
    requires Assembled(log, maxRows, stashes, heads, tags, remotes, head, changes, rows, woven, lookup)
    requires s in stashes && !IsShown(log, maxRows, s.hash) && IsShown(log, maxRows, s.baseHash)
    ensures StandsOnBase(rows, Hashes(ShownLog(log, maxRows)), stashes, s, at, base)
    ensures OnlyRow(rows, at) && Link(AsCommits(rows), at, base)
  {
    var shown := ShownLog(log, maxRows);
    ShownHashes(log, maxRows, s.hash);
    ShownHashes(log, maxRows, s.baseHash);
    var i, j := WovenStash(shown, stashes, lookup, s);
    AssembledIsMoved(log, maxRows, stashes, heads, tags, remotes, head, changes, rows, woven, lookup);
    at, base := StandsMoved(woven, rows, heads + tags + remotes, Hashes(shown), stashes, s, i, j);
  }

  lemma StandsMoved(woven: seq<Row>, rows: seq<Row>, refs: seq<Ref>, hashes: seq<Hash>, stashes: seq<Stash>, s: Stash,
                    i: nat, j: nat)
    returns (at: nat, base: nat)
    requires Moved(rows, woven, refs) && StandsOnBase(woven, hashes, stashes, s, i, j) && History(AsCommits(rows))
    ensures StandsOnBase(rows, hashes, stashes, s, at, base)
    ensures OnlyRow(rows, at) && Link(AsCommits(rows), at, base)
  {
    var d := Offset(rows, woven);
    at, base := d + i, d + j;
    forall m | at < m < base ensures OlderOnBase(hashes, stashes, s.baseHash, s.date, rows[m]) {
      assert OlderOnBase(hashes, stashes, s.baseHash, s.date, woven[m - d]);
    }
    assert woven[i].hash == rows[at].hash && woven[j].hash == rows[base].hash;
    HistoryHasOnlyRows(rows, at);
  }

  /** The row of the uncommitted changes: a child of the head and nothing else. */
  ghost predicate IsUncommittedRow(row: Row, head: Hash) {
    && row.hash == "__uncommitted__" && row.parentHashes == [head] && row.isUncommitted
    && row.stash == None && Unlabelled(row)
  }

  /** The row carries exactly the labels of the refs that point at it. */
  ghost predicate CarriesLabels(row: Row, refs: seq<Ref>) {
    Labelled(row, UNLABELLED, Filter(refs, HeadsOf(row.hash)), Filter(refs, TagsOf(row.hash)),
             Filter(refs, RemotesOf(row.hash)))
  }

  /**
   * There is an uncommitted row if and only if something has changed and the head has a row;
   * then it is the first row and a child of the head.
   */
  lemma UncommittedIsShownIff(log: seq<Commit>, maxRows: nat, stashes: seq<Stash>,
                              heads: seq<Ref>, tags: seq<Ref>, remotes: seq<Ref>,
                              head: Option<Hash>, changes: Option<nat>,
                              rows: seq<Row>, woven: seq<Row>, lookup: map<Hash, nat>, j: nat)
    requires GitOrdered(ShownLog(log, maxRows), stashes) && (head.Some? ==> head.value != UNCOMMITTED)
    requires Assembled(log, maxRows, stashes, heads, tags, remotes, head, changes, rows, woven, lookup)
    requires j < |rows|
    ensures rows[j].isUncommitted <==> j == 0 && HeadHasChanged(rows, head, changes)
    ensures rows[j].isUncommitted ==> IsUncommittedRow(rows[j], head.value)
  {
    HeadRow(woven, rows, head, changes, heads, tags, remotes);
    AssembledIsMoved(log, maxRows, stashes, heads, tags, remotes, head, changes, rows, woven, lookup);
    AllKnown(ShownLog(log, maxRows), stashes, lookup);
    TopIsUncommitted(rows, woven, heads + tags + remotes, head, changes, j);
  }

  lemma AllKnown(log: seq<Commit>, stashes: seq<Stash>, lookup: map<Hash, nat>)
    requires GitOrdered(log, stashes) && IsLookup(Hashes(log), lookup)
    ensures var woven := Woven(log, stashes, lookup);
            forall m :: 0 <= m < |woven| ==> IsKnown(log, stashes, woven[m]) && !woven[m].isUncommitted
  {
    var woven := Woven(log, stashes, lookup);
    forall m | 0 <= m < |woven| ensures IsKnown(log, stashes, woven[m]) && !woven[m].isUncommitted {
      WovenIsKnown(log, stashes, lookup, woven[m]);
    }
  }

  lemma TopIsUncommitted(rows: seq<Row>, woven: seq<Row>, refs: seq<Ref>, head: Option<Hash>, changes: Option<nat>,
                         j: nat)
    requires Moved(rows, woven, refs) && j < |rows|
    requires forall m :: 0 <= m < |woven| ==> !woven[m].isUncommitted
    requires Offset(rows, woven) == 1 <==> HeadHasChanged(rows, head, changes)
    requires Offset(rows, woven) == 1 ==> rows[0] == UncommittedRow(head.value)
    ensures rows[j].isUncommitted <==> j == 0 && HeadHasChanged(rows, head, changes)
    ensures rows[j].isUncommitted ==> IsUncommittedRow(rows[j], head.value)
  {
    var d := Offset(rows, woven);
    if j >= d {
      assert HandedOver(woven[j - d], rows[d + (j - d)], refs);
    }
  }

  /**
   * Every other row is a shown commit or a stash on one, and carries exactly the labels of the
   * refs that point at it.
   */
  lemma NothingElseIsShown(log: seq<Commit>, maxRows: nat, stashes: seq<Stash>,
                           heads: seq<Ref>, tags: seq<Ref>, remotes: seq<Ref>, head: Option<Hash>, changes: Option<nat>,
                           rows: seq<Row>, woven: seq<Row>, lookup: map<Hash, nat>, j: nat)
    requires GitOrdered(ShownLog(log, maxRows), stashes)
    requires Assembled(log, maxRows, stashes, heads, tags, remotes, head, changes, rows, woven, lookup)
    requires j < |rows| && !rows[j].isUncommitted
    ensures IsKnown(ShownLog(log, maxRows), stashes, rows[j])
    ensures CarriesLabels(rows[j], heads + tags + remotes)
  {
    AssembledIsMoved(log, maxRows, stashes, heads, tags, remotes, head, changes, rows, woven, lookup);
    AllKnown(ShownLog(log, maxRows), stashes, lookup);
    MovedIsKnown(rows, woven, ShownLog(log, maxRows), stashes, heads + tags + remotes, j);
  }

  lemma MovedIsKnown(rows: seq<Row>, woven: seq<Row>, log: seq<Commit>, stashes: seq<Stash>, refs: seq<Ref>, j: nat)
    requires Moved(rows, woven, refs) && Offset(rows, woven) <= j < |rows|
    requires forall m :: 0 <= m < |woven| ==> IsKnown(log, stashes, woven[m])
    ensures IsKnown(log, stashes, rows[j]) && CarriesLabels(rows[j], refs)
  {
    var row, below := rows[j], woven[j - Offset(rows, woven)];
    assert HandedOver(below, row, refs) && IsKnown(log, stashes, below);
    if k :| 0 <= k < |log| && ShowsCommit(below, log[k], stashes) {
      assert ShowsCommit(row, log[k], stashes);
    }
  }

  const UNLABELLED := Row("", [], [], [], [], None, false)

  /** Something has changed, and the head has a row. */
  ghost predicate HeadHasChanged(rows: seq<Row>, head: Option<Hash>, changes: Option<nat>) {
    head.Some? && changes.Some? && exists k {:trigger rows[k]} :: 0 <= k < |rows| && rows[k].hash == head.value
  }

  lemma HeadRow(woven: seq<Row>, rows: seq<Row>, head: Option<Hash>, changes: Option<nat>,
                heads: seq<Ref>, tags: seq<Ref>, remotes: seq<Ref>)
    requires head.Some? ==> head.value != UNCOMMITTED
    requires rows == (if head.Some? && changes.Some? && head.value in RowHashes(woven)
                      then [UncommittedRow(head.value)] else []) + AllDecorated(woven, heads, tags, remotes)
    ensures HeadHasChanged(rows, head, changes) <==> head.Some? && changes.Some? && head.value in RowHashes(woven)
  {
    var decorated := AllDecorated(woven, heads, tags, remotes);
    AllDecoratedKeeps(woven, heads, tags, remotes);
    if head.Some? && changes.Some? {
      HashIsListed(rows[..|rows| - |woven|], decorated, head.value);
    }
  }

  /** A row with a hash none of the top rows has is one of the rows below. */
  lemma HashIsListed(top: seq<Row>, below: seq<Row>, h: Hash)
    requires forall i :: 0 <= i < |top| ==> top[i].hash != h
    ensures (exists k {:trigger (top + below)[k]} :: 0 <= k < |top + below| && (top + below)[k].hash == h) <==>
              h in RowHashes(below)
  {
    if h in RowHashes(below) {
      var k :| 0 <= k < |below| && RowHashes(below)[k] == h;
      assert (top + below)[|top| + k].hash == h;
    }
    if k :| 0 <= k < |top + below| && (top + below)[k].hash == h {
      assert k >= |top|;
      assert RowHashes(below)[k - |top|] == h;
    }
  }
}
