/** What every run keeps: the calls it shows are the calls it holds, and what must be stripped is stripped. */
module StreamRuns {
  import opened Wrappers
  import opened ToolCalls
  import opened StreamLog
  import opened StreamProcessor
  import Json

  // ---------- what is kept ----------

  /** The event announces the call, or shows parameters of it. */
  predicate ShowsCall(e: Event, id: string) {
    (e.EarlyDetected? || e.ParamsPartial?) && e.id == id
  }

  ghost predicate CallShown(log: Log, id: string) {
    exists i {:trigger ShowsCall(log[i], id)} :: 0 <= i < |log| && ShowsCall(log[i], id)
  }

  /** A call that would leave a record with this id. */
  predicate LeavesRecord(p: Pending, id: string) {
    p.id == id && id != "" && (p.name != "" || p.raw != "")
  }

  ghost predicate IsPending(pending: map<Key, Pending>, id: string) {
    exists k {:trigger pending[k]} :: k in pending && LeavesRecord(pending[k], id)
  }

  ghost predicate HandedOver(fs: seq<Finalized>, id: string) {
    HasRecord(fs, |fs|, id)
  }

  /** A call has been shown if and only if it is pending with a name or arguments, or has been handed over. */
  ghost predicate ShownIffHeld(p: Progress, id: string) {
    CallShown(p.log, id) <==> IsPending(p.pending, id) || HandedOver(p.finalized, id)
  }

  /** A pending call has been announced if and only if its name is known. */
  predicate AnnouncedIffNamed(p: Pending) {
    p.earlyDetected <==> p.name != ""
  }

  /** Parameters shown for a write name its file only. */
  ghost predicate ShowsPathOnly(codec: Codec, e: Event) {
    e.ParamsPartial? && WriteLike(e.name) ==> PathOnlyText(codec, e.params)
  }

  predicate CarriesContent(arguments: Json.Value) {
    arguments.Object? && ("content" in arguments.members || "contents" in arguments.members)
  }

  /** A record of a write: no content in its arguments, and none in its text if they name a path. */
  ghost predicate RecordsPathOnly(codec: Codec, f: Finalized) {
    WriteLike(f.name) ==> !CarriesContent(f.arguments) && (NamesPath(f.arguments) ==> PathOnlyText(codec, f.raw))
  }

  ghost predicate AllAnnounced(pending: map<Key, Pending>) {
    forall k {:trigger pending[k]} :: k in pending ==> AnnouncedIffNamed(pending[k])
  }

  ghost predicate AllShowPathOnly(codec: Codec, log: Log) {
    forall i {:trigger ShowsPathOnly(codec, log[i])} :: 0 <= i < |log| ==> ShowsPathOnly(codec, log[i])
  }

  ghost predicate AllRecordPathOnly(codec: Codec, fs: seq<Finalized>) {
    forall i {:trigger RecordsPathOnly(codec, fs[i])} :: 0 <= i < |fs| ==> RecordsPathOnly(codec, fs[i])
  }

  ghost predicate Kept(codec: Codec, strip: bool, p: Progress) {
    && Identified(p.pending) && AllAnnounced(p.pending)
    && (forall id {:trigger ShownIffHeld(p, id)} :: ShownIffHeld(p, id))
    && (strip ==> AllShowPathOnly(codec, p.log) && AllRecordPathOnly(codec, p.finalized))
  }

  // ---------- one response keeps it ----------

  lemma CallShownJoin(log: Log, more: Log, id: string)
    ensures CallShown(log + more, id) <==> CallShown(log, id) || CallShown(more, id)
  {
    if CallShown(log, id) {
      var i :| 0 <= i < |log| && ShowsCall(log[i], id);
      assert ShowsCall((log + more)[i], id);
    }
    if CallShown(more, id) {
      var i :| 0 <= i < |more| && ShowsCall(more[i], id);
      assert ShowsCall((log + more)[|log| + i], id);
    }
  }

  lemma ShowsPathJoin(codec: Codec, log: Log, more: Log)
    requires AllShowPathOnly(codec, log) && AllShowPathOnly(codec, more)
    ensures AllShowPathOnly(codec, log + more)
  {
    forall i | 0 <= i < |log + more| ensures ShowsPathOnly(codec, (log + more)[i]) {
      assert i < |log| ==> ShowsPathOnly(codec, log[i]);
      assert i >= |log| ==> ShowsPathOnly(codec, more[i - |log|]);
    }
  }

  ghost predicate ShowsNoCall(log: Log) {
    forall id {:trigger CallShown(log, id)} :: !CallShown(log, id)
  }

  /** Events that show no call keep everything. */
  lemma LogGrows(codec: Codec, strip: bool, p: Progress, more: Log)
    requires Kept(codec, strip, p) && ShowsNoCall(more)
    ensures Kept(codec, strip, p.(log := p.log + more))
  {
    var q := p.(log := p.log + more);
    forall id ensures ShownIffHeld(q, id) {
      assert ShownIffHeld(p, id);
      CallShownJoin(p.log, more, id);
    }
    if strip {
      QuietShowsNoPath(codec, more);
      ShowsPathJoin(codec, p.log, more);
    }
  }

  lemma QuietShowsNoPath(codec: Codec, log: Log)
    requires ShowsNoCall(log)
    ensures AllShowPathOnly(codec, log)
  {
    forall i | 0 <= i < |log| ensures ShowsPathOnly(codec, log[i]) {
      if log[i].ParamsPartial? {
        assert ShowsCall(log[i], log[i].id) && CallShown(log, log[i].id);
      }
    }
  }

  lemma ClosingKeeps(codec: Codec, strip: bool, p: Progress)
    requires Kept(codec, strip, p)
    ensures Kept(codec, strip, p.(log := ClosedLog(p.log)))
  {
    LogGrows(codec, strip, p, [ThinkingChunk("", true)]);
  }

  lemma ProseKeeps(codec: Codec, strip: bool, p: Progress, r: Response)
    requires Kept(codec, strip, p)
    ensures Kept(codec, strip, Thought(p, r.reasoning))
    ensures Kept(codec, strip, Wrote(Thought(p, r.reasoning), r.text))
  {
    if OrEmpty(r.reasoning) != "" {
      LogGrows(codec, strip, p, [ThinkingChunk(r.reasoning.value, false)]);
    }
    var q := Thought(p, r.reasoning);
    if OrEmpty(r.text) != "" {
      ClosingKeeps(codec, strip, q);
      LogGrows(codec, strip, q.(log := ClosedLog(q.log)), [TextChunk(r.text.value)]);
    }
  }

  /** A record has the id of its call, and a stripped write records its path only. */
  lemma FinishKeeps(codec: Codec, strip: bool, p: Pending)
    ensures Finish(codec, strip, p).Some? <==> LeavesRecord(p, p.id)
    ensures Finish(codec, strip, p).Some? ==> Finish(codec, strip, p).value.id == p.id
    ensures strip && Finish(codec, strip, p).Some? ==> RecordsPathOnly(codec, Finish(codec, strip, p).value)
  {
    FinishedIsIdentified(codec, strip, p);
    if strip && Finish(codec, strip, p).Some? && WriteLike(p.name) {
      StrippedWriteCarriesNoContent(codec, p);
      var r := Finish(codec, strip, p).value;
      if NamesPath(r.arguments) {
        assert r.raw == PathText(codec, r.arguments.members["file_path"]);
      }
    }
  }

  /** The ids of a record that may be there. */
  predicate Records(finished: Option<Finalized>, id: string) {
    finished.Some? && finished.value.id == id
  }

  /** How a delta moves a call on: `before` becomes `entry`, or is replaced by it and finished. */
  ghost predicate MovesOn(before: Pending, entry: Pending, finished: Option<Finalized>, events: Log, id: string) {
    && (CallShown(events, id) ==> LeavesRecord(entry, id))
    && (LeavesRecord(entry, id) ==> CallShown(events, id) || LeavesRecord(before, id))
    && (LeavesRecord(before, id) ==> LeavesRecord(entry, id) || Records(finished, id))
    && (Records(finished, id) ==> LeavesRecord(before, id))
  }

  lemma EventsShow(outcome: ToolCalls.Outcome, id: string)
    ensures CallShown(DeltaEvents(outcome), id) <==>
              || (outcome.earlyDetected.Some? && outcome.earlyDetected.value.id == id)
              || (outcome.paramsPartial.Some? && outcome.paramsPartial.value.id == id)
  {
    var events := DeltaEvents(outcome);
    if outcome.earlyDetected.Some? && outcome.earlyDetected.value.id == id {
      assert ShowsCall(events[0], id);
    }
    if outcome.paramsPartial.Some? && outcome.paramsPartial.value.id == id {
      assert ShowsCall(events[|events| - 1], id);
    }
  }

  lemma DeltaMovesOn(codec: Codec, strip: bool, p: Pending, d: Delta, id: string)
    requires AnnouncedIffNamed(p) && (p.id != "" || OrEmpty(d.id) != "")
    requires p.id == "" ==> p == NEW_PENDING
    ensures var (entry, outcome) := Applied(codec, strip, p, d);
      && entry.id != "" && AnnouncedIffNamed(entry)
      && MovesOn(p, entry, outcome.finalizedPrevious, DeltaEvents(outcome), id)
  {
    var (entry, outcome) := Applied(codec, strip, p, d);
    EventsShow(outcome, id);
    FinishKeeps(codec, strip, p);
  }

  lemma DeltaShowsPathOnly(codec: Codec, p: Pending, d: Delta)
    ensures AllShowPathOnly(codec, DeltaEvents(Applied(codec, true, p, d).1))
  {
    var (entry, outcome) := Applied(codec, true, p, d);
    if outcome.paramsPartial.Some? && WriteLike(entry.name) {
      NamedWriteShowsPathOnly(codec, p, d);
    }
  }

  lemma CallKeeps(codec: Codec, strip: bool, p: Progress, d: Delta)
    requires Kept(codec, strip, p)
    ensures Kept(codec, strip, Called(codec, strip, p, Some(d)))
  {
    ClosingKeeps(codec, strip, p);
    OpenedKeeps(codec, strip, p.(log := ClosedLog(p.log)), d);
  }

  /** The call pending on a key, if any. */
  function PendingOn(pending: map<Key, Pending>, key: Key): Pending {
    if key in pending then pending[key] else NEW_PENDING
  }

  lemma PendingSplit(pending: map<Key, Pending>, key: Key, entry: Pending, id: string)
    ensures IsPending(pending, id) <==> IsPending(pending - {key}, id) || LeavesRecord(PendingOn(pending, key), id)
    ensures IsPending(pending[key := entry], id) <==> IsPending(pending - {key}, id) || LeavesRecord(entry, id)
  {
    var rest, after := pending - {key}, pending[key := entry];
    assert after[key] == entry;
    assert forall k :: k in rest ==> rest[k] == pending[k] && rest[k] == after[k];
    assert forall k :: k in pending && k != key ==> k in rest && rest[k] == pending[k];
    assert forall k :: k in after && k != key ==> k in rest && rest[k] == after[k];
  }

  lemma HandedOverOneMore(fs: seq<Finalized>, finished: Option<Finalized>, id: string)
    ensures HandedOver(fs + Listed(finished), id) <==> HandedOver(fs, id) || Records(finished, id)
  {
    var more := fs + Listed(finished);
    if HandedOver(fs, id) {
      var k :| 0 <= k < |fs| && fs[k].id == id;
      assert more[k].id == id;
    }
    if Records(finished, id) {
      assert more[|fs|].id == id;
    }
  }

  lemma RecordsJoin(codec: Codec, fs: seq<Finalized>, finished: Option<Finalized>)
    requires AllRecordPathOnly(codec, fs) && (finished.Some? ==> RecordsPathOnly(codec, finished.value))
    ensures AllRecordPathOnly(codec, fs + Listed(finished))
  {
    var more := fs + Listed(finished);
    forall i | 0 <= i < |more| ensures RecordsPathOnly(codec, more[i]) {
      assert i < |fs| ==> RecordsPathOnly(codec, fs[i]);
    }
  }

  /** A changed entry, the record it replaces and the events shown for it. */
  lemma EntryKeeps(codec: Codec, strip: bool, p: Progress, key: Key, entry: Pending, finished: Option<Finalized>,
                   events: Log)
    requires Kept(codec, strip, p) && entry.id != "" && AnnouncedIffNamed(entry)
    requires forall id {:trigger MovesOn(PendingOn(p.pending, key), entry, finished, events, id)} ::
      MovesOn(PendingOn(p.pending, key), entry, finished, events, id)
    requires strip ==> AllShowPathOnly(codec, events)
    requires strip && finished.Some? ==> RecordsPathOnly(codec, finished.value)
    ensures Kept(codec, strip, Progress(p.pending[key := entry], p.finalized + Listed(finished), p.log + events))
  {
    var q := Progress(p.pending[key := entry], p.finalized + Listed(finished), p.log + events);
    forall id ensures ShownIffHeld(q, id) {
      assert ShownIffHeld(p, id);
      assert MovesOn(PendingOn(p.pending, key), entry, finished, events, id);
      CallShownJoin(p.log, events, id);
      PendingSplit(p.pending, key, entry, id);
      HandedOverOneMore(p.finalized, finished, id);
    }
    if strip {
      ShowsPathJoin(codec, p.log, events);
      RecordsJoin(codec, p.finalized, finished);
    }
  }

  /** The delta on a log in which thinking is closed. */
  lemma OpenedKeeps(codec: Codec, strip: bool, p: Progress, d: Delta)
    requires Kept(codec, strip, p)
    ensures var (pending, outcome) := DeltaOn(codec, strip, p.pending, d);
            Kept(codec, strip, Progress(pending, p.finalized + Listed(outcome.finalizedPrevious),
              p.log + DeltaEvents(outcome)))
  {
    if d.key in p.pending || OrEmpty(d.id) != "" {
      var before := PendingOn(p.pending, d.key);
      var (entry, outcome) := Applied(codec, strip, before, d);
      forall id ensures MovesOn(before, entry, outcome.finalizedPrevious, DeltaEvents(outcome), id) {
        DeltaMovesOn(codec, strip, before, d, id);
      }
      DeltaMovesOn(codec, strip, before, d, "");
      FinishKeeps(codec, strip, before);
      if strip {
        DeltaShowsPathOnly(codec, before, d);
      }
      EntryKeeps(codec, strip, p, d.key, entry, outcome.finalizedPrevious, DeltaEvents(outcome));
    } else {
      assert p.log + DeltaEvents(NO_OUTCOME) == p.log && p.finalized + Listed(None) == p.finalized;
      assert Progress(p.pending, p.finalized + Listed(None), p.log + DeltaEvents(NO_OUTCOME)) == p;
    }
  }

  /** One of the first `n` keys has a call pending that leaves a record with this id. */
  ghost predicate AmongKeys(pending: map<Key, Pending>, keys: seq<Key>, n: nat, id: string) {
    exists i {:trigger keys[i]} :: 0 <= i < n && i < |keys| && keys[i] in pending && LeavesRecord(pending[keys[i]], id)
  }

  lemma {:induction false} AllFinishKeep(codec: Codec, strip: bool, p: Progress, keys: seq<Key>, n: nat, id: string)
    requires Kept(codec, strip, p) && n <= |keys| && forall k :: k in keys ==> k in p.pending
    ensures var fs := p.finalized + FinishAll(codec, strip, p.pending, keys, n);
      && (HandedOver(fs, id) <==> HandedOver(p.finalized, id) || AmongKeys(p.pending, keys, n, id))
      && (strip ==> AllRecordPathOnly(codec, fs))
  {
    if n == 0 {
      assert p.finalized + [] == p.finalized;
    } else {
      AllFinishKeep(codec, strip, p, keys, n - 1, id);
      var entry, front := p.pending[keys[n - 1]], FinishAll(codec, strip, p.pending, keys, n - 1);
      NextFinishKeeps(codec, strip, entry, p.finalized + front, id);
      AmongOneMore(p.pending, keys, n - 1, id);
      assert p.finalized + (front + Listed(Finish(codec, strip, entry)))
          == p.finalized + front + Listed(Finish(codec, strip, entry));
    }
  }

  lemma NextFinishKeeps(codec: Codec, strip: bool, entry: Pending, fs: seq<Finalized>, id: string)
    requires strip ==> AllRecordPathOnly(codec, fs)
    ensures var more := fs + Listed(Finish(codec, strip, entry));
      && (HandedOver(more, id) <==> HandedOver(fs, id) || LeavesRecord(entry, id))
      && (strip ==> AllRecordPathOnly(codec, more))
  {
    var finished := Finish(codec, strip, entry);
    FinishKeeps(codec, strip, entry);
    HandedOverOneMore(fs, finished, id);
    if strip {
      RecordsJoin(codec, fs, finished);
    }
  }

  lemma AmongOneMore(pending: map<Key, Pending>, keys: seq<Key>, n: nat, id: string)
    requires n < |keys| && keys[n] in pending
    ensures AmongKeys(pending, keys, n + 1, id) <==>
              AmongKeys(pending, keys, n, id) || LeavesRecord(pending[keys[n]], id)
  {
    assert keys[n] in pending;
  }

  lemma FinishedKeeps(codec: Codec, strip: bool, p: Progress, fs: seq<Finalized>)
    requires Kept(codec, strip, p) && FinishedInto(codec, strip, p, fs)
    ensures Kept(codec, strip, Progress(map[], fs, p.log))
  {
    var keys :| KeysOf(p.pending, keys) && fs == p.finalized + FinishAll(codec, strip, p.pending, keys, |keys|);
    var q := Progress(map[], fs, p.log);
    AllFinishKeep(codec, strip, p, keys, |keys|, "");
    forall id ensures ShownIffHeld(q, id) {
      assert ShownIffHeld(p, id);
      AllFinishKeep(codec, strip, p, keys, |keys|, id);
      KeysHoldPending(p.pending, keys, id);
    }
  }

  lemma KeysHoldPending(pending: map<Key, Pending>, keys: seq<Key>, id: string)
    requires KeysOf(pending, keys)
    ensures AmongKeys(pending, keys, |keys|, id) <==> IsPending(pending, id)
  {
    if IsPending(pending, id) {
      var k :| k in pending && LeavesRecord(pending[k], id);
      assert k in keys;
      var i :| 0 <= i < |keys| && keys[i] == k;
    }
  }

  lemma StagesKeep(codec: Codec, strip: bool, p: Progress, r: Response)
    requires Kept(codec, strip, p)
    ensures Kept(codec, strip, Called(codec, strip, Wrote(Thought(p, r.reasoning), r.text), r.toolCall))
  {
    ProseKeeps(codec, strip, p, r);
    if r.toolCall.Some? {
      CallKeeps(codec, strip, Wrote(Thought(p, r.reasoning), r.text), r.toolCall.value);
    }
  }

  lemma PassedKeeps(codec: Codec, strip: bool, p: Progress, r: Response, q: Progress)
    requires Kept(codec, strip, p) && Passed(codec, strip, p, r, q)
    ensures Kept(codec, strip, q)
  {
    StagesKeep(codec, strip, p, r);
    if r.finishReason.Some? {
      var called := Called(codec, strip, Wrote(Thought(p, r.reasoning), r.text), r.toolCall);
      FinishedKeeps(codec, strip, called, q.finalized);
    }
  }

  lemma CutKeeps(codec: Codec, strip: bool, p: Progress, r: Response, checks: Checks)
    requires Kept(codec, strip, p)
    ensures Kept(codec, strip, CutAt(codec, strip, p, r, checks))
  {
    ProseKeeps(codec, strip, p, r);
    StagesKeep(codec, strip, p, r);
  }

  // ---------- every run keeps it ----------

  lemma {:induction false} ProgressKeeps(codec: Codec, strip: bool, items: seq<Item>, steps: seq<Progress>, n: nat,
                                         i: nat)
    requires Progresses(codec, strip, items, steps, n) && i <= n
    ensures Kept(codec, strip, steps[i])
  {
    if i > 0 {
      ProgressKeeps(codec, strip, items, steps, n, i - 1);
      assert PassedAt(codec, strip, items, steps, i - 1);
      PassedKeeps(codec, strip, steps[i - 1], items[i - 1].response, steps[i]);
    }
  }

  lemma EndingKeeps(codec: Codec, strip: bool, items: seq<Item>, steps: seq<Progress>, stop: nat)
    requires Progresses(codec, strip, items, steps, stop)
    ensures Kept(codec, strip, Ending(codec, strip, items, steps, stop))
  {
    ProgressKeeps(codec, strip, items, steps, stop, stop);
    if stop < |items| && items[stop].Received? {
      CutKeeps(codec, strip, steps[stop], items[stop].response, items[stop].checks);
    }
  }
}
