/** Which calls a run records, told from the deltas and finish boundaries it received. */
module CallRecords {
  import opened Wrappers
  import opened ToolCalls
  import opened StreamLog
  import opened StreamProcessor
  import Json
  import JsonRepair

  // ---------- cutting deltas into calls ----------

  /** What can move pending calls on: a delta, or a boundary that finishes all of them. */
  datatype Act = Take(delta: Delta) | Boundary

  /** The calls of one key that are done, and the deltas of the one that is open, if any. */
  datatype Cut = Cut(done: seq<seq<Delta>>, open: seq<Delta>)

  /** A call is named by its first delta. */
  function IdOf(call: seq<Delta>): string {
    if call == [] then "" else OrEmpty(call[0].id)
  }

  function Close(c: Cut): seq<seq<Delta>> {
    if c.open == [] then c.done else c.done + [c.open]
  }

  /**
   * Cuts what happens on one key into calls: a new id begins a call, other deltas go on
   * with the open one, and those in front of any id are lost.
   */
  function CutOn(acts: seq<Act>, key: Key): Cut {
    if acts == [] then Cut([], [])
    else
      var c := CutOn(acts[..|acts| - 1], key);
      match acts[|acts| - 1]
      case Boundary => Cut(Close(c), [])
      case Take(d) =>
        if d.key != key then c
        else if OrEmpty(d.id) != "" && IdOf(c.open) != d.id.value then Cut(Close(c), [d])
        else if c.open == [] then c
        else Cut(c.done, c.open + [d])
  }

  /** The first name that is not empty. */
  function FirstName(call: seq<Delta>): string {
    if call == [] then ""
    else
      var front := FirstName(call[..|call| - 1]);
      if front != "" then front else OrEmpty(call[|call| - 1].name)
  }

  /** The call as its deltas make it: their id, the first name, and what their arguments add up to. */
  function CallOf(call: seq<Delta>): Pending {
    Pending(IdOf(call), FirstName(call), Gathered("", call), FirstName(call) != "")
  }

  lemma CutNext(acts: seq<Act>, a: Act)
    ensures (acts + [a])[..|acts + [a]| - 1] == acts && (acts + [a])[|acts + [a]| - 1] == a
  {
  }

  /** An open call has an id. */
  lemma {:induction false} OpenIsIdentified(acts: seq<Act>, key: Key)
    ensures CutOn(acts, key).open != [] ==> IdOf(CutOn(acts, key).open) != ""
  {
    if acts != [] {
      OpenIsIdentified(acts[..|acts| - 1], key);
    }
  }

  lemma {:induction false} GatheredNext(raw: string, call: seq<Delta>, d: Delta)
    ensures var text, before := OrEmpty(d.arguments), Gathered(raw, call);
            Gathered(raw, call + [d]) == if text == "" then before else if d.isSnapshot then text else before + text
    decreases |call|
  {
    if call == [] {
      assert [d][1..] == [];
    } else {
      var text := OrEmpty(call[0].arguments);
      GatheredNext(if text == "" then raw else if call[0].isSnapshot then text else raw + text, call[1..], d);
      assert (call + [d])[1..] == call[1..] + [d];
    }
  }

  /** A delta of the open call makes it the call of one more delta. */
  lemma GoesOn(codec: Codec, strip: bool, call: seq<Delta>, d: Delta)
    requires call != [] && IdOf(call) != "" && (OrEmpty(d.id) == "" || d.id.value == IdOf(call))
    ensures var (entry, outcome) := Applied(codec, strip, CallOf(call), d);
            entry == CallOf(call + [d]) && outcome.finalizedPrevious == None
  {
    GatheredNext("", call, d);
    assert (call + [d])[..|call + [d]| - 1] == call;
  }

  /** A new id begins a call and finishes the open one, whose deltas leave no trace in the new call. */
  lemma StartsOver(codec: Codec, strip: bool, p: Pending, d: Delta)
    requires OrEmpty(d.id) != "" && p.id != d.id.value
    ensures var (entry, outcome) := Applied(codec, strip, p, d);
            entry == CallOf([d]) && outcome.finalizedPrevious == Finish(codec, strip, p)
  {
    GatheredNext("", [], d);
    assert [] + [d] == [d] && [d][..0] == [];
    assert FirstName([]) == "";
  }

  // ---------- what is pending and handed over ----------

  /** `f` is the record of one of the calls. */
  ghost predicate RecordedFrom(codec: Codec, strip: bool, calls: seq<seq<Delta>>, f: Finalized) {
    exists i {:trigger calls[i]} :: 0 <= i < |calls| && Finish(codec, strip, CallOf(calls[i])) == Some(f)
  }

  ghost predicate PendingIs(pending: map<Key, Pending>, acts: seq<Act>, key: Key) {
    && (key in pending <==> CutOn(acts, key).open != [])
    && (key in pending ==> pending[key] == CallOf(CutOn(acts, key).open))
  }

  ghost predicate SomeKeyRecords(codec: Codec, strip: bool, acts: seq<Act>, f: Finalized) {
    exists key {:trigger CutOn(acts, key)} :: RecordedFrom(codec, strip, CutOn(acts, key).done, f)
  }

  /** What is pending and what has been handed over is what the acts of each key have been cut into. */
  ghost predicate Holds(codec: Codec, strip: bool, p: Progress, acts: seq<Act>) {
    && (forall key {:trigger PendingIs(p.pending, acts, key)} :: PendingIs(p.pending, acts, key))
    && (forall f {:trigger SomeKeyRecords(codec, strip, acts, f)} ::
         f in p.finalized <==> SomeKeyRecords(codec, strip, acts, f))
  }

  lemma CloseRecords(codec: Codec, strip: bool, c: Cut, f: Finalized)
    ensures RecordedFrom(codec, strip, Close(c), f) <==>
      RecordedFrom(codec, strip, c.done, f) || (c.open != [] && Finish(codec, strip, CallOf(c.open)) == Some(f))
  {
    var calls := Close(c);
    if RecordedFrom(codec, strip, c.done, f) {
      var i :| 0 <= i < |c.done| && Finish(codec, strip, CallOf(c.done[i])) == Some(f);
      assert calls[i] == c.done[i];
    }
    if c.open != [] {
      assert calls[|c.done|] == c.open;
    }
    if RecordedFrom(codec, strip, calls, f) {
      var i :| 0 <= i < |calls| && Finish(codec, strip, CallOf(calls[i])) == Some(f);
      assert i < |c.done| ==> calls[i] == c.done[i];
    }
  }

  /** What a delta leaves open on its own key. */
  lemma DeltaOpens(codec: Codec, strip: bool, pending: map<Key, Pending>, acts: seq<Act>, d: Delta)
    requires PendingIs(pending, acts, d.key)
    ensures PendingIs(DeltaOn(codec, strip, pending, d).0, acts + [Take(d)], d.key)
  {
    var c := CutOn(acts, d.key);
    CutNext(acts, Take(d));
    OpenIsIdentified(acts, d.key);
    if OrEmpty(d.id) != "" && IdOf(c.open) != d.id.value {
      StartsOver(codec, strip, if c.open == [] then NEW_PENDING else CallOf(c.open), d);
    } else if c.open != [] {
      GoesOn(codec, strip, c.open, d);
    }
  }

  /** The record a delta hands over is that of the call it closes on its own key. */
  lemma DeltaCloses(codec: Codec, strip: bool, pending: map<Key, Pending>, acts: seq<Act>, d: Delta, f: Finalized)
    requires PendingIs(pending, acts, d.key)
    ensures RecordedFrom(codec, strip, CutOn(acts + [Take(d)], d.key).done, f) <==>
      || RecordedFrom(codec, strip, CutOn(acts, d.key).done, f)
      || DeltaOn(codec, strip, pending, d).1.finalizedPrevious == Some(f)
  {
    var c := CutOn(acts, d.key);
    CutNext(acts, Take(d));
    OpenIsIdentified(acts, d.key);
    if OrEmpty(d.id) != "" && IdOf(c.open) != d.id.value {
      StartsOver(codec, strip, if c.open == [] then NEW_PENDING else CallOf(c.open), d);
      CloseRecords(codec, strip, c, f);
    } else if c.open != [] {
      GoesOn(codec, strip, c.open, d);
    }
  }

  /**
   * What the last delta of an open call makes visible: the call once its name is known, and the
   * delta's arguments; of a write that is stripped only the path, once it can be read.
   */
  ghost predicate ShowsDelta(codec: Codec, strip: bool, named: bool, call: seq<Delta>, outcome: ToolCalls.Outcome)
    requires call != []
  {
    var id, name, arguments := IdOf(call), FirstName(call), OrEmpty(call[|call| - 1].arguments);
    var read := codec.parse(Gathered("", call));
    && outcome.earlyDetected == (if name != "" && !named then Some(Detected(id, name)) else None)
    && (arguments == "" ==> outcome.paramsPartial == None)
    && (arguments != "" && !(strip && WriteLike(name)) ==>
         outcome.paramsPartial == Some(ParamsChunk(id, name, arguments)))
    && (arguments != "" && strip && WriteLike(name) ==>
         if read.Some? && NamesPath(read.value) && PathText(codec, read.value.members["file_path"]) != "" then
           outcome.paramsPartial == Some(ParamsChunk(id, name, PathText(codec, read.value.members["file_path"])))
         else outcome.paramsPartial == None)
  }

  /** Every delta is shown as part of the call it belongs to, or not at all if it belongs to none. */
  lemma DeltaIsShown(codec: Codec, strip: bool, pending: map<Key, Pending>, acts: seq<Act>, d: Delta)
    requires PendingIs(pending, acts, d.key)
    ensures var before, call := CutOn(acts, d.key).open, CutOn(acts + [Take(d)], d.key).open;
            var outcome := DeltaOn(codec, strip, pending, d).1;
            if call == [] then outcome == NO_OUTCOME
            else ShowsDelta(codec, strip, |call| > 1 && FirstName(before) != "", call, outcome)
  {
    var c := CutOn(acts, d.key);
    CutNext(acts, Take(d));
    OpenIsIdentified(acts, d.key);
    if OrEmpty(d.id) != "" && IdOf(c.open) != d.id.value {
      var p := if c.open == [] then NEW_PENDING else CallOf(c.open);
      StartsOver(codec, strip, p, d);
      AppliedShows(codec, strip, p, d, false, [d]);
    } else if c.open != [] {
      GoesOn(codec, strip, c.open, d);
      AppliedShows(codec, strip, CallOf(c.open), d, FirstName(c.open) != "", c.open + [d]);
    }
  }

  lemma AppliedShows(codec: Codec, strip: bool, p: Pending, d: Delta, named: bool, call: seq<Delta>)
    requires call != [] && call[|call| - 1] == d && IdOf(call) != ""
    requires Applied(codec, strip, p, d).0 == CallOf(call)
    requires Adopt(codec, strip, p, d).0.earlyDetected == named
    ensures ShowsDelta(codec, strip, named, call, Applied(codec, strip, p, d).1)
  {
  }

  lemma OtherKeyStays(acts: seq<Act>, d: Delta, key: Key)
    requires d.key != key
    ensures CutOn(acts + [Take(d)], key) == CutOn(acts, key)
  {
    CutNext(acts, Take(d));
  }

  lemma DeltaHolds(codec: Codec, strip: bool, p: Progress, acts: seq<Act>, d: Delta)
    requires Holds(codec, strip, p, acts)
    ensures Holds(codec, strip, Called(codec, strip, p, Some(d)), acts + [Take(d)])
  {
    var (after, outcome) := DeltaOn(codec, strip, p.pending, d);
    var more, fs := acts + [Take(d)], p.finalized + Listed(outcome.finalizedPrevious);
    assert PendingIs(p.pending, acts, d.key);
    forall key ensures PendingIs(after, more, key) {
      if key == d.key {
        DeltaOpens(codec, strip, p.pending, acts, d);
      } else {
        OtherKeyStays(acts, d, key);
        assert PendingIs(p.pending, acts, key);
      }
    }
    forall f ensures f in fs <==> SomeKeyRecords(codec, strip, more, f) {
      DeltaCloses(codec, strip, p.pending, acts, d, f);
      DeltaRecords(codec, strip, acts, d, outcome.finalizedPrevious, f);
      assert f in p.finalized <==> SomeKeyRecords(codec, strip, acts, f);
    }
  }

  lemma DeltaRecords(codec: Codec, strip: bool, acts: seq<Act>, d: Delta, finished: Option<Finalized>, f: Finalized)
    requires RecordedFrom(codec, strip, CutOn(acts + [Take(d)], d.key).done, f) <==>
             RecordedFrom(codec, strip, CutOn(acts, d.key).done, f) || finished == Some(f)
    ensures SomeKeyRecords(codec, strip, acts + [Take(d)], f) <==>
            SomeKeyRecords(codec, strip, acts, f) || finished == Some(f)
  {
    var more := acts + [Take(d)];
    if SomeKeyRecords(codec, strip, acts, f) {
      var key :| RecordedFrom(codec, strip, CutOn(acts, key).done, f);
      if key != d.key {
        OtherKeyStays(acts, d, key);
      }
      assert RecordedFrom(codec, strip, CutOn(more, key).done, f);
    }
    if SomeKeyRecords(codec, strip, more, f) {
      var key :| RecordedFrom(codec, strip, CutOn(more, key).done, f);
      if key != d.key {
        OtherKeyStays(acts, d, key);
      }
    }
  }

  lemma {:induction false} AllFinishMembers(codec: Codec, strip: bool, pending: map<Key, Pending>, keys: seq<Key>,
                                            n: nat, f: Finalized)
    requires n <= |keys| && forall k :: k in keys ==> k in pending
    ensures f in FinishAll(codec, strip, pending, keys, n) <==>
      exists i {:trigger keys[i]} :: 0 <= i < n && Finish(codec, strip, pending[keys[i]]) == Some(f)
  {
    if n > 0 {
      AllFinishMembers(codec, strip, pending, keys, n - 1, f);
    }
  }

  /** A boundary hands over the open call of every key. */
  lemma BoundaryHolds(codec: Codec, strip: bool, p: Progress, acts: seq<Act>, fs: seq<Finalized>, log: Log)
    requires Holds(codec, strip, p, acts) && FinishedInto(codec, strip, p, fs)
    ensures Holds(codec, strip, Progress(map[], fs, log), acts + [Boundary])
  {
    var more := acts + [Boundary];
    var keys :| KeysOf(p.pending, keys) && fs == p.finalized + FinishAll(codec, strip, p.pending, keys, |keys|);
    forall key ensures PendingIs(map[], more, key) {
      CutNext(acts, Boundary);
    }
    forall f ensures f in fs <==> SomeKeyRecords(codec, strip, more, f) {
      assert f in p.finalized <==> SomeKeyRecords(codec, strip, acts, f);
      AllFinishMembers(codec, strip, p.pending, keys, |keys|, f);
      BoundaryRecords(codec, strip, p.pending, keys, acts, f);
    }
  }

  lemma BoundaryRecords(codec: Codec, strip: bool, pending: map<Key, Pending>, keys: seq<Key>, acts: seq<Act>,
                        f: Finalized)
    requires forall key {:trigger PendingIs(pending, acts, key)} :: PendingIs(pending, acts, key)
    requires KeysOf(pending, keys)
    ensures SomeKeyRecords(codec, strip, acts + [Boundary], f) <==>
      || SomeKeyRecords(codec, strip, acts, f)
      || exists i {:trigger keys[i]} :: 0 <= i < |keys| && Finish(codec, strip, pending[keys[i]]) == Some(f)
  {
    var more := acts + [Boundary];
    if SomeKeyRecords(codec, strip, acts, f) {
      var key :| RecordedFrom(codec, strip, CutOn(acts, key).done, f);
      BoundaryCloses(codec, strip, acts, key, f);
    }
    if i :| 0 <= i < |keys| && Finish(codec, strip, pending[keys[i]]) == Some(f) {
      assert PendingIs(pending, acts, keys[i]);
      BoundaryCloses(codec, strip, acts, keys[i], f);
    }
    if SomeKeyRecords(codec, strip, more, f) {
      var key :| RecordedFrom(codec, strip, CutOn(more, key).done, f);
      BoundaryCloses(codec, strip, acts, key, f);
      assert PendingIs(pending, acts, key);
      if key in pending {
        assert key in keys;
        var i :| 0 <= i < |keys| && keys[i] == key;
      }
    }
  }

  lemma BoundaryCloses(codec: Codec, strip: bool, acts: seq<Act>, key: Key, f: Finalized)
    ensures var c := CutOn(acts, key);
      RecordedFrom(codec, strip, CutOn(acts + [Boundary], key).done, f) <==>
        RecordedFrom(codec, strip, c.done, f) || (c.open != [] && Finish(codec, strip, CallOf(c.open)) == Some(f))
  {
    CutNext(acts, Boundary);
    CloseRecords(codec, strip, CutOn(acts, key), f);
  }

  // ---------- every run ----------

  /** What a response does to calls: its delta, then the boundary of its finish reason. */
  function ActsIn(r: Response): seq<Act> {
    (if r.toolCall.Some? then [Take(r.toolCall.value)] else []) + (if r.finishReason.Some? then [Boundary] else [])
  }

  function AllActs(items: seq<Item>, n: nat): seq<Act>
    requires n <= |items|
  {
    if n == 0 then []
    else AllActs(items, n - 1) + if items[n - 1].Received? then ActsIn(items[n - 1].response) else []
  }

  /** Of the response a run was stopped in, the delta counts if the checks in front of it were passed. */
  function LastActs(last: Item): seq<Act> {
    if last.Received? && last.response.toolCall.Some?
       && !(OrEmpty(last.response.reasoning) != "" && last.checks.afterThinking)
       && !(OrEmpty(last.response.text) != "" && last.checks.afterText)
    then [Take(last.response.toolCall.value)]
    else []
  }

  /** Everything that moves calls on in a run; its end finishes what is left. */
  function RunActs(items: seq<Item>): seq<Act> {
    AllActs(items, StopOf(items, 0)) + LastActs(LastItem(items, StopOf(items, 0))) + [Boundary]
  }

  lemma StartHolds(codec: Codec, strip: bool)
    ensures Holds(codec, strip, START, [])
  {
  }

  lemma StagesHold(codec: Codec, strip: bool, p: Progress, r: Response, acts: seq<Act>)
    requires Holds(codec, strip, p, acts)
    ensures Holds(codec, strip, Called(codec, strip, Wrote(Thought(p, r.reasoning), r.text), r.toolCall),
                  acts + if r.toolCall.Some? then [Take(r.toolCall.value)] else [])
  {
    var q := Wrote(Thought(p, r.reasoning), r.text);
    SameCallsHold(codec, strip, p, q, acts);
    if r.toolCall.Some? {
      DeltaHolds(codec, strip, q, acts, r.toolCall.value);
    } else {
      assert acts + [] == acts;
    }
  }

  lemma SameCallsHold(codec: Codec, strip: bool, p: Progress, q: Progress, acts: seq<Act>)
    requires Holds(codec, strip, p, acts) && q.pending == p.pending && q.finalized == p.finalized
    ensures Holds(codec, strip, q, acts)
  {
  }

  lemma PassedHolds(codec: Codec, strip: bool, p: Progress, r: Response, q: Progress, acts: seq<Act>)
    requires Holds(codec, strip, p, acts) && Passed(codec, strip, p, r, q)
    ensures Holds(codec, strip, q, acts + ActsIn(r))
  {
    StagesHold(codec, strip, p, r, acts);
    BoundedHolds(codec, strip, Called(codec, strip, Wrote(Thought(p, r.reasoning), r.text), r.toolCall),
                 r.finishReason, q, acts + if r.toolCall.Some? then [Take(r.toolCall.value)] else []);
    assert (acts + if r.toolCall.Some? then [Take(r.toolCall.value)] else [])
             + (if r.finishReason.Some? then [Boundary] else []) == acts + ActsIn(r);
  }

  lemma BoundedHolds(codec: Codec, strip: bool, p: Progress, finishReason: Option<string>, q: Progress, acts: seq<Act>)
    requires Holds(codec, strip, p, acts) && Bounded(codec, strip, p, finishReason, q)
    ensures Holds(codec, strip, q, acts + if finishReason.Some? then [Boundary] else [])
  {
    if finishReason.Some? {
      BoundaryHolds(codec, strip, p, acts, q.finalized, q.log);
    } else {
      assert acts + [] == acts;
    }
  }

  /** What holds behind the first `i` items. */
  ghost predicate HoldsAt(codec: Codec, strip: bool, items: seq<Item>, steps: seq<Progress>, i: nat) {
    i <= |items| && i < |steps| && Holds(codec, strip, steps[i], AllActs(items, i))
  }

  lemma FirstHolds(codec: Codec, strip: bool, items: seq<Item>, steps: seq<Progress>)
    requires |steps| > 0 && steps[0] == START
    ensures HoldsAt(codec, strip, items, steps, 0)
  {
    StartHolds(codec, strip);
  }

  lemma NextHolds(codec: Codec, strip: bool, items: seq<Item>, steps: seq<Progress>, n: nat, i: nat)
    requires Progresses(codec, strip, items, steps, n) && i < n
    ensures HoldsAt(codec, strip, items, steps, i) ==> HoldsAt(codec, strip, items, steps, i + 1)
  {
    assert PassedAt(codec, strip, items, steps, i);
    if HoldsAt(codec, strip, items, steps, i) {
      PassedHolds(codec, strip, steps[i], items[i].response, steps[i + 1], AllActs(items, i));
    }
  }

  /** Behind every response what is pending and handed over is what has come in, cut into calls key by key. */
  lemma {:induction false} ProgressHolds(codec: Codec, strip: bool, items: seq<Item>, steps: seq<Progress>, n: nat,
                                         i: nat)
    requires Progresses(codec, strip, items, steps, n) && i <= n
    ensures HoldsAt(codec, strip, items, steps, i)
  {
    if i == 0 {
      FirstHolds(codec, strip, items, steps);
    } else {
      ProgressHolds(codec, strip, items, steps, n, i - 1);
      NextHolds(codec, strip, items, steps, n, i - 1);
    }
  }

  lemma CutHolds(codec: Codec, strip: bool, p: Progress, r: Response, checks: Checks, acts: seq<Act>)
    requires Holds(codec, strip, p, acts)
    ensures Holds(codec, strip, CutAt(codec, strip, p, r, checks), acts + LastActs(Received(r, checks)))
  {
    StagesHold(codec, strip, p, r, acts);
    assert acts + [] == acts;
    if ThinkingStops(r, checks) || TextStops(r, checks) {
      SameCallsHold(codec, strip, p, CutAt(codec, strip, p, r, checks), acts);
    }
  }

  lemma EndingHolds(codec: Codec, strip: bool, items: seq<Item>, steps: seq<Progress>, stop: nat)
    requires Progresses(codec, strip, items, steps, stop)
    ensures Holds(codec, strip, Ending(codec, strip, items, steps, stop),
                  AllActs(items, stop) + LastActs(LastItem(items, stop)))
  {
    ProgressHolds(codec, strip, items, steps, stop, stop);
    if stop < |items| && items[stop].Received? {
      CutHolds(codec, strip, steps[stop], items[stop].response, items[stop].checks, AllActs(items, stop));
    } else {
      assert AllActs(items, stop) + [] == AllActs(items, stop);
    }
  }

  /** In every run the records handed over are exactly those of the calls its items are cut into, key by key. */
  lemma RunRecords(items: seq<Item>, codec: Codec, strip: bool, recoverOnCancel: bool,
                   outcome: Result<StreamResult, StreamError>, ctx: StreamContext, steps: seq<Progress>, f: Finalized)
    requires Ran(items, codec, strip, recoverOnCancel, outcome, ctx, steps)
    ensures f in ctx.finalized <==> SomeKeyRecords(codec, strip, RunActs(items), f)
  {
    var stop := StopOf(items, 0);
    var p := Ending(codec, strip, items, steps, stop);
    var acts := AllActs(items, stop) + LastActs(LastItem(items, stop));
    EndingHolds(codec, strip, items, steps, stop);
    BoundaryHolds(codec, strip, p, acts, ctx.finalized, p.log);
  }

  // ---------- what a recorded call carries ----------

  /** The tools that write a file. */
  const WRITES := {"Write", "file_write", "write_notebook"}

  /** The arguments as they were read, without the contents of a file if those are to be left out. */
  ghost predicate ReadAs(read: Json.Value, leaveOut: bool, arguments: Json.Value) {
    if leaveOut && read.Object? then
      && arguments.Object?
      && (forall k :: k in arguments.members <==> k in read.members && k != "content" && k != "contents")
      && (forall k :: k in arguments.members ==> arguments.members[k] == read.members[k])
    else arguments == read
  }

  /** What is read of a text that was cut off, once it has been repaired. */
  function ReadRepaired(codec: Codec, text: string): Option<Json.Value> {
    match JsonRepair.Repair(text) case Some(repaired) => codec.parse(repaired) case None => None
  }

  /**
   * The arguments a call is recorded with: as read from its text; if the text cannot be read, as
   * read from the repaired text, provided the tool is safe to recover; otherwise none.
   */
  ghost predicate ArgumentsTell(codec: Codec, name: string, text: string, leaveOut: bool, c: ToolCall) {
    var read := codec.parse(text);
    var repaired := ReadRepaired(codec, text);
    && (c.isError <==> read.None? && !(repaired.Some? && name in WRITES + {"AskUserQuestion", "TodoWrite"}))
    && (c.recovered <==> read.None? && repaired.Some?)
    && (read.Some? ==> ReadAs(read.value, leaveOut, c.arguments))
    && (read.None? && !c.isError ==> ReadAs(repaired.value, leaveOut, c.arguments))
    && (c.isError ==> c.arguments == Json.Object(map[]))
  }

  /** The call `c` is what these deltas add up to. */
  ghost predicate Tells(codec: Codec, strip: bool, call: seq<Delta>, c: ToolCall) {
    var name, text := FirstName(call), Gathered("", call);
    var leaveOut := strip && name in WRITES;
    && c.id == IdOf(call)
    && c.name == (if name == "" then "unknown_tool" else name)
    && ArgumentsTell(codec, name, text, leaveOut, c)
    && (!(leaveOut && NamesPath(c.arguments)) ==> OrEmpty(c.raw) == text)
    && (leaveOut && NamesPath(c.arguments) ==> OrEmpty(c.raw) == PathText(codec, c.arguments.members["file_path"]))
    && c.raw != Some("")
  }

  lemma FinishTells(codec: Codec, strip: bool, call: seq<Delta>, f: Finalized)
    requires Finish(codec, strip, CallOf(call)) == Some(f)
    ensures Tells(codec, strip, call, Kept(f))
  {
    var name, text := FirstName(call), Gathered("", call);
    ArgumentsAreTold(codec, name, text, strip && WriteLike(name), Kept(f));
  }

  lemma ArgumentsAreTold(codec: Codec, name: string, text: string, leaveOut: bool, c: ToolCall)
    requires var (arguments, isError, recovered) := Arguments(codec, name, text);
      && c.arguments == (if leaveOut then StripContent(arguments) else arguments)
      && c.isError == isError && c.recovered == recovered
    ensures ArgumentsTell(codec, name, text, leaveOut, c)
  {
    assert StripContent(EMPTY_OBJECT).members == map[];
  }

  /** The deltas of some call of the run, on some key, add up to `c`. */
  ghost predicate ToldBySome(codec: Codec, strip: bool, acts: seq<Act>, c: ToolCall) {
    exists key, i {:trigger CutOn(acts, key).done[i]} ::
      0 <= i < |CutOn(acts, key).done| && Tells(codec, strip, CutOn(acts, key).done[i], c)
  }

  /** Every call a run records is what the deltas of one call of its items add up to. */
  lemma RecordedAreTold(items: seq<Item>, codec: Codec, strip: bool, recoverOnCancel: bool,
                        outcome: Result<StreamResult, StreamError>, ctx: StreamContext, steps: seq<Progress>,
                        c: ToolCall)
    requires Ran(items, codec, strip, recoverOnCancel, outcome, ctx, steps) && c in ctx.toolCalls
    ensures ToldBySome(codec, strip, RunActs(items), c)
  {
    var fs, acts := ctx.finalized, RunActs(items);
    RecordedAreFirsts(fs, |fs|, c);
    var k :| 0 <= k < |fs| && First(fs, k) && c == Kept(fs[k]);
    RunRecords(items, codec, strip, recoverOnCancel, outcome, ctx, steps, fs[k]);
    var key :| RecordedFrom(codec, strip, CutOn(acts, key).done, fs[k]);
    var calls := CutOn(acts, key).done;
    var i :| 0 <= i < |calls| && Finish(codec, strip, CallOf(calls[i])) == Some(fs[k]);
    FinishTells(codec, strip, calls[i], fs[k]);
  }

  /** Every call with a name or arguments that a run receives is recorded, unless its id has been recorded before. */
  lemma ReceivedAreRecorded(items: seq<Item>, codec: Codec, strip: bool, recoverOnCancel: bool,
                            outcome: Result<StreamResult, StreamError>, ctx: StreamContext, steps: seq<Progress>,
                            key: Key, i: nat)
    requires Ran(items, codec, strip, recoverOnCancel, outcome, ctx, steps)
    requires i < |CutOn(RunActs(items), key).done|
    requires var call := CutOn(RunActs(items), key).done[i]; FirstName(call) != "" || Gathered("", call) != ""
    ensures IdOf(CutOn(RunActs(items), key).done[i]) in Ids(ctx.toolCalls)
  {
    var acts, fs := RunActs(items), ctx.finalized;
    var call := CutOn(acts, key).done[i];
    DoneIsIdentified(acts, key, i);
    FinishedIsIdentified(codec, strip, CallOf(call));
    var f := Finish(codec, strip, CallOf(call)).value;
    assert RecordedFrom(codec, strip, CutOn(acts, key).done, f);
    RunRecords(items, codec, strip, recoverOnCancel, outcome, ctx, steps, f);
    var k :| 0 <= k < |fs| && fs[k] == f;
    RecordedIds(fs, |fs|, f.id);
  }

  lemma {:induction false} DoneIsIdentified(acts: seq<Act>, key: Key, i: nat)
    requires i < |CutOn(acts, key).done|
    ensures IdOf(CutOn(acts, key).done[i]) != ""
  {
    var front := CutOn(acts[..|acts| - 1], key);
    if i < |front.done| {
      DoneIsIdentified(acts[..|acts| - 1], key, i);
    } else {
      OpenIsIdentified(acts[..|acts| - 1], key);
    }
  }
}
