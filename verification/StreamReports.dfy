/** What a finished run tells whoever reads its result and its events. */
module StreamReports {
  import opened Wrappers
  import opened ToolCalls
  import opened StreamLog
  import opened StreamProcessor
  import opened StreamRuns

  /** One marker if any thinking was shown, none otherwise; and no output in between. */
  lemma ThinkingIsClosedOnce(log: Log)
    requires PhaseOf(log) != Wrong && PhaseOf(log) != Open
    ensures Markers(log) == if AnyThinking(log) then 1 else 0
  {
    PhaseCounts(log, |log|);
  }

  /** Closing events are neither thinking nor output. */
  lemma {:induction false} ClosingIsQuiet(body: Log, closing: Log, n: nat)
    requires n <= |closing| && forall i :: 0 <= i < |closing| ==> Terminal(closing[i])
    ensures Told(body + closing, |body| + n) == Told(body, |body|)
  {
    if n == 0 {
      ToldPrefix(body, closing, |body|);
    } else {
      ClosingIsQuiet(body, closing, n - 1);
      var s := Told(body, |body|);
      assert s.text + "" == s.text && s.thinking + "" == s.thinking;
    }
  }

  /** The event that closes one call. */
  predicate Closes(e: Event, c: ToolCall, reason: string) {
    if Contains(reason, CANCELLED_WORD) then e == ToolCancelled(c.id, c.name, reason)
    else e == ToolFailed(c.id, c.name, reason)
  }

  lemma {:induction false} ClosingCloses(calls: seq<ToolCall>, reason: string, n: nat)
    requires n <= |calls|
    ensures |Closing(calls, reason, n)| == n
    ensures forall i :: 0 <= i < n ==> Closes(Closing(calls, reason, n)[i], calls[i], reason)
  {
    if n > 0 {
      ClosingCloses(calls, reason, n - 1);
    }
  }

  /** A shutdown closes each recorded call once, in order, and the turn once if there was a call. */
  lemma ShutdownReportsEachCall(calls: seq<ToolCall>, reason: string)
    ensures var events := Shutdown(calls, reason);
      && |events| == (if calls == [] then 0 else |calls| + 1)
      && (forall i :: 0 <= i < |calls| ==> Closes(events[i], calls[i], reason))
      && (calls != [] ==> events[|calls|] == if Contains(reason, CANCELLED_WORD) then TurnCancelled
             else TurnFailed(reason))
      && (forall i :: 0 <= i < |events| ==> Terminal(events[i]))
  {
    ClosingCloses(calls, reason, |calls|);
  }

  lemma ShutdownAddsNothingElse(body: Log, calls: seq<ToolCall>, reason: string)
    requires PhaseOf(body) != Wrong
    ensures var log := body + Shutdown(calls, reason);
      Markers(log) <= 1 && Texts(log) == Texts(body) && Thinkings(log) == Thinkings(body) &&
        PhaseOf(log) == PhaseOf(body)
  {
    ShutdownReportsEachCall(calls, reason);
    QuietAfter(body, Shutdown(calls, reason));
  }

  lemma QuietAfter(body: Log, closing: Log)
    requires PhaseOf(body) != Wrong && forall i :: 0 <= i < |closing| ==> Terminal(closing[i])
    ensures Markers(body + closing) <= 1
    ensures Texts(body + closing) == Texts(body) && Thinkings(body + closing) == Thinkings(body)
    ensures PhaseOf(body + closing) == PhaseOf(body)
  {
    ClosingIsQuiet(body, closing, |closing|);
    PhaseCounts(body, |body|);
  }

  // ---------- every run ----------

  /** The calls a run has recorded: those of its hand-overs, once each, every one with an id and a name. */
  ghost predicate CallsAreRecords(calls: seq<ToolCall>, fs: seq<Finalized>) {
    && calls == Recorded(fs, |fs|)
    && (forall i :: 0 <= i < |calls| ==> calls[i].id != "" && calls[i].name != "")
    && (forall i, j :: 0 <= i < j < |calls| ==> calls[i].id != calls[j].id)
  }

  lemma MatchingCallsAreRecords(calls: seq<ToolCall>, ids: set<string>, fs: seq<Finalized>)
    requires Matches(calls, ids, fs)
    ensures CallsAreRecords(calls, fs)
  {
    RecordedAreNamed(fs);
    RecordedOnce(fs, |fs|);
  }

  /** A successful run: result and events agree, nothing failed, nothing is left pending. */
  lemma OkRun(items: seq<Item>, codec: Codec, strip: bool, recoverOnCancel: bool,
              outcome: Result<StreamResult, StreamError>, ctx: StreamContext, steps: seq<Progress>)
    requires Ran(items, codec, strip, recoverOnCancel, outcome, ctx, steps) && outcome.Ok?
    ensures var r := outcome.value;
      && r.fullText == Texts(ctx.log) && r.fullThinking == Thinkings(ctx.log)
      && CallsAreRecords(r.toolCalls, ctx.finalized)
      && (r.hasEffectiveOutput <==> AnyEffective(ctx.log))
      && (r.recovery.None? <==> LastItem(items, StopOf(items, 0)).End?)
    ensures NoTerminal(ctx.log) && ctx.pendingCalls.pending == map[]
    ensures Markers(ctx.log) == if AnyThinking(ctx.log) then 1 else 0
    ensures MarkedBeforeOutput(ctx.log)
  {
    ThinkingIsClosedOnce(ctx.log);
    NoOutputWhileOpen(ctx.log);
    MatchingCallsAreRecords(ctx.toolCalls, ctx.finalizedIds, ctx.finalized);
  }

  /**
   * A failed run: the log is what was shown, with at most one marker, followed by
   * exactly one closing event per recorded call and one for the turn if there was a call.
   */
  lemma ErrRun(items: seq<Item>, codec: Codec, strip: bool, recoverOnCancel: bool,
               outcome: Result<StreamResult, StreamError>, ctx: StreamContext, steps: seq<Progress>)
    requires Ran(items, codec, strip, recoverOnCancel, outcome, ctx, steps) && outcome.Err?
    ensures var stop := StopOf(items, 0);
      var shown := Ending(codec, strip, items, steps, stop).log;
      var verdict := Judge(LastItem(items, stop), recoverOnCancel, ctx.effective);
      && NoTerminal(shown)
      && verdict.Aborted? && ctx.log == shown + Shutdown(ctx.toolCalls, verdict.reason)
      && (outcome.error.hasEffectiveOutput <==> AnyEffective(shown))
    ensures CallsAreRecords(ctx.toolCalls, ctx.finalized) && ctx.pendingCalls.pending == map[]
    ensures Texts(ctx.log) == ctx.fullText && Thinkings(ctx.log) == ctx.fullThinking
    ensures Markers(ctx.log) <= 1 && MarkedBeforeOutput(ctx.log)
  {
    var stop := StopOf(items, 0);
    var shown := Ending(codec, strip, items, steps, stop).log;
    var reason := Judge(LastItem(items, stop), recoverOnCancel, ctx.effective).reason;
    ShutdownAddsNothingElse(shown, ctx.toolCalls, reason);
    NoOutputWhileOpen(ctx.log);
    MatchingCallsAreRecords(ctx.toolCalls, ctx.finalizedIds, ctx.finalized);
  }

  /** Some call has been announced, or parameters of one have been shown. */
  predicate AnyCallShown(log: Log) {
    exists i {:trigger log[i]} :: 0 <= i < |log| && (log[i].EarlyDetected? || log[i].ParamsPartial?)
  }

  /**
   * In every run the calls recorded are exactly those that were announced, or that
   * parameters were shown of, by events with their ids.
   */
  lemma RecordedIffShown(items: seq<Item>, codec: Codec, strip: bool, recoverOnCancel: bool,
                         outcome: Result<StreamResult, StreamError>, ctx: StreamContext, steps: seq<Progress>,
                         id: string)
    requires Ran(items, codec, strip, recoverOnCancel, outcome, ctx, steps)
    ensures var shown := Ending(codec, strip, items, steps, StopOf(items, 0)).log;
            id in Ids(ctx.toolCalls) <==> CallShown(shown, id)
  {
    var stop := StopOf(items, 0);
    var p := Ending(codec, strip, items, steps, stop);
    EndingKeeps(codec, strip, items, steps, stop);
    FinishedKeeps(codec, strip, p, ctx.finalized);
    var q := Progress(map[], ctx.finalized, p.log);
    assert ShownIffHeld(q, id) && !IsPending(q.pending, id);
    RecordedIds(ctx.finalized, |ctx.finalized|, id);
  }

  /** In every run a call is recorded if and only if one was shown, which counts as output. */
  lemma AnyRecordedIffShown(items: seq<Item>, codec: Codec, strip: bool, recoverOnCancel: bool,
                            outcome: Result<StreamResult, StreamError>, ctx: StreamContext, steps: seq<Progress>)
    requires Ran(items, codec, strip, recoverOnCancel, outcome, ctx, steps)
    ensures var shown := Ending(codec, strip, items, steps, StopOf(items, 0)).log;
            ctx.toolCalls != [] <==> AnyCallShown(shown)
    ensures ctx.toolCalls != [] ==> ctx.effective
  {
    var shown, calls := Ending(codec, strip, items, steps, StopOf(items, 0)).log, ctx.toolCalls;
    if calls != [] {
      RecordedIffShown(items, codec, strip, recoverOnCancel, outcome, ctx, steps, calls[0].id);
      IdsMember(calls, |calls|, calls[0].id);
      var i :| 0 <= i < |shown| && ShowsCall(shown[i], calls[0].id);
      assert Effective(shown[i]);
      MarkerIsNoOutput(shown);
    }
    if AnyCallShown(shown) {
      var i :| 0 <= i < |shown| && (shown[i].EarlyDetected? || shown[i].ParamsPartial?);
      var id := shown[i].id;
      assert ShowsCall(shown[i], id);
      RecordedIffShown(items, codec, strip, recoverOnCancel, outcome, ctx, steps, id);
      IdsMember(calls, |calls|, id);
    }
  }

  /**
   * With stripping on, no run shows more than a file path under the name of a write, or
   * records content of a write whose arguments name a path.
   */
  lemma WritesAreStripped(items: seq<Item>, codec: Codec, recoverOnCancel: bool,
                          outcome: Result<StreamResult, StreamError>, ctx: StreamContext, steps: seq<Progress>)
    requires Ran(items, codec, true, recoverOnCancel, outcome, ctx, steps)
    ensures AllShowPathOnly(codec, ctx.log) && AllRecordPathOnly(codec, ctx.finalized)
  {
    var stop := StopOf(items, 0);
    var p := Ending(codec, true, items, steps, stop);
    EndingKeeps(codec, true, items, steps, stop);
    FinishedKeeps(codec, true, p, ctx.finalized);
    var verdict := Judge(LastItem(items, stop), recoverOnCancel, ctx.effective);
    match verdict
    case Finished(_) =>
      ClosingKeeps(codec, true, p);
    case Aborted(_, reason) =>
      ShutdownReportsEachCall(ctx.toolCalls, reason);
      ShowsPathJoin(codec, p.log, Shutdown(ctx.toolCalls, reason));
  }

  // ---------- cancelled or failed ----------

  predicate SaysCancelled(e: Event) {
    e.ToolCancelled? || e.TurnCancelled?
  }

  predicate SaysFailed(e: Event) {
    e.ToolFailed? || e.TurnFailed?
  }

  /** The log reports a cancellation. */
  ghost predicate ReportsCancelled(log: Log) {
    exists i {:trigger SaysCancelled(log[i])} :: 0 <= i < |log| && SaysCancelled(log[i])
  }

  /** The log reports a failure. */
  ghost predicate ReportsFailed(log: Log) {
    exists i {:trigger SaysFailed(log[i])} :: 0 <= i < |log| && SaysFailed(log[i])
  }

  /** What is reported depends on the reason alone, if there is a call to report on. */
  lemma ShutdownReports(shown: Log, calls: seq<ToolCall>, reason: string)
    requires NoTerminal(shown)
    ensures ReportsCancelled(shown + Shutdown(calls, reason)) <==> calls != [] && Contains(reason, CANCELLED_WORD)
    ensures ReportsFailed(shown + Shutdown(calls, reason)) <==> calls != [] && !Contains(reason, CANCELLED_WORD)
  {
    ShutdownReportsEachCall(calls, reason);
    var events := Shutdown(calls, reason);
    var log := shown + events;
    forall i | 0 <= i < |log| ensures Terminal(log[i]) <==> i >= |shown| {
      assert i < |shown| ==> !Terminal(shown[i]);
      assert i >= |shown| ==> log[i] == events[i - |shown|];
    }
    forall i | |shown| <= i < |log|
      ensures if Contains(reason, CANCELLED_WORD) then SaysCancelled(log[i]) else SaysFailed(log[i])
    {
      var k := i - |shown|;
      assert k < |calls| ==> Closes(events[k], calls[k], reason);
    }
    if calls != [] {
      assert SaysCancelled(log[|shown|]) || SaysFailed(log[|shown|]);
    }
  }

  lemma UserCancelledSaysSo()
    ensures Contains(USER_CANCELLED, CANCELLED_WORD)
  {
    var w := CANCELLED_WORD;
    assert USER_CANCELLED[|"User "|..|"User " + w|] == w;
    assert StandsAt(USER_CANCELLED, w, |"User "|);
  }

  /** A cancelled run reports a cancellation, and nothing else, exactly if a call was shown. */
  lemma CancelledRunReportsIt(items: seq<Item>, codec: Codec, strip: bool, recoverOnCancel: bool,
                              outcome: Result<StreamResult, StreamError>, ctx: StreamContext, steps: seq<Progress>)
    requires Ran(items, codec, strip, recoverOnCancel, outcome, ctx, steps)
    requires outcome.Err? && outcome.error.error.CancelledError?
    ensures ReportsCancelled(ctx.log) <==> AnyCallShown(Ending(codec, strip, items, steps, StopOf(items, 0)).log)
    ensures !ReportsFailed(ctx.log)
  {
    ErrRun(items, codec, strip, recoverOnCancel, outcome, ctx, steps);
    AnyRecordedIffShown(items, codec, strip, recoverOnCancel, outcome, ctx, steps);
    UserCancelledSaysSo();
    var stop := StopOf(items, 0);
    ShutdownReports(Ending(codec, strip, items, steps, stop).log, ctx.toolCalls,
                    Judge(LastItem(items, stop), recoverOnCancel, ctx.effective).reason);
  }

  /** A run that times out without output has recorded no call, so it reports nothing. */
  lemma TimedOutRunReportsNothing(items: seq<Item>, codec: Codec, strip: bool, recoverOnCancel: bool,
                                  outcome: Result<StreamResult, StreamError>, ctx: StreamContext, steps: seq<Progress>)
    requires Ran(items, codec, strip, recoverOnCancel, outcome, ctx, steps)
    requires outcome.Err? && LastItem(items, StopOf(items, 0)).TimedOut?
    ensures ctx.toolCalls == [] && NoTerminal(ctx.log)
  {
    ErrRun(items, codec, strip, recoverOnCancel, outcome, ctx, steps);
    AnyRecordedIffShown(items, codec, strip, recoverOnCancel, outcome, ctx, steps);
    assert ctx.log == Ending(codec, strip, items, steps, StopOf(items, 0)).log;
  }

  /** The text shown for an upstream failure. */
  function FailureText(last: Item): string {
    if last.Failed? then FAILED_PREFIX + last.message else ""
  }

  /**
   * A run whose error is not a cancellation reports anything at all only on a fatal
   * parse error after a call was shown; and what it reports is a cancellation if and
   * only if the text of that error happens to mention one.
   */
  lemma FailureReportedAsCancelledIff(items: seq<Item>, codec: Codec, strip: bool, recoverOnCancel: bool,
                                      outcome: Result<StreamResult, StreamError>, ctx: StreamContext,
                                      steps: seq<Progress>)
    requires Ran(items, codec, strip, recoverOnCancel, outcome, ctx, steps)
    requires outcome.Err? && outcome.error.error.AiClient?
    ensures var last := LastItem(items, StopOf(items, 0));
      var shown := Ending(codec, strip, items, steps, StopOf(items, 0)).log;
      && (ReportsCancelled(ctx.log) <==>
           last.Failed? && Contains(FailureText(last), FATAL_WORDS) && AnyCallShown(shown)
           && Contains(FailureText(last), CANCELLED_WORD))
      && (ReportsFailed(ctx.log) <==>
           last.Failed? && Contains(FailureText(last), FATAL_WORDS) && AnyCallShown(shown)
           && !Contains(FailureText(last), CANCELLED_WORD))
  {
    ErrRun(items, codec, strip, recoverOnCancel, outcome, ctx, steps);
    AnyRecordedIffShown(items, codec, strip, recoverOnCancel, outcome, ctx, steps);
    var stop := StopOf(items, 0);
    ShutdownReports(Ending(codec, strip, items, steps, stop).log, ctx.toolCalls,
                    Judge(LastItem(items, stop), recoverOnCancel, ctx.effective).reason);
  }

  // ---------- a failure reported as a cancellation ----------

  const NAMED_CALL := Delta(Unindexed, Some("call_1"), Some("Bash"), None, false)
  const CALLING := Response(None, None, None, Some(NAMED_CALL), None, None, None)
  const UPSTREAM := "SSE Parsing Error: " + "cancelled"

  /** A named call arrives, then the stream fails on data that contains the word. */
  const MISREPORTED: seq<Item> := [Received(CALLING, Checks(false, false, false)), Failed(UPSTREAM)]

  lemma UpstreamIsFatalAndMentionsIt()
    ensures Contains(FAILED_PREFIX + UPSTREAM, FATAL_WORDS) && Contains(FAILED_PREFIX + UPSTREAM, CANCELLED_WORD)
  {
    var shown := FAILED_PREFIX + UPSTREAM;
    var i, j := |FAILED_PREFIX|, |FAILED_PREFIX + "SSE Parsing Error: "|;
    assert shown[i..i + |FATAL_WORDS|] == FATAL_WORDS;
    assert StandsAt(shown, FATAL_WORDS, i);
    assert shown[j..j + |CANCELLED_WORD|] == CANCELLED_WORD;
    assert StandsAt(shown, CANCELLED_WORD, j);
  }

  lemma MisreportedStops()
    ensures StopOf(MISREPORTED, 0) == 1
  {
    assert PassesThrough(MISREPORTED[0]) && !PassesThrough(MISREPORTED[1]);
    StopsThere(MISREPORTED, 0, 1);
  }

  lemma CallingShowsACall(codec: Codec, strip: bool, p: Progress)
    requires Passed(codec, strip, START, CALLING, p)
    ensures AnyCallShown(p.log)
  {
    assert PhaseOf([]) == Quiet;
    var q := Called(codec, strip, START, Some(NAMED_CALL));
    assert p == q && q.log[0].EarlyDetected?;
  }

  /** Every run over those items fails with a client error and reports its call and its turn as cancelled. */
  lemma FailureCanBeReportedAsCancelled(codec: Codec, strip: bool, recoverOnCancel: bool,
                                        outcome: Result<StreamResult, StreamError>, ctx: StreamContext,
                                        steps: seq<Progress>)
    requires Ran(MISREPORTED, codec, strip, recoverOnCancel, outcome, ctx, steps)
    ensures outcome.Err? && outcome.error.error == AiClient(FAILED_PREFIX + UPSTREAM)
    ensures ctx.toolCalls != [] && ReportsCancelled(ctx.log) && !ReportsFailed(ctx.log)
  {
    UpstreamIsFatalAndMentionsIt();
    MisreportedStops();
    assert PassedAt(codec, strip, MISREPORTED, steps, 0);
    CallingShowsACall(codec, strip, steps[1]);
    AnyRecordedIffShown(MISREPORTED, codec, strip, recoverOnCancel, outcome, ctx, steps);
    FailureReportedAsCancelledIff(MISREPORTED, codec, strip, recoverOnCancel, outcome, ctx, steps);
  }

  // ---------- partial results ----------

  /**
   * A run hands on a partial result if and only if it was interrupted after output:
   * by a cancellation when asked to, by a failure that is no parse error, or by a timeout.
   */
  lemma PartialResultIff(items: seq<Item>, codec: Codec, strip: bool, recoverOnCancel: bool,
                         outcome: Result<StreamResult, StreamError>, ctx: StreamContext, steps: seq<Progress>)
    requires Ran(items, codec, strip, recoverOnCancel, outcome, ctx, steps)
    ensures outcome.Ok? && outcome.value.recovery.Some? <==>
      && AnyEffective(Ending(codec, strip, items, steps, StopOf(items, 0)).log)
      && match LastItem(items, StopOf(items, 0))
         case Cancelled => recoverOnCancel
         case Failed(message) => !Contains(FAILED_PREFIX + message, FATAL_WORDS)
         case TimedOut(_) => true
         case _ => false
  {
    var p := Ending(codec, strip, items, steps, StopOf(items, 0));
    MarkerIsNoOutput(p.log);
  }

  lemma MarkerIsNoOutput(log: Log)
    ensures AnyEffective(ClosedLog(log)) <==> AnyEffective(log)
  {
    Append(log, ThinkingChunk("", true));
  }
}
