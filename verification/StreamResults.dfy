/** What the result of a run carries of the items it received. */
module StreamResults {
  import opened Wrappers
  import opened ToolCalls
  import opened StreamLog
  import opened StreamProcessor
  import opened Sorting
  import StreamReports
  import Json

  // ---------- which response decides ----------

  /** Item `k` is a response that has it. */
  predicate HasAt(items: seq<Item>, k: nat, has: Response -> bool) {
    k < |items| && items[k].Received? && has(items[k].response)
  }

  /** None of the items from `m` to `n` has it. */
  ghost predicate NoneHas(items: seq<Item>, m: nat, n: nat, has: Response -> bool) {
    forall k: nat {:trigger HasAt(items, k, has)} :: m <= k < n ==> !HasAt(items, k, has)
  }

  /** Item `k` is the last of the first `n` that has it. */
  ghost predicate LastHas(items: seq<Item>, n: nat, k: nat, has: Response -> bool) {
    k < n && HasAt(items, k, has) && NoneHas(items, k + 1, n, has)
  }

  predicate HasUsage(r: Response) {
    r.usage.Some?
  }

  predicate HasSignature(r: Response) {
    r.signature.Some? && r.signature.value != ""
  }

  predicate HasReasoning(r: Response) {
    r.reasoning.Some? || HasSignature(r)
  }

  predicate HasMetadata(r: Response) {
    r.metadata.Some?
  }

  /** The texts of the first `n` items, one behind the other. */
  function AllText(items: seq<Item>, n: nat): string
    requires n <= |items|
  {
    if n == 0 then ""
    else AllText(items, n - 1) + if items[n - 1].Received? then OrEmpty(items[n - 1].response.text) else ""
  }

  function AllThinking(items: seq<Item>, n: nat): string
    requires n <= |items|
  {
    if n == 0 then ""
    else AllThinking(items, n - 1) + if items[n - 1].Received? then OrEmpty(items[n - 1].response.reasoning) else ""
  }

  /** `value` is what the last of the first `n` items that has one brings, if any has. */
  ghost predicate IsLatest<T(!new)>(items: seq<Item>, n: nat, has: Response -> bool, of: Response -> Option<T>,
                                    value: Option<T>)
  {
    && (NoneHas(items, 0, n, has) ==> value == None)
    && forall k: nat {:trigger LastHas(items, n, k, has)} :: LastHas(items, n, k, has) ==>
         value == of(items[k].response)
  }

  lemma LatestStep<T(!new)>(items: seq<Item>, n: nat, has: Response -> bool, of: Response -> Option<T>,
                            before: Option<T>, after: Option<T>)
    requires IsLatest(items, n, has, of, before)
    requires after == if HasAt(items, n, has) then of(items[n].response) else before
    ensures IsLatest(items, n + 1, has, of, after)
  {
    forall k: nat | LastHas(items, n + 1, k, has) ensures after == of(items[k].response) {
      if HasAt(items, n, has) {
        assert k < n ==> !HasAt(items, n, has);
      } else {
        assert LastHas(items, n, k, has);
      }
    }
    if NoneHas(items, 0, n + 1, has) {
      assert !HasAt(items, n, has);
    }
  }

  lemma {:induction false} LatestComeIn(items: seq<Item>, n: nat)
    requires n <= |items|
    ensures IsLatest(items, n, HasUsage, (r: Response) => r.usage, Incoming(items, n).usage)
    ensures IsLatest(items, n, HasSignature, (r: Response) => r.signature, Incoming(items, n).signature)
  {
    if n > 0 {
      LatestComeIn(items, n - 1);
      var before, after := Incoming(items, n - 1), Incoming(items, n);
      LatestStep(items, n - 1, HasUsage, (r: Response) => r.usage, before.usage, after.usage);
      LatestStep(items, n - 1, HasSignature, (r: Response) => r.signature, before.signature, after.signature);
    }
  }

  lemma NoneHasStep(items: seq<Item>, m: nat, n: nat, has: Response -> bool)
    requires m <= n
    ensures NoneHas(items, m, n + 1, has) <==> NoneHas(items, m, n, has) && !HasAt(items, n, has)
  {
  }

  lemma {:induction false} ProseComesIn(items: seq<Item>, n: nat)
    requires n <= |items|
    ensures Incoming(items, n).text == AllText(items, n) && Incoming(items, n).thinking == AllThinking(items, n)
    ensures Incoming(items, n).reasoningPresent <==> !NoneHas(items, 0, n, HasReasoning)
  {
    if n > 0 {
      ProseComesIn(items, n - 1);
      NoneHasStep(items, 0, n - 1, HasReasoning);
      var before := Incoming(items, n - 1);
      assert before.text + "" == before.text && before.thinking + "" == before.thinking;
    }
  }

  // ---------- the metadata ----------

  /** Some item among the first `n` has the leaf at that path, and every later one is silent about it. */
  ghost predicate LeafFrom(items: seq<Item>, n: nat, path: seq<string>, leaf: Json.Value) {
    exists k: nat {:trigger HasAt(items, k, HasMetadata)} :: k < n && HasAt(items, k, HasMetadata)
      && Json.At(items[k].response.metadata.value, path) == Some(leaf) && SilentFrom(items, k + 1, n, path)
  }

  ghost predicate SilentFrom(items: seq<Item>, m: nat, n: nat, path: seq<string>) {
    forall j: nat {:trigger HasAt(items, j, HasMetadata)} :: m <= j < n && HasAt(items, j, HasMetadata) ==>
      Json.Silent(items[j].response.metadata.value, path)
  }

  lemma LeafFromStep(items: seq<Item>, n: nat, path: seq<string>, leaf: Json.Value)
    ensures LeafFrom(items, n + 1, path, leaf) <==>
      if HasAt(items, n, HasMetadata) then
        var more := items[n].response.metadata.value;
        Json.At(more, path) == Some(leaf) || (LeafFrom(items, n, path, leaf) && Json.Silent(more, path))
      else LeafFrom(items, n, path, leaf)
  {
    if LeafFrom(items, n, path, leaf) {
      var k: nat :| k < n && HasAt(items, k, HasMetadata)
        && Json.At(items[k].response.metadata.value, path) == Some(leaf) && SilentFrom(items, k + 1, n, path);
      if HasAt(items, n, HasMetadata) ==> Json.Silent(items[n].response.metadata.value, path) {
        assert SilentFrom(items, k + 1, n + 1, path);
      }
    }
    if LeafFrom(items, n + 1, path, leaf) {
      var k: nat :| k < n + 1 && HasAt(items, k, HasMetadata)
        && Json.At(items[k].response.metadata.value, path) == Some(leaf) && SilentFrom(items, k + 1, n + 1, path);
      assert k < n ==> SilentFrom(items, k + 1, n, path);
    } else if HasAt(items, n, HasMetadata) {
      assert SilentFrom(items, n + 1, n + 1, path);
    }
  }

  /** There is metadata exactly if some response had any. */
  lemma {:induction false} MetadataComesIn(items: seq<Item>, n: nat)
    requires n <= |items|
    ensures Incoming(items, n).metadata.Some? <==> !NoneHas(items, 0, n, HasMetadata)
  {
    if n > 0 {
      MetadataComesIn(items, n - 1);
      NoneHasStep(items, 0, n - 1, HasMetadata);
    }
  }

  /** The last metadata received is held in full. */
  lemma {:induction false} LastMetadataIsHeld(items: seq<Item>, n: nat, k: nat)
    requires n <= |items| && LastHas(items, n, k, HasMetadata)
    ensures var metadata := Incoming(items, n).metadata;
            metadata.Some? && Json.Merge(metadata.value, items[k].response.metadata.value) == metadata.value
  {
    if k == n - 1 {
      var before, more := Incoming(items, k).metadata, items[k].response.metadata.value;
      if before.Some? {
        Json.MergeAbsorbs(before.value, more);
      } else {
        Json.MergeIdempotent(more);
      }
    } else {
      assert !HasAt(items, n - 1, HasMetadata);
      LastMetadataIsHeld(items, n - 1, k);
    }
  }

  lemma {:induction false} MetadataLeafIff(items: seq<Item>, n: nat, path: seq<string>, leaf: Json.Value)
    requires n <= |items| && !leaf.Object?
    ensures var metadata := Incoming(items, n).metadata;
            metadata.Some? && Json.At(metadata.value, path) == Some(leaf) <==> LeafFrom(items, n, path, leaf)
  {
    if n > 0 {
      MetadataLeafIff(items, n - 1, path, leaf);
      LeafFromStep(items, n - 1, path, leaf);
      if HasAt(items, n - 1, HasMetadata) {
        var before, more := Incoming(items, n - 1).metadata, items[n - 1].response.metadata.value;
        if before.Some? {
          Json.MergeLeafIff(before.value, more, path, leaf);
        }
      }
    }
  }

  // ---------- every successful run ----------

  /**
   * A successful run hands on all texts and thoughts in order, the last usage, the last signature
   * that is not empty, and whether there was any reasoning.
   */
  lemma ResultCarries(items: seq<Item>, codec: Codec, strip: bool, recoverOnCancel: bool,
                      outcome: Result<StreamResult, StreamError>, ctx: StreamContext, steps: seq<Progress>)
    requires Ran(items, codec, strip, recoverOnCancel, outcome, ctx, steps) && outcome.Ok?
    ensures var r, n := outcome.value, StopOf(items, 0);
      && r.fullText == AllText(items, n) && r.fullThinking == AllThinking(items, n)
      && (r.reasoningPresent <==> !NoneHas(items, 0, n, HasReasoning))
      && IsLatest(items, n, HasUsage, (r: Response) => r.usage, r.usage)
      && IsLatest(items, n, HasSignature, (r: Response) => r.signature, r.signature)
  {
    ProseComesIn(items, StopOf(items, 0));
    LatestComeIn(items, StopOf(items, 0));
  }

  /**
   * A successful run hands on metadata exactly if it received any. The last metadata received
   * is part of it, and a leaf is part of it exactly if some metadata has it and all that came
   * later are silent about its path.
   */
  lemma ResultMetadata(items: seq<Item>, codec: Codec, strip: bool, recoverOnCancel: bool,
                       outcome: Result<StreamResult, StreamError>, ctx: StreamContext, steps: seq<Progress>)
    requires Ran(items, codec, strip, recoverOnCancel, outcome, ctx, steps) && outcome.Ok?
    ensures var metadata, n := outcome.value.metadata, StopOf(items, 0);
      && (metadata.Some? <==> !NoneHas(items, 0, n, HasMetadata))
      && (forall k: nat {:trigger LastHas(items, n, k, HasMetadata)} :: LastHas(items, n, k, HasMetadata) ==>
           metadata.Some? && Json.Merge(metadata.value, items[k].response.metadata.value) == metadata.value)
      && (forall path, leaf: Json.Value {:trigger LeafFrom(items, n, path, leaf)} :: !leaf.Object? ==>
           (metadata.Some? && Json.At(metadata.value, path) == Some(leaf) <==> LeafFrom(items, n, path, leaf)))
  {
    var n := StopOf(items, 0);
    MetadataComesIn(items, n);
    forall k: nat | LastHas(items, n, k, HasMetadata)
      ensures var metadata := Incoming(items, n).metadata;
              metadata.Some? && Json.Merge(metadata.value, items[k].response.metadata.value) == metadata.value
    {
      LastMetadataIsHeld(items, n, k);
    }
    forall path, leaf: Json.Value | !leaf.Object?
      ensures var metadata := Incoming(items, n).metadata;
              metadata.Some? && Json.At(metadata.value, path) == Some(leaf) <==> LeafFrom(items, n, path, leaf)
    {
      MetadataLeafIff(items, n, path, leaf);
    }
  }

  // ---------- how a run ends ----------

  /** The result is kept, with the reason why it may be incomplete. */
  predicate Keeps(outcome: Result<StreamResult, StreamError>, recovery: Option<string>) {
    outcome.Ok? && outcome.value.recovery == recovery
  }

  predicate Fails(outcome: Result<StreamResult, StreamError>, error: Error) {
    outcome.Err? && outcome.error.error == error
  }

  /** What the item a run ends at makes of it, given whether there was output. */
  predicate EndsAs(last: Item, recoverOnCancel: bool, output: bool, outcome: Result<StreamResult, StreamError>) {
    match last
    case End => Keeps(outcome, None)
    case Cancelled =>
      if recoverOnCancel && output then Keeps(outcome, Some("Stream processing cancelled after partial output"))
      else Fails(outcome, CancelledError("Stream processing cancelled"))
    case Failed(message) =>
      var text := "Stream processing error: " + message;
      if output && !Contains(text, "SSE Parsing Error") then Keeps(outcome, Some(text))
      else Fails(outcome, AiClient(text))
    case TimedOut(seconds) =>
      var text := "Stream processor watchdog timeout (no data received for " + seconds + " seconds)";
      if output then Keeps(outcome, Some(text)) else Fails(outcome, AiClient(text))
    case Received(_, _) => Fails(outcome, CancelledError("Stream processing cancelled"))
  }

  /** The reason that closing events give. */
  function ReasonOf(last: Item): string {
    match last
    case Failed(message) => "Stream processing error: " + message
    case TimedOut(seconds) => "Stream processor watchdog timeout (no data received for " + seconds + " seconds)"
    case _ => "User " + "cancelled" + " stream processing"
  }

  /** Which runs fail and how, which are kept and why: the last item and what was shown decide. */
  lemma RunEndsAs(items: seq<Item>, codec: Codec, strip: bool, recoverOnCancel: bool,
                  outcome: Result<StreamResult, StreamError>, ctx: StreamContext, steps: seq<Progress>)
    requires Ran(items, codec, strip, recoverOnCancel, outcome, ctx, steps)
    ensures var stop := StopOf(items, 0);
            EndsAs(LastItem(items, stop), recoverOnCancel,
                   AnyEffective(Ending(codec, strip, items, steps, stop).log), outcome)
    ensures var stop := StopOf(items, 0);
            var shown := Ending(codec, strip, items, steps, stop).log;
            outcome.Err? ==> ctx.log == shown + Shutdown(ctx.toolCalls, ReasonOf(LastItem(items, stop)))
  {
    var stop := StopOf(items, 0);
    var shown := Ending(codec, strip, items, steps, stop).log;
    StreamReports.MarkerIsNoOutput(shown);
    assert ctx.effective <==> AnyEffective(shown);
    ConcludedEnds(LastItem(items, stop), recoverOnCancel, ctx, outcome, Ending(codec, strip, items, steps, stop));
    if outcome.Err? {
      AbortedReports(LastItem(items, stop), recoverOnCancel, ctx, outcome, Ending(codec, strip, items, steps, stop));
    }
  }

  lemma ConcludedEnds(last: Item, recoverOnCancel: bool, ctx: StreamContext,
                      outcome: Result<StreamResult, StreamError>, p: Progress)
    requires Concluded(ctx, outcome, p, Judge(last, recoverOnCancel, ctx.effective))
    ensures EndsAs(last, recoverOnCancel, ctx.effective, outcome)
  {
  }

  lemma AbortedReports(last: Item, recoverOnCancel: bool, ctx: StreamContext,
                       outcome: Result<StreamResult, StreamError>, p: Progress)
    requires Concluded(ctx, outcome, p, Judge(last, recoverOnCancel, ctx.effective)) && outcome.Err?
    ensures ctx.log == p.log + Shutdown(ctx.toolCalls, ReasonOf(last))
  {
  }

  // ---------- what was shown, in order ----------

  predicate NoMarker(e: Event) {
    !Marker(e)
  }

  /** The log without the markers that close thinking. */
  function Unmarked(log: Log): Log {
    Filter(log, NoMarker)
  }

  /** The thinking of a response, if there is any. */
  function ThinkingShown(r: Response): Log {
    if OrEmpty(r.reasoning) == "" then [] else [ThinkingChunk(r.reasoning.value, false)]
  }

  function TextShown(r: Response): Log {
    if OrEmpty(r.text) == "" then [] else [TextChunk(r.text.value)]
  }

  /** What a delta makes visible: that there is a call, then its parameters. */
  function OutcomeShown(outcome: ToolCalls.Outcome): Log {
    match (outcome.earlyDetected, outcome.paramsPartial)
    case (None, None) => []
    case (Some(e), None) => [EarlyDetected(e.id, e.name)]
    case (None, Some(p)) => [ParamsPartial(p.id, p.name, p.params)]
    case (Some(e), Some(p)) => [EarlyDetected(e.id, e.name), ParamsPartial(p.id, p.name, p.params)]
  }

  /** What a response makes visible of a call, given what is pending. */
  function CallShownBy(codec: Codec, strip: bool, pending: map<Key, Pending>, r: Response): Log {
    if r.toolCall.None? then [] else OutcomeShown(DeltaOn(codec, strip, pending, r.toolCall.value).1)
  }

  /** The thinking, the text and the call of each of the first `n` items, in this order. */
  function AllShown(codec: Codec, strip: bool, items: seq<Item>, steps: seq<Progress>, n: nat): Log
    requires n <= |items| && n <= |steps|
  {
    if n == 0 then []
    else
      AllShown(codec, strip, items, steps, n - 1) +
        if items[n - 1].Received? then
          ThinkingShown(items[n - 1].response) + TextShown(items[n - 1].response)
            + CallShownBy(codec, strip, steps[n - 1].pending, items[n - 1].response)
        else []
  }

  lemma UnmarkedJoin(log: Log, more: Log)
    ensures Unmarked(log + more) == Unmarked(log) + Unmarked(more)
  {
    FilterConcat(log, more, NoMarker);
  }

  lemma {:induction false} UnmarkedStays(log: Log, n: nat)
    requires n <= |log| && forall i :: 0 <= i < |log| ==> !Marker(log[i])
    ensures FilterTo(log, NoMarker, n) == log[..n]
  {
    if n > 0 {
      UnmarkedStays(log, n - 1);
    }
  }

  /** Closing thinking in between adds nothing but a marker. */
  lemma UnmarkedAdds(log: Log, more: Log)
    requires forall i :: 0 <= i < |more| ==> !Marker(more[i])
    ensures Unmarked(log + more) == Unmarked(log) + more
    ensures Unmarked(ClosedLog(log) + more) == Unmarked(log) + more
  {
    UnmarkedStays(more, |more|);
    assert more[..|more|] == more;
    UnmarkedJoin(log, more);
    UnmarkedJoin(ClosedLog(log), more);
    UnmarkedJoin(log, [ThinkingChunk("", true)]);
    FilterOne(ThinkingChunk("", true), NoMarker);
  }

  lemma ThoughtShows(p: Progress, r: Response)
    ensures Unmarked(Thought(p, r.reasoning).log) == Unmarked(p.log) + ThinkingShown(r)
    ensures Thought(p, r.reasoning).pending == p.pending
  {
    UnmarkedAdds(p.log, ThinkingShown(r));
  }

  lemma WroteShows(p: Progress, r: Response)
    ensures Unmarked(Wrote(p, r.text).log) == Unmarked(p.log) + TextShown(r)
    ensures Wrote(p, r.text).pending == p.pending
  {
    UnmarkedAdds(p.log, TextShown(r));
  }

  lemma CalledShows(codec: Codec, strip: bool, p: Progress, r: Response)
    ensures Unmarked(Called(codec, strip, p, r.toolCall).log)
         == Unmarked(p.log) + CallShownBy(codec, strip, p.pending, r)
  {
    if r.toolCall.Some? {
      ShownAsEvents(DeltaOn(codec, strip, p.pending, r.toolCall.value).1);
    }
    UnmarkedAdds(p.log, CallShownBy(codec, strip, p.pending, r));
  }

  lemma ShownAsEvents(outcome: ToolCalls.Outcome)
    ensures OutcomeShown(outcome) == DeltaEvents(outcome)
    ensures forall i :: 0 <= i < |OutcomeShown(outcome)| ==> !Marker(OutcomeShown(outcome)[i])
  {
    match (outcome.earlyDetected, outcome.paramsPartial)
    case (None, None) => assert DeltaEvents(outcome) == [] + [];
    case (Some(e), None) => assert DeltaEvents(outcome) == [EarlyDetected(e.id, e.name)] + [];
    case (None, Some(p)) => assert DeltaEvents(outcome) == [] + [ParamsPartial(p.id, p.name, p.params)];
    case (Some(e), Some(p)) =>
      assert DeltaEvents(outcome) == [EarlyDetected(e.id, e.name)] + [ParamsPartial(p.id, p.name, p.params)];
  }

  lemma StagesShow(codec: Codec, strip: bool, p: Progress, r: Response)
    ensures Unmarked(Called(codec, strip, Wrote(Thought(p, r.reasoning), r.text), r.toolCall).log)
         == Unmarked(p.log) + (ThinkingShown(r) + TextShown(r) + CallShownBy(codec, strip, p.pending, r))
  {
    ThoughtShows(p, r);
    WroteShows(Thought(p, r.reasoning), r);
    CalledShows(codec, strip, Wrote(Thought(p, r.reasoning), r.text), r);
    Regroup(Unmarked(p.log), ThinkingShown(r), TextShown(r), CallShownBy(codec, strip, p.pending, r));
  }

  lemma Regroup(log: Log, a: Log, b: Log, c: Log)
    ensures ((log + a) + b) + c == log + (a + b + c)
  {
  }

  lemma {:induction false} StepsShow(codec: Codec, strip: bool, items: seq<Item>, steps: seq<Progress>, n: nat, i: nat)
    requires Progresses(codec, strip, items, steps, n) && i <= n
    ensures Unmarked(steps[i].log) == AllShown(codec, strip, items, steps, i)
  {
    if i == 0 {
      assert steps[0].log == [] && Unmarked([]) == [];
    } else {
      StepsShow(codec, strip, items, steps, n, i - 1);
      assert PassedAt(codec, strip, items, steps, i - 1);
      PassedShows(codec, strip, steps[i - 1], items[i - 1].response, steps[i]);
    }
  }

  lemma PassedShows(codec: Codec, strip: bool, p: Progress, r: Response, q: Progress)
    requires Passed(codec, strip, p, r, q)
    ensures Unmarked(q.log)
         == Unmarked(p.log) + (ThinkingShown(r) + TextShown(r) + CallShownBy(codec, strip, p.pending, r))
  {
    StagesShow(codec, strip, p, r);
  }

  /** How much of the response a run was stopped in has been shown: all before the check that stopped it. */
  function ShownUpToStop(codec: Codec, strip: bool, pending: map<Key, Pending>, last: Item): Log {
    if !last.Received? then []
    else if OrEmpty(last.response.reasoning) != "" && last.checks.afterThinking then ThinkingShown(last.response)
    else if OrEmpty(last.response.text) != "" && last.checks.afterText then
      ThinkingShown(last.response) + TextShown(last.response)
    else ThinkingShown(last.response) + TextShown(last.response) + CallShownBy(codec, strip, pending, last.response)
  }

  lemma CutShows(codec: Codec, strip: bool, p: Progress, r: Response, checks: Checks)
    ensures Unmarked(CutAt(codec, strip, p, r, checks).log)
         == Unmarked(p.log) + ShownUpToStop(codec, strip, p.pending, Received(r, checks))
  {
    ThoughtShows(p, r);
    WroteShows(Thought(p, r.reasoning), r);
    StagesShow(codec, strip, p, r);
  }

  lemma EndingShows(codec: Codec, strip: bool, items: seq<Item>, steps: seq<Progress>, stop: nat)
    requires Progresses(codec, strip, items, steps, stop)
    ensures Unmarked(Ending(codec, strip, items, steps, stop).log)
         == AllShown(codec, strip, items, steps, stop)
              + ShownUpToStop(codec, strip, steps[stop].pending, LastItem(items, stop))
  {
    StepsShow(codec, strip, items, steps, stop, stop);
    if stop < |items| && items[stop].Received? {
      CutShows(codec, strip, steps[stop], items[stop].response, items[stop].checks);
    }
  }

  /**
   * Apart from markers, every run shows exactly the thinking, the text and the calls of its
   * responses, one response after the other, up to the check that stopped it; and then, if it
   * failed, the closing events.
   */
  lemma RunShows(items: seq<Item>, codec: Codec, strip: bool, recoverOnCancel: bool,
                 outcome: Result<StreamResult, StreamError>, ctx: StreamContext, steps: seq<Progress>)
    requires Ran(items, codec, strip, recoverOnCancel, outcome, ctx, steps)
    ensures var stop := StopOf(items, 0);
      var shown := AllShown(codec, strip, items, steps, stop)
                     + ShownUpToStop(codec, strip, steps[stop].pending, LastItem(items, stop));
      && (outcome.Ok? ==> Unmarked(ctx.log) == shown)
      && (outcome.Err? ==> exists closing :: Unmarked(ctx.log) == shown + closing
                                && forall i :: 0 <= i < |closing| ==> Terminal(closing[i]))
  {
    var stop := StopOf(items, 0);
    var p := Ending(codec, strip, items, steps, stop);
    EndingShows(codec, strip, items, steps, stop);
    var verdict := Judge(LastItem(items, stop), recoverOnCancel, ctx.effective);
    ClosingShows(p.log);
    if verdict.Aborted? {
      ShutdownShows(p.log, ctx.toolCalls, verdict.reason);
    }
  }

  lemma ClosingShows(log: Log)
    ensures Unmarked(ClosedLog(log)) == Unmarked(log)
  {
    UnmarkedAdds(log, []);
    assert ClosedLog(log) + [] == ClosedLog(log);
    assert Unmarked(log) + [] == Unmarked(log);
  }

  lemma ShutdownShows(log: Log, calls: seq<ToolCall>, reason: string)
    ensures Unmarked(log + Shutdown(calls, reason)) == Unmarked(log) + Shutdown(calls, reason)
    ensures forall i :: 0 <= i < |Shutdown(calls, reason)| ==> Terminal(Shutdown(calls, reason)[i])
  {
    StreamReports.ShutdownReportsEachCall(calls, reason);
    UnmarkedAdds(log, Shutdown(calls, reason));
  }
}
