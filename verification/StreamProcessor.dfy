/** Turning a stream of responses into events and one result. */
module StreamProcessor {
  import opened Wrappers
  import opened ToolCalls
  import opened StreamLog
  import Json

  datatype Usage = Usage(promptTokens: nat, candidateTokens: nat, totalTokens: nat)

  datatype Response = Response(text: Option<string>, reasoning: Option<string>, signature: Option<string>,
                               toolCall: Option<Delta>, usage: Option<Usage>, finishReason: Option<string>,
                               metadata: Option<Json.Value>)

  /** Whether the cancellation token is seen set at each of the three checks of one response. */
  datatype Checks = Checks(afterThinking: bool, afterText: bool, afterTool: bool)

  /** What one turn of the receive loop yields. */
  datatype Item =
    | Cancelled
    | End
    | Received(response: Response, checks: Checks)
    | Failed(message: string)
    | TimedOut(seconds: string)

  datatype Error = AiClient(message: string) | CancelledError(message: string)

  datatype StreamResult = StreamResult(fullThinking: string, reasoningPresent: bool, signature: Option<string>,
                                       fullText: string, toolCalls: seq<ToolCall>, usage: Option<Usage>,
                                       metadata: Option<Json.Value>, hasEffectiveOutput: bool,
                                       recovery: Option<string>)

  datatype StreamError = StreamError(error: Error, hasEffectiveOutput: bool)

  /** Metadata once more of it has come in. */
  function MoreMetadata(metadata: Option<Json.Value>, more: Option<Json.Value>): Option<Json.Value> {
    if more.None? then metadata
    else if metadata.None? then more
    else Some(Json.Merge(metadata.value, more.value))
  }

  // ---------- what a response does to calls and log ----------

  /** The calls still pending, the records handed over so far, and the events sent so far. */
  datatype Progress = Progress(pending: map<Key, Pending>, finalized: seq<Finalized>, log: Log)

  const START := Progress(map[], [], [])

  /** The log with thinking closed. */
  function ClosedLog(log: Log): Log {
    if PhaseOf(log) == Open then log + [ThinkingChunk("", true)] else log
  }

  function Thought(p: Progress, reasoning: Option<string>): Progress {
    if OrEmpty(reasoning) == "" then p else p.(log := p.log + [ThinkingChunk(reasoning.value, false)])
  }

  function Wrote(p: Progress, text: Option<string>): Progress {
    if OrEmpty(text) == "" then p else p.(log := ClosedLog(p.log) + [TextChunk(text.value)])
  }

  /** What a delta makes visible: the call as soon as it is known, then its parameters. */
  function DeltaEvents(outcome: ToolCalls.Outcome): Log {
    (match outcome.earlyDetected case Some(e) => [EarlyDetected(e.id, e.name)] case None => [])
      + (match outcome.paramsPartial case Some(p) => [ParamsPartial(p.id, p.name, p.params)] case None => [])
  }

  function Called(codec: Codec, strip: bool, p: Progress, toolCall: Option<Delta>): Progress {
    if toolCall.None? then p
    else
      var (pending, outcome) := DeltaOn(codec, strip, p.pending, toolCall.value);
      Progress(pending, p.finalized + Listed(outcome.finalizedPrevious), ClosedLog(p.log) + DeltaEvents(outcome))
  }

  /** All that was pending has been handed over, in key order. */
  ghost predicate FinishedInto(codec: Codec, strip: bool, p: Progress, finalized: seq<Finalized>) {
    exists keys {:trigger KeysOf(p.pending, keys)} ::
      KeysOf(p.pending, keys) && finalized == p.finalized + FinishAll(codec, strip, p.pending, keys, |keys|)
  }

  /** A finish reason finishes what is pending. */
  ghost predicate Bounded(codec: Codec, strip: bool, p: Progress, finishReason: Option<string>, q: Progress) {
    if finishReason.None? then q == p
    else q.pending == map[] && q.log == p.log && FinishedInto(codec, strip, p, q.finalized)
  }

  /** Thinking, then text, then the tool call, then the finish boundary of a response. */
  ghost predicate Passed(codec: Codec, strip: bool, p: Progress, r: Response, q: Progress) {
    Bounded(codec, strip, Called(codec, strip, Wrote(Thought(p, r.reasoning), r.text), r.toolCall), r.finishReason, q)
  }

  /** How far a response got when the check that stops the run was made. */
  function CutAt(codec: Codec, strip: bool, p: Progress, r: Response, checks: Checks): Progress {
    if ThinkingStops(r, checks) then Thought(p, r.reasoning)
    else if TextStops(r, checks) then Wrote(Thought(p, r.reasoning), r.text)
    else Called(codec, strip, Wrote(Thought(p, r.reasoning), r.text), r.toolCall)
  }

  lemma NoKeys(pending: map<Key, Pending>, keys: seq<Key>)
    requires KeysOf(pending, keys)
    ensures keys != [] ==> pending != map[]
  {
    if keys != [] {
      assert keys[0] in pending;
    }
  }

  /** Finishing a second time adds nothing. */
  lemma FinishedTwice(codec: Codec, strip: bool, p: Progress, q: Progress, finalized: seq<Finalized>)
    requires FinishedInto(codec, strip, p, q.finalized) && q.pending == map[]
    requires FinishedInto(codec, strip, q, finalized)
    ensures FinishedInto(codec, strip, p, finalized)
  {
    var keys :| KeysOf(q.pending, keys) && finalized == q.finalized + FinishAll(codec, strip, q.pending, keys, |keys|);
    NoKeys(q.pending, keys);
    assert finalized == q.finalized;
  }

  lemma TakeOneMore<T>(s: seq<T>, i: nat)
    requires i < |s|
    ensures s[..i + 1] == s[..i] + [s[i]]
  {
  }

  /** Thinking is closed only once. */
  lemma ClosedStaysClosed(log: Log)
    ensures PhaseOf(ClosedLog(log)) != Open && ClosedLog(ClosedLog(log)) == ClosedLog(log)
  {
    if PhaseOf(log) == Open {
      Append(log, ThinkingChunk("", true));
    }
  }

  class StreamContext {
    var fullThinking: string
    var reasoningPresent: bool
    var signature: Option<string>
    var fullText: string
    var toolCalls: seq<ToolCall>
    var usage: Option<Usage>
    var metadata: Option<Json.Value>
    const pendingCalls: PendingToolCalls
    var finalizedIds: set<string>
    var thinkingChunks: nat
    var thinkingCompleted: bool
    var effective: bool
    var recovery: Option<string>

    /** Everything sent to the event sink, in order. */
    ghost var log: Log
    /** Every record the accumulator handed over, in order. */
    ghost var finalized: seq<Finalized>

    constructor (codec: Codec, strip: bool)
      ensures Valid() && fresh(pendingCalls)
      ensures log == [] && finalized == [] && recovery == None && usage == None && signature == None && metadata == None
      ensures !reasoningPresent && pendingCalls.pending == map[]
      ensures pendingCalls.codec == codec && pendingCalls.strip == strip
    {
      fullThinking, reasoningPresent, signature, fullText := "", false, None, "";
      toolCalls, usage, metadata, finalizedIds := [], None, None, {};
      thinkingChunks, thinkingCompleted, effective, recovery := 0, false, false, None;
      pendingCalls := new PendingToolCalls(codec, strip);
      log, finalized := [], [];
    }

    /** The accumulated state is what the log and the hand-overs say. */
    ghost predicate Valid()
      reads this, pendingCalls
    {
      && Identified(pendingCalls.pending)
      && Says(log, fullText, fullThinking, effective, thinkingChunks, thinkingCompleted)
      && Matches(toolCalls, finalizedIds, finalized)
    }

    /** Thinking has been shown and not been closed yet. */
    predicate ThinkingOpen()
      reads this
    {
      thinkingChunks > 0 && !thinkingCompleted
    }

    ghost function Now(): Progress
      reads this, pendingCalls
    {
      Progress(pendingCalls.pending, finalized, log)
    }

    ghost method Emit(e: Event)
      modifies this`log
      ensures log == old(log) + [e]
    {
      log := log + [e];
    }

    method SendThinkingEndIfNeeded()
      requires Valid()
      modifies this`thinkingCompleted, this`log
      ensures Valid() && !ThinkingOpen()
      ensures log == ClosedLog(old(log)) && Taken() == old(Taken())
    {
      if thinkingChunks > 0 && !thinkingCompleted {
        SaysMarker(log, fullText, fullThinking, effective, thinkingChunks);
        thinkingCompleted := true;
        Emit(ThinkingChunk("", true));
      }
    }

    /** Keeps a finished call unless its id has been kept before. `uuid` stands in for a missing id. */
    method RecordFinalized(f: Finalized, uuid: string)
      requires Valid() && f.id != ""
      modifies this`toolCalls, this`finalizedIds, this`finalized
      ensures Valid() && finalized == old(finalized) + [f]
    {
      var name := if f.name == "" then UNKNOWN_TOOL else f.name;
      var id := if f.id == "" then uuid else f.id;
      KeepCall(toolCalls, finalizedIds, finalized, f);
      if id !in finalizedIds {
        finalizedIds := finalizedIds + {id};
        toolCalls := toolCalls +
          [ToolCall(id, name, f.arguments, if f.raw == "" then None else Some(f.raw), f.isError, f.recovered)];
      }
      finalized := finalized + [f];
    }

    method RecordAll(finished: seq<Finalized>, uuid: string)
      requires Valid() && AllIdentified(finished)
      modifies this`toolCalls, this`finalizedIds, this`finalized
      ensures Valid() && finalized == old(finalized) + finished
    {
      for i := 0 to |finished|
        invariant Valid() && finalized == old(finalized) + finished[..i]
      {
        assert HasId(finished[i]);
        RecordFinalized(finished[i], uuid);
        TakeOneMore(finished, i);
      }
      assert finished[..|finished|] == finished;
    }

    /** Finishes whatever is pending, in key order, and records it. */
    method FinalizeAllPending(uuid: string)
      requires Valid()
      modifies this`toolCalls, this`finalizedIds, this`finalized, pendingCalls
      ensures Valid() && pendingCalls.pending == map[]
      ensures FinishedInto(pendingCalls.codec, pendingCalls.strip, old(Now()), finalized)
    {
      ghost var before := pendingCalls.pending;
      var records;
      ghost var keys;
      records, keys := pendingCalls.FinalizeAll();
      AllFinishedIdentified(pendingCalls.codec, pendingCalls.strip, before, keys, |keys|);
      assert AllIdentified(records);
      RecordAll(records, uuid);
    }

    /** Reports every recorded call, and the turn if there was one, as cancelled or failed. */
    method GracefulShutdown(reason: string)
      modifies this`log
      ensures log == old(log) + Shutdown(toolCalls, reason)
    {
      var isUserCancellation := Contains(reason, CANCELLED_WORD);
      for i := 0 to |toolCalls|
        invariant log == old(log) + Closing(toolCalls, reason, i)
      {
        var call := toolCalls[i];
        if isUserCancellation {
          Emit(ToolCancelled(call.id, call.name, reason));
        } else {
          Emit(ToolFailed(call.id, call.name, reason));
        }
      }
      if |toolCalls| > 0 {
        if isUserCancellation {
          Emit(TurnCancelled);
        } else {
          Emit(TurnFailed(reason));
        }
      }
    }

    method HandleUsage(u: Usage)
      modifies this`usage
      ensures usage == Some(u)
    {
      usage := Some(u);
    }

    method HandleTextChunk(text: string)
      requires Valid() && !ThinkingOpen()
      modifies this`effective, this`fullText, this`log
      ensures Valid() && log == old(log) + [TextChunk(text)] && fullText == old(fullText) + text
    {
      SaysText(log, fullText, fullThinking, effective, thinkingChunks, thinkingCompleted, text);
      if !Blank(text) {
        effective := true;
      }
      fullText := fullText + text;
      Emit(TextChunk(text));
    }

    /** Thinking alone does not count as output worth keeping. */
    method HandleThinkingChunk(content: string)
      requires Valid()
      modifies this`fullThinking, this`thinkingChunks, this`log
      ensures Valid() && log == old(log) + [ThinkingChunk(content, false)] &&
          fullThinking == old(fullThinking) + content
    {
      SaysThinking(log, fullText, fullThinking, effective, thinkingChunks, thinkingCompleted, content);
      fullThinking := fullThinking + content;
      thinkingChunks := thinkingChunks + 1;
      Emit(ThinkingChunk(content, false));
    }

    method HandleToolCallChunk(d: Delta, uuid: string) returns (ghost outcome: ToolCalls.Outcome)
      requires Valid() && !ThinkingOpen()
      modifies this`effective, this`log, this`toolCalls, this`finalizedIds, this`finalized, pendingCalls
      ensures Valid()
      ensures (pendingCalls.pending, outcome) ==
          DeltaOn(pendingCalls.codec, pendingCalls.strip, old(pendingCalls.pending), d)
      ensures finalized == old(finalized) + Listed(outcome.finalizedPrevious)
      ensures log == old(log) + DeltaEvents(outcome) && Taken() == old(Taken())
    {
      DeltaFinishesIdentified(pendingCalls.codec, pendingCalls.strip, pendingCalls.pending, d);
      var result := pendingCalls.ApplyDelta(d);
      outcome := result;
      TakeOutcome(result, uuid);
    }

    /** Records the call a delta has completed and shows what it makes visible. */
    method TakeOutcome(outcome: ToolCalls.Outcome, uuid: string)
      requires Valid() && !ThinkingOpen()
      requires outcome.finalizedPrevious.Some? ==> outcome.finalizedPrevious.value.id != ""
      modifies this`effective, this`log, this`toolCalls, this`finalizedIds, this`finalized
      ensures Valid() && finalized == old(finalized) + Listed(outcome.finalizedPrevious)
      ensures log == old(log) + DeltaEvents(outcome) && Taken() == old(Taken())
    {
      RecordPrevious(outcome.finalizedPrevious, uuid);
      ShowDelta(outcome);
    }

    /** Records the call a delta has completed, if any. */
    method RecordPrevious(previous: Option<Finalized>, uuid: string)
      requires Valid() && (previous.Some? ==> previous.value.id != "")
      modifies this`toolCalls, this`finalizedIds, this`finalized
      ensures Valid() && finalized == old(finalized) + Listed(previous)
    {
      if previous.Some? {
        RecordFinalized(previous.value, uuid);
      } else {
        assert finalized + [] == finalized;
      }
    }

    /** Announces a newly known call and shows its parameters as they arrive. */
    method ShowDelta(outcome: ToolCalls.Outcome)
      requires Valid() && !ThinkingOpen()
      modifies this`effective, this`log
      ensures Valid() && log == old(log) + DeltaEvents(outcome)
    {
      if outcome.earlyDetected.Some? {
        ShowTool(EarlyDetected(outcome.earlyDetected.value.id, outcome.earlyDetected.value.name));
      }
      if outcome.paramsPartial.Some? {
        var partial := outcome.paramsPartial.value;
        ShowTool(ParamsPartial(partial.id, partial.name, partial.params));
      }
    }

    method ShowTool(e: Event)
      requires Valid() && !ThinkingOpen() && (e.EarlyDetected? || e.ParamsPartial?)
      modifies this`effective, this`log
      ensures Valid() && log == old(log) + [e]
    {
      SaysTool(log, fullText, fullThinking, effective, thinkingChunks, thinkingCompleted, e);
      effective := true;
      Emit(e);
    }

    /** The run got as far as `p`; then what was pending was finished and every call reported. */
    ghost predicate ShutDown(p: Progress, reason: string)
      reads this, pendingCalls
    {
      && pendingCalls.pending == map[]
      && Says(p.log, fullText, fullThinking, effective, thinkingChunks, thinkingCompleted)
      && Matches(toolCalls, finalizedIds, finalized)
      && FinishedInto(pendingCalls.codec, pendingCalls.strip, p, finalized)
      && log == p.log + Shutdown(toolCalls, reason)
    }

    /** Finishes pending calls and reports every recorded call as cancelled or failed. */
    method ShutDownGracefully(reason: string, uuid: string)
      requires Valid()
      modifies this`toolCalls, this`finalizedIds, this`finalized, this`log, pendingCalls
      ensures ShutDown(old(Now()), reason)
    {
      FinalizeAllPending(uuid);
      GracefulShutdown(reason);
    }

    /** Stops the run if the token is set. */
    method CheckCancellation(isCancelled: bool, reason: string, uuid: string)
      requires Valid()
      modifies this`toolCalls, this`finalizedIds, this`finalized, this`log, pendingCalls
      ensures if isCancelled then ShutDown(old(Now()), reason) else Valid() && Now() == old(Now())
      ensures Taken() == old(Taken())
    {
      if isCancelled {
        ShutDownGracefully(reason, uuid);
      }
    }

    method MergeMetadata(more: Option<Json.Value>)
      modifies this`metadata
      ensures metadata == MoreMetadata(old(metadata), more)
    {
      if more.Some? {
        if metadata.Some? {
          var merged := Json.MergeInto(metadata.value, more.value);
          metadata := Some(merged);
        } else {
          metadata := more;
        }
      }
    }

    /** Adds thinking, unless it is empty. */
    method TakeThinking(reasoning: Option<string>)
      requires Valid()
      modifies this`reasoningPresent, this`fullThinking, this`thinkingChunks, this`log
      ensures Valid() && Taken() == WithThinking(old(Taken()), reasoning)
      ensures Now() == Thought(old(Now()), reasoning)
    {
      assert fullThinking + "" == fullThinking;
      if reasoning.Some? {
        reasoningPresent := true;
        if reasoning.value != "" {
          HandleThinkingChunk(reasoning.value);
        }
      }
    }

    /** Adds text, closing thinking first; empty text is no text. */
    method TakeText(text: Option<string>)
      requires Valid()
      modifies this`thinkingCompleted, this`effective, this`fullText, this`log
      ensures Valid() && Taken() == WithText(old(Taken()), text)
      ensures Now() == Wrote(old(Now()), text)
    {
      assert fullText + "" == fullText;
      if OrEmpty(text) != "" {
        SendThinkingEndIfNeeded();
        HandleTextChunk(text.value);
      }
    }

    /** What has come in so far. */
    ghost function Taken(): Input
      reads this`fullText, this`fullThinking, this`metadata, this`usage, this`signature, this`reasoningPresent
    {
      Input(fullText, fullThinking, metadata, usage, signature, reasoningPresent)
    }

    method TakeSignature(s: Option<string>)
      modifies this`signature, this`reasoningPresent
      ensures Taken() == WithSignature(old(Taken()), s)
    {
      if s.Some? && s.value != "" {
        reasoningPresent := true;
        signature := s;
      }
    }

    /** Handles a tool call delta, closing thinking first. */
    method TakeToolCall(toolCall: Option<Delta>, uuid: string)
      requires Valid()
      modifies this`thinkingCompleted, this`effective, this`log, this`toolCalls, this`finalizedIds, this`finalized,
          pendingCalls
      ensures Valid() && Now() == Called(pendingCalls.codec, pendingCalls.strip, old(Now()), toolCall)
      ensures Taken() == old(Taken())
    {
      if toolCall.Some? {
        SendThinkingEndIfNeeded();
        ghost var outcome := HandleToolCallChunk(toolCall.value, uuid);
      }
    }

    /** Usage, metadata and the finish boundary of one response. */
    method TakeTail(r: Response, uuid: string)
      requires Valid()
      modifies this`usage, this`metadata, this`toolCalls, this`finalizedIds, this`finalized, pendingCalls
      ensures Valid()
      ensures Taken() == WithTail(old(Taken()), r)
      ensures Bounded(pendingCalls.codec, pendingCalls.strip, old(Now()), r.finishReason, Now())
    {
      if r.usage.Some? {
        HandleUsage(r.usage.value);
      }
      MergeMetadata(r.metadata);
      FinishAtBoundary(r.finishReason, uuid);
    }

    method FinishAtBoundary(finishReason: Option<string>, uuid: string)
      requires Valid()
      modifies this`toolCalls, this`finalizedIds, this`finalized, pendingCalls
      ensures Valid() && Bounded(pendingCalls.codec, pendingCalls.strip, old(Now()), finishReason, Now())
    {
      if finishReason.Some? {
        FinalizeAllPending(uuid);
      }
    }

    method ThinkAndCheck(reasoning: Option<string>, isCancelled: bool, reason: string, uuid: string)
      returns (stopped: bool)
      requires Valid()
      modifies this`reasoningPresent, this`fullThinking, this`thinkingChunks, this`log,
               this`toolCalls, this`finalizedIds, this`finalized, pendingCalls
      ensures stopped <==> OrEmpty(reasoning) != "" && isCancelled
      ensures Reached(stopped, Thought(old(Now()), reasoning), reason)
      ensures Taken() == WithThinking(old(Taken()), reasoning)
    {
      stopped := false;
      TakeThinking(reasoning);
      if OrEmpty(reasoning) != "" {
        CheckCancellation(isCancelled, reason, uuid);
        stopped := isCancelled;
      }
    }

    method WriteAndCheck(text: Option<string>, isCancelled: bool, reason: string, uuid: string) returns (stopped: bool)
      requires Valid()
      modifies this`thinkingCompleted, this`effective, this`fullText, this`log,
               this`toolCalls, this`finalizedIds, this`finalized, pendingCalls
      ensures stopped <==> OrEmpty(text) != "" && isCancelled
      ensures Reached(stopped, Wrote(old(Now()), text), reason)
      ensures Taken() == WithText(old(Taken()), text)
    {
      stopped := false;
      TakeText(text);
      if OrEmpty(text) != "" {
        CheckCancellation(isCancelled, reason, uuid);
        stopped := isCancelled;
      }
    }

    method CallAndCheck(toolCall: Option<Delta>, isCancelled: bool, reason: string, uuid: string)
      returns (stopped: bool)
      requires Valid()
      modifies this`thinkingCompleted, this`effective, this`log,
               this`toolCalls, this`finalizedIds, this`finalized, pendingCalls
      ensures stopped <==> toolCall.Some? && isCancelled
      ensures Reached(stopped, Called(pendingCalls.codec, pendingCalls.strip, old(Now()), toolCall), reason)
      ensures Taken() == old(Taken())
    {
      stopped := false;
      TakeToolCall(toolCall, uuid);
      if toolCall.Some? {
        CheckCancellation(isCancelled, reason, uuid);
        stopped := isCancelled;
      }
    }

    /** The run got to `p`, and has been shut down there or goes on. */
    ghost predicate Reached(stopped: bool, p: Progress, reason: string)
      reads this, pendingCalls
    {
      if stopped then ShutDown(p, reason) else Valid() && Now() == p
    }

    /** Thinking, text and tool call of one response, with a check behind each. */
    method TakeStages(r: Response, checks: Checks, reason: string, uuid: string) returns (stopped: bool)
      requires Valid()
      modifies this`reasoningPresent, this`fullThinking, this`thinkingChunks, this`thinkingCompleted,
               this`effective, this`fullText, this`log, this`toolCalls, this`finalizedIds, this`finalized, pendingCalls
      ensures stopped <==> StopsWithin(r, checks)
      ensures Reached(stopped, CutAt(pendingCalls.codec, pendingCalls.strip, old(Now()), r, checks), reason)
      ensures !stopped ==> Taken() == WithText(WithThinking(old(Taken()), r.reasoning), r.text)
    {
      stopped := ThinkAndCheck(r.reasoning, checks.afterThinking, reason, uuid);
      if !stopped {
        stopped := WriteAndCheck(r.text, checks.afterText, reason, uuid);
      }
      if !stopped {
        stopped := CallAndCheck(r.toolCall, checks.afterTool, reason, uuid);
      }
    }

    /** Takes in one response; stops and reports if the token is seen set at one of the checks. */
    method HandleResponse(r: Response, checks: Checks, reason: string, uuid: string) returns (stopped: bool)
      requires Valid()
      modifies this`signature, this`reasoningPresent, this`fullThinking, this`thinkingChunks, this`thinkingCompleted,
               this`effective, this`fullText, this`log, this`toolCalls, this`finalizedIds, this`finalized,
               this`usage, this`metadata, pendingCalls
      ensures stopped <==> StopsWithin(r, checks)
      ensures if stopped then ShutDown(CutAt(pendingCalls.codec, pendingCalls.strip, old(Now()), r, checks), reason)
              else Valid() && Passed(pendingCalls.codec, pendingCalls.strip, old(Now()), r, Now())
      ensures !stopped ==> Taken() == TakeIn(old(Taken()), r)
    {
      TakeSignature(r.signature);
      stopped := TakeStages(r, checks, reason, uuid);
      if !stopped {
        TakeTail(r, uuid);
      }
    }

    /** The run got to `p`; it may since have closed thinking and finished what was pending. */
    ghost predicate Wound(p: Progress)
      reads this, pendingCalls
    {
      Now() == p || WoundUp(p)
    }

    ghost predicate WoundUp(p: Progress)
      reads this, pendingCalls
    {
      log == ClosedLog(p.log) && pendingCalls.pending == map[] &&
        FinishedInto(pendingCalls.codec, pendingCalls.strip, p, finalized)
    }

    /** Closes thinking and finishes what is still pending. */
    method WindUp(uuid: string)
      requires Valid()
      modifies this`thinkingCompleted, this`log, this`toolCalls, this`finalizedIds, this`finalized, pendingCalls
      ensures Valid() && !ThinkingOpen() && WoundUp(old(Now()))
    {
      SendThinkingEndIfNeeded();
      FinalizeAllPending(uuid);
    }

    /** Ends the run early but keeps what it produced. */
    method RecoverPartially(reason: string, uuid: string)
      requires Valid()
      modifies this`thinkingCompleted, this`log, this`toolCalls, this`finalizedIds, this`finalized, this`recovery,
          pendingCalls
      ensures Valid() && recovery == Some(reason) && WoundUp(old(Now()))
    {
      WindUp(uuid);
      recovery := Some(reason);
    }

    /** What is done behind the loop, whether or not the run has been wound up before. */
    method Conclude(uuid: string, ghost p: Progress)
      requires Valid() && Wound(p)
      modifies this`thinkingCompleted, this`log, this`toolCalls, this`finalizedIds, this`finalized, pendingCalls
      ensures Valid() && !ThinkingOpen() && WoundUp(p)
    {
      ghost var before := Now();
      WindUp(uuid);
      if before != p {
        ClosedStaysClosed(p.log);
        FinishedTwice(pendingCalls.codec, pendingCalls.strip, p, before, finalized);
      }
    }

    /** The run got to `p` and was ended there as the verdict says. */
    ghost predicate Interrupted(p: Progress, verdict: Verdict, failure: Option<Error>)
      reads this, pendingCalls
    {
      match verdict
      case Finished(kept) => failure == None && Valid() && recovery == kept && Wound(p)
      case Aborted(error, reason) => failure == Some(error) && ShutDown(p, reason)
    }

    /** Keeps what there is, or reports why the run has failed. */
    method CarryOut(verdict: Verdict, uuid: string) returns (failure: Option<Error>)
      requires Valid() && recovery == None
      modifies this`thinkingCompleted, this`log, this`toolCalls, this`finalizedIds, this`finalized, this`recovery,
          pendingCalls
      ensures Interrupted(old(Now()), verdict, failure)
    {
      failure := None;
      match verdict {
        case Finished(kept) =>
          if kept.Some? {
            RecoverPartially(kept.value, uuid);
          }
        case Aborted(error, reason) =>
          ShutDownGracefully(reason, uuid);
          failure := Some(error);
      }
    }

    /** Everything but a response ends the run: with what there is, or with an error. */
    method Interrupt(last: Item, recoverOnCancel: bool, uuid: string) returns (failure: Option<Error>)
      requires Valid() && recovery == None && !last.Received?
      modifies this`thinkingCompleted, this`log, this`toolCalls, this`finalizedIds, this`finalized, this`recovery,
          pendingCalls
      ensures Taken() == old(Taken())
      ensures Interrupted(old(Now()), Judge(last, recoverOnCancel, effective), failure)
    {
      var verdict := Finished(None);
      match last {
        case End =>
        case Cancelled =>
          verdict := if recoverOnCancel && effective then Finished(Some(PARTIAL_CANCELLED))
                     else Aborted(CancelledError(CANCELLED_MESSAGE), USER_CANCELLED);
        case Failed(message) =>
          var shown := FAILED_PREFIX + message;
          verdict := if !Contains(shown, FATAL_WORDS) && effective then Finished(Some(shown))
                     else Aborted(AiClient(shown), shown);
        case TimedOut(seconds) =>
          var shown := TimeoutMessage(seconds);
          verdict := if effective then Finished(Some(shown)) else Aborted(AiClient(shown), shown);
      }
      failure := CarryOut(verdict, uuid);
    }

    function IntoResult(): StreamResult
      reads this
    {
      StreamResult(fullThinking, reasoningPresent, signature, fullText, toolCalls, usage, metadata, effective, recovery)
    }
  }

  /** Everything a run has received. */
  datatype Input = Input(text: string, thinking: string, metadata: Option<Json.Value>, usage: Option<Usage>,
                         signature: Option<string>, reasoningPresent: bool)

  function WithSignature(input: Input, s: Option<string>): Input {
    if OrEmpty(s) == "" then input else input.(signature := s, reasoningPresent := true)
  }

  function WithThinking(input: Input, reasoning: Option<string>): Input {
    if reasoning.None? then input else input.(thinking := input.thinking + reasoning.value, reasoningPresent := true)
  }

  function WithText(input: Input, text: Option<string>): Input {
    input.(text := input.text + OrEmpty(text))
  }

  function WithTail(input: Input, r: Response): Input {
    input.(usage := if r.usage.Some? then r.usage else input.usage,
           metadata := MoreMetadata(input.metadata, r.metadata))
  }

  function TakeIn(input: Input, r: Response): Input {
    WithTail(WithText(WithThinking(WithSignature(input, r.signature), r.reasoning), r.text), r)
  }

  /** A check is only made behind something that was handled. */
  predicate StopsWithin(r: Response, checks: Checks) {
    ThinkingStops(r, checks) || TextStops(r, checks) || (r.toolCall.Some? && checks.afterTool)
  }

  predicate ThinkingStops(r: Response, checks: Checks) {
    OrEmpty(r.reasoning) != "" && checks.afterThinking
  }

  predicate TextStops(r: Response, checks: Checks) {
    OrEmpty(r.text) != "" && checks.afterText
  }

  // ---------- how a run ends ----------

  const CANCELLED_MESSAGE := "Stream processing cancelled"
  const PARTIAL_CANCELLED := "Stream processing cancelled after partial output"
  const FAILED_PREFIX := "Stream processing error: "
  const TIMEOUT_PREFIX := "Stream processor watchdog timeout (no data received for "
  const TIMEOUT_SUFFIX := " seconds)"

  function TimeoutMessage(seconds: string): string {
    TIMEOUT_PREFIX + seconds + TIMEOUT_SUFFIX
  }

  datatype Verdict = Finished(recovery: Option<string>) | Aborted(error: Error, reason: string)

  /** What the item that ends a run makes of it. */
  function Judge(last: Item, recoverOnCancel: bool, effective: bool): Verdict {
    match last
    case End => Finished(None)
    case Cancelled =>
      if recoverOnCancel && effective then Finished(Some(PARTIAL_CANCELLED))
      else Aborted(CancelledError(CANCELLED_MESSAGE), USER_CANCELLED)
    case Failed(message) =>
      var shown := FAILED_PREFIX + message;
      if !Contains(shown, FATAL_WORDS) && effective then Finished(Some(shown)) else Aborted(AiClient(shown), shown)
    case TimedOut(seconds) =>
      var shown := TimeoutMessage(seconds);
      if effective then Finished(Some(shown)) else Aborted(AiClient(shown), shown)
    case Received(_, _) => Aborted(CancelledError(CANCELLED_MESSAGE), USER_CANCELLED)
  }

  predicate PassesThrough(item: Item) {
    item.Received? && !StopsWithin(item.response, item.checks)
  }

  /** The first `n` items all pass through. */
  ghost predicate AllPass(items: seq<Item>, n: nat) {
    n <= |items| && forall k {:trigger PassesThrough(items[k])} :: 0 <= k < n ==> PassesThrough(items[k])
  }

  /** The item a run ends at: the first that does not pass through, or the end of the stream. */
  function StopOf(items: seq<Item>, from: nat): (stop: nat)
    requires from <= |items|
    ensures from <= stop <= |items| && (stop < |items| ==> !PassesThrough(items[stop]))
    ensures AllPass(items, from) ==> AllPass(items, stop)
    decreases |items| - from
  {
    if from < |items| && PassesThrough(items[from]) then
      AllPassIf(items, from);
      StopOf(items, from + 1)
    else from
  }

  lemma AllPassIf(items: seq<Item>, n: nat)
    requires n < |items| && PassesThrough(items[n])
    ensures AllPass(items, n) ==> AllPass(items, n + 1)
  {
  }

  lemma {:induction false} StopsThere(items: seq<Item>, from: nat, stop: nat)
    requires from <= stop && AllPass(items, stop) && (stop < |items| ==> !PassesThrough(items[stop]))
    ensures StopOf(items, from) == stop
    decreases stop - from
  {
    if from < stop {
      assert PassesThrough(items[from]);
      StopsThere(items, from + 1, stop);
    }
  }

  function LastItem(items: seq<Item>, stop: nat): Item {
    if stop < |items| then items[stop] else End
  }

  /** A result hands on what has come in. */
  predicate HandsOn(r: StreamResult, input: Input) {
    Input(r.fullText, r.fullThinking, r.metadata, r.usage, r.signature, r.reasoningPresent) == input
  }

  /** What the first `n` items bring in. */
  function Incoming(items: seq<Item>, n: nat): Input
    requires n <= |items|
  {
    if n == 0 then Input("", "", None, None, None, false)
    else if items[n - 1].Received? then TakeIn(Incoming(items, n - 1), items[n - 1].response)
    else Incoming(items, n - 1)
  }

  /** The progress before each of the first `n` items and behind the last of them. */
  ghost predicate Progresses(codec: Codec, strip: bool, items: seq<Item>, steps: seq<Progress>, n: nat) {
    && n <= |items| && |steps| == n + 1 && steps[0] == START
    && forall i: nat {:trigger PassedAt(codec, strip, items, steps, i)} :: i < n ==>
      PassedAt(codec, strip, items, steps, i)
  }

  ghost predicate PassedAt(codec: Codec, strip: bool, items: seq<Item>, steps: seq<Progress>, i: nat) {
    && i < |items| && i + 1 < |steps| && items[i].Received?
    && Passed(codec, strip, steps[i], items[i].response, steps[i + 1])
  }

  lemma ProgressesStep(codec: Codec, strip: bool, items: seq<Item>, steps: seq<Progress>, n: nat, p: Progress)
    requires Progresses(codec, strip, items, steps, n) && n < |items| && items[n].Received?
    requires Passed(codec, strip, steps[n], items[n].response, p)
    ensures Progresses(codec, strip, items, steps + [p], n + 1)
  {
    var more := steps + [p];
    forall i: nat | i < n + 1 ensures PassedAt(codec, strip, items, more, i) {
      assert i < n ==> PassedAt(codec, strip, items, steps, i);
    }
  }

  /** How far a run got that ended at item `stop`. */
  ghost function Ending(codec: Codec, strip: bool, items: seq<Item>, steps: seq<Progress>, stop: nat): Progress
    requires stop < |steps|
  {
    if stop < |items| && items[stop].Received?
    then CutAt(codec, strip, steps[stop], items[stop].response, items[stop].checks)
    else steps[stop]
  }

  /** The run has taken in the first `n` items and goes on. */
  ghost predicate Going(context: StreamContext, items: seq<Item>, steps: seq<Progress>, n: nat)
    reads context, context.pendingCalls
  {
    && context.Valid() && context.recovery == None
    && AllPass(items, n) && context.Taken() == Incoming(items, n)
    && Progresses(context.pendingCalls.codec, context.pendingCalls.strip, items, steps, n) && context.Now() == steps[n]
  }

  /** A check has stopped the run while item `n` was handled. */
  ghost predicate Stopped(context: StreamContext, items: seq<Item>, steps: seq<Progress>, n: nat, reason: string)
    reads context, context.pendingCalls
  {
    && AllPass(items, n) && n < |items| && items[n].Received? && !PassesThrough(items[n])
    && Progresses(context.pendingCalls.codec, context.pendingCalls.strip, items, steps, n)
    && context.ShutDown(Ending(context.pendingCalls.codec, context.pendingCalls.strip, items, steps, n), reason)
  }

  /** Takes in item `n`, a response. */
  method ReceiveResponse(context: StreamContext, items: seq<Item>, n: nat, reason: string, uuid: string,
                         ghost steps: seq<Progress>)
    returns (stopped: bool, ghost steps': seq<Progress>)
    requires Going(context, items, steps, n) && n < |items| && items[n].Received?
    modifies context, context.pendingCalls
    ensures if stopped then Stopped(context, items, steps', n, reason) else Going(context, items, steps', n + 1)
  {
    ghost var codec, strip := context.pendingCalls.codec, context.pendingCalls.strip;
    stopped := context.HandleResponse(items[n].response, items[n].checks, reason, uuid);
    steps' := steps;
    if !stopped {
      AllPassIf(items, n);
      ProgressesStep(codec, strip, items, steps, n, context.Now());
      steps' := steps + [context.Now()];
    }
  }

  /** Takes in responses until something else arrives or a check stops the run. */
  method ReceiveResponses(context: StreamContext, items: seq<Item>, reason: string, uuid: string)
    returns (last: nat, stopped: bool, ghost steps: seq<Progress>)
    requires Going(context, items, [START], 0)
    modifies context, context.pendingCalls
    ensures if stopped then Stopped(context, items, steps, last, reason)
            else Going(context, items, steps, last) && (last < |items| ==> !items[last].Received?)
  {
    last, stopped, steps := 0, false, [START];
    while !stopped && last < |items| && items[last].Received?
      invariant if stopped then Stopped(context, items, steps, last, reason) else Going(context, items, steps, last)
      decreases |items| - last, !stopped
    {
      stopped, steps := ReceiveResponse(context, items, last, reason, uuid, steps);
      last := if stopped then last else last + 1;
    }
  }

  /** What the final context and the outcome say about a run that got as far as `p`. */
  ghost predicate Concluded(ctx: StreamContext, outcome: Result<StreamResult, StreamError>, p: Progress,
                            verdict: Verdict)
    reads ctx, ctx.pendingCalls
  {
    && ctx.pendingCalls.pending == map[]
    && match verdict
       case Finished(recovery) =>
         ctx.Valid() && !ctx.ThinkingOpen() && ctx.WoundUp(p) && ctx.recovery == recovery &&
           outcome == Ok(ctx.IntoResult())
       case Aborted(error, reason) =>
         ctx.ShutDown(p, reason) && outcome == Err(StreamError(error, ctx.effective))
  }

  lemma FailureConcludes(ctx: StreamContext, p: Progress, verdict: Verdict, failure: Error)
    requires ctx.Interrupted(p, verdict, Some(failure))
    ensures Concluded(ctx, Err(StreamError(failure, ctx.effective)), p, verdict)
  {
  }

  lemma NoFailureGoesOn(ctx: StreamContext, p: Progress, verdict: Verdict)
    requires ctx.Interrupted(p, verdict, None)
    ensures verdict == Finished(ctx.recovery) && ctx.Valid() && ctx.Wound(p)
  {
  }

  /** What is done behind the loop: the context is wound up and made into the result. */
  method HandOver(context: StreamContext, uuid: string, ghost p: Progress)
    returns (outcome: Result<StreamResult, StreamError>)
    requires context.Valid() && context.Wound(p)
    modifies context, context.pendingCalls
    ensures context.Taken() == old(context.Taken()) && context.effective == old(context.effective)
    ensures Concluded(context, outcome, p, Finished(old(context.recovery)))
  {
    context.Conclude(uuid, p);
    outcome := Ok(context.IntoResult());
  }

  /** Ends a run at something other than a response. */
  method EndRun(context: StreamContext, last: Item, recoverOnCancel: bool, uuid: string)
    returns (outcome: Result<StreamResult, StreamError>)
    requires context.Valid() && context.recovery == None && !last.Received?
    modifies context, context.pendingCalls
    ensures context.Taken() == old(context.Taken()) && context.effective == old(context.effective)
    ensures Concluded(context, outcome, old(context.Now()), Judge(last, recoverOnCancel, context.effective))
  {
    ghost var p, verdict := context.Now(), Judge(last, recoverOnCancel, context.effective);
    var failure := context.Interrupt(last, recoverOnCancel, uuid);
    if failure.Some? {
      FailureConcludes(context, p, verdict, failure.value);
      return Err(StreamError(failure.value, context.effective));
    }
    NoFailureGoesOn(context, p, verdict);
    outcome := HandOver(context, uuid, p);
  }

  /** A run over the items: the progress they add up to, and how it ended at the first that does not pass. */
  ghost predicate Ran(items: seq<Item>, codec: Codec, strip: bool, recoverOnCancel: bool,
                      outcome: Result<StreamResult, StreamError>, ctx: StreamContext, steps: seq<Progress>)
    reads ctx, ctx.pendingCalls
  {
    RanTo(StopOf(items, 0), items, codec, strip, recoverOnCancel, outcome, ctx, steps)
  }

  ghost predicate RanTo(stop: nat, items: seq<Item>, codec: Codec, strip: bool, recoverOnCancel: bool,
                        outcome: Result<StreamResult, StreamError>, ctx: StreamContext, steps: seq<Progress>)
    reads ctx, ctx.pendingCalls
  {
    && ctx.pendingCalls.codec == codec && ctx.pendingCalls.strip == strip
    && Progresses(codec, strip, items, steps, stop)
    && Concluded(ctx, outcome, Ending(codec, strip, items, steps, stop),
                 Judge(LastItem(items, stop), recoverOnCancel, ctx.effective))
    && (outcome.Ok? ==> HandsOn(outcome.value, Incoming(items, stop)))
  }

  /** A run stopped by a check ends there, as a cancelled one. */
  lemma StoppedRan(items: seq<Item>, ctx: StreamContext, steps: seq<Progress>, last: nat, recoverOnCancel: bool)
    requires Stopped(ctx, items, steps, last, USER_CANCELLED)
    ensures RanTo(last, items, ctx.pendingCalls.codec, ctx.pendingCalls.strip, recoverOnCancel,
                  Err(StreamError(CancelledError(CANCELLED_MESSAGE), ctx.effective)), ctx, steps)
  {
    StoppedConcludes(items, ctx, steps, last, recoverOnCancel);
  }

  lemma StoppedConcludes(items: seq<Item>, ctx: StreamContext, steps: seq<Progress>, last: nat, recoverOnCancel: bool)
    requires Stopped(ctx, items, steps, last, USER_CANCELLED)
    ensures Concluded(ctx, Err(StreamError(CancelledError(CANCELLED_MESSAGE), ctx.effective)),
                      Ending(ctx.pendingCalls.codec, ctx.pendingCalls.strip, items, steps, last),
                      Judge(LastItem(items, last), recoverOnCancel, ctx.effective))
  {
  }

  /**
   * Runs a stream to its end. `steps` is the progress the items add up to; the final
   * context shows what was accumulated.
   */
  method ProcessStream(items: seq<Item>, codec: Codec, strip: bool, recoverOnCancel: bool, uuid: string)
    returns (outcome: Result<StreamResult, StreamError>, ghost ctx: StreamContext, ghost steps: seq<Progress>)
    ensures Ran(items, codec, strip, recoverOnCancel, outcome, ctx, steps)
    ensures outcome.Ok? ==> HandsOn(outcome.value, Incoming(items, StopOf(items, 0)))
  {
    var context := new StreamContext(codec, strip);
    ctx := context;
    var last, stopped;
    last, stopped, steps := ReceiveResponses(context, items, USER_CANCELLED, uuid);
    StopsThere(items, 0, last);
    if stopped {
      outcome := Err(StreamError(CancelledError(CANCELLED_MESSAGE), context.effective));
      StoppedRan(items, context, steps, last, recoverOnCancel);
      return;
    }
    outcome := EndRun(context, LastItem(items, last), recoverOnCancel, uuid);
  }
}
