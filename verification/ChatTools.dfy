/** One tool's card in a run: which events reach it, and which order of events it is indifferent to. */
module ChatTools {
  import opened Wrappers
  import opened ChatModel
  import opened ChatFlow
  import Json

  predicate About(e: Event, id: string) {
    || (e.OfTool? && e.tool.id == id)
    || (e.OfSubagent? && e.subagent.parent == id && !(e.subagent.SubRound? && e.subagent.index == 0))
  }

  /** What an event makes of one tool, looked at alone. */
  function Track1(t: Option<Tool>, e: Event, id: string): Option<Tool> {
    if !About(e, id) then t
    else if e.OfTool? then (if t.Some? then Some(Updated(t.value, e.tool)) else Created(e.tool))
    else if t.Some? then Some(WithSubagent(t.value, e.subagent))
    else None
  }

  /** One tool after the events `m` to `n`, looked at alone. */
  function Track(t: Option<Tool>, es: seq<Event>, m: nat, n: nat, id: string): Option<Tool>
    requires m <= n <= |es|
    decreases n
  {
    if n == m then t else Track1(Track(t, es, m, n - 1, id), es[n - 1], id)
  }

  function ShownTool(s: Chat, id: string): Option<Tool> {
    ToolOf(s.items, s.index, id)
  }

  lemma SetToolSets(items: seq<Item>, index: map<string, nat>, id: string, t: Tool, other: string)
    requires IndexExact(items, index) && ToolOf(items, index, id).Some? && t.id == id
    ensures ToolOf(SetTool(items, index, id, t), index, other)
         == if other == id then Some(t) else ToolOf(items, index, other)
  {
    assert EntryRight(items, index, id) && EntryRight(items, index, other);
  }

  lemma ToolEventReaches(items: seq<Item>, index: map<string, nat>, e: ToolEvent, id: string)
    requires IndexExact(items, index)
    ensures var (after, listed) := AfterTool(items, index, e);
            ToolOf(after, listed, id) == Track1(ToolOf(items, index, id), OfTool(e), id)
  {
    assert EntryRight(items, index, e.id) && EntryRight(items, index, id);
    if e.id in index {
      SetToolSets(items, index, e.id, Updated(items[index[e.id]].tool, e), id);
    }
  }

  lemma SubagentReaches(items: seq<Item>, index: map<string, nat>, e: SubagentEvent, id: string)
    requires IndexExact(items, index) && !(e.SubRound? && e.index == 0)
    ensures ToolOf(AfterSubagent(items, index, e), index, id) == Track1(ToolOf(items, index, id), OfSubagent(e), id)
  {
    assert EntryRight(items, index, e.parent);
    if e.parent in index {
      SetToolSets(items, index, e.parent, WithSubagent(items[index[e.parent]].tool, e), id);
    }
  }

  lemma ChunkReaches(s: Chat, e: Event, id: string)
    requires IndexExact(s.items, s.index) && (e.TextChunk? || e.ThinkingChunk?)
    ensures ShownTool(Step(s, e), id) == ShownTool(s, id)
  {
    assert EntryRight(s.items, s.index, id);
  }

  lemma StepReaches(s: Chat, e: Event, id: string)
    requires IndexExact(s.items, s.index) && !EndsItems(e)
    ensures ShownTool(Step(s, e), id) == Track1(ShownTool(s, id), e, id)
  {
    match e
    case TextChunk(_) => ChunkReaches(s, e, id);
    case ThinkingChunk(_) => ChunkReaches(s, e, id);
    case OfTool(t) => ToolEventReaches(s.items, s.index, t, id);
    case OfSubagent(t) =>
      if About(e, id) || !(t.SubRound? && t.index == 0) {
        SubagentReaches(s.items, s.index, t, id);
      }
    case _ =>
  }

  /** Within a turn a tool's card is made by that tool's own events; no other event can touch it. */
  lemma {:induction false} ToolsAreIndependent(s: Chat, es: seq<Event>, m: nat, n: nat, id: string)
    requires m <= n && WithinTurn(es, m, n) && (Initial(s) || Sound(s))
    ensures ShownTool(Run(s, es, n), id) == Track(ShownTool(Run(s, es, m), id), es, m, n, id)
    decreases n
  {
    if m < n {
      ToolsAreIndependent(s, es, m, n - 1, id);
      RunKeepsSound(s, es, n - 1);
      StepReaches(Run(s, es, n - 1), es[n - 1], id);
    }
  }

  // ---------- the last word on a status ----------

  /** A stage before execution, announced with low priority and so possibly late. */
  predicate IsEarly(e: ToolEvent) {
    e.Partial? || e.Queueing? || e.Awaiting?
  }

  /** The status an event sets whatever came before. */
  function Sets(e: ToolEvent): Option<Status> {
    match e
    case Started(_, _, _, _) => Some(Running)
    case StreamedTo(_, _) => Some(Streaming)
    case NeedsConfirmation(_, _, _) => Some(ConfirmationNeeded)
    case GotConfirmed(_) => Some(Confirmed)
    case GotRejected(_) => Some(Rejected)
    case Completed(_, name, result, _, _) => Some(if ReportsFailure(name, result) then Failed else Success)
    case GotFailed(_, _) => Some(Failed)
    case GotCancelled(_, _) => Some(Cancelled)
    case _ => None
  }

  predicate HasStatus(t: Option<Tool>, s: Status) {
    t.Some? && t.value.status == s
  }

  predicate SetsAt(es: seq<Event>, i: nat, id: string) {
    i < |es| && es[i].OfTool? && es[i].tool.id == id && Sets(es[i].tool).Some?
  }

  predicate EarlyAt(es: seq<Event>, i: nat, id: string) {
    i < |es| && es[i].OfTool? && es[i].tool.id == id && IsEarly(es[i].tool)
  }

  ghost predicate SomeEarly(es: seq<Event>, m: nat, n: nat, id: string) {
    exists i: nat {:trigger EarlyAt(es, i, id)} :: m <= i < n && EarlyAt(es, i, id)
  }

  ghost predicate NoneSets(es: seq<Event>, m: nat, n: nat, id: string) {
    forall i: nat {:trigger SetsAt(es, i, id)} :: m <= i < n ==> !SetsAt(es, i, id)
  }

  lemma StatusAfter(t: Tool, e: ToolEvent)
    ensures Sets(e).Some? ==> Updated(t, e).status == Sets(e).value
    ensures Sets(e).None? && IsEarly(e) ==>
              Updated(t, e).status == if IsExecutionPhase(t.status) then t.status else StageOf(e)
    ensures Sets(e).None? && !IsEarly(e) ==> Updated(t, e).status == t.status
  {
  }

  /** The stage an early event shows. */
  function StageOf(e: ToolEvent): Status {
    if e.Partial? then ParamsPartial else if e.Queueing? then Queued else Waiting
  }

  predicate EarlyStage(s: Status) {
    s == ParamsPartial || s == Queued || s == Waiting
  }

  /** A status that an event has set outlasts later early events exactly if it is an execution status. */
  lemma {:induction false} SetStatusOutlasts(t: Tool, es: seq<Event>, m: nat, n: nat, id: string)
    requires m <= n <= |es| && NoneSets(es, m, n, id)
    ensures Track(Some(t), es, m, n, id).Some?
    ensures var now := Track(Some(t), es, m, n, id).value.status;
            if IsExecutionPhase(t.status) || !SomeEarly(es, m, n, id) then now == t.status else EarlyStage(now)
    decreases n
  {
    if m < n {
      SetStatusOutlasts(t, es, m, n - 1, id);
      var before := Track(Some(t), es, m, n - 1, id).value;
      assert !SetsAt(es, n - 1, id);
      assert EarlyAt(es, n - 1, id) ==> SomeEarly(es, m, n, id);
      assert SomeEarly(es, m, n - 1, id) ==> SomeEarly(es, m, n, id);
      if SomeEarly(es, m, n, id) && !EarlyAt(es, n - 1, id) {
        var i: nat :| m <= i < n && EarlyAt(es, i, id);
        assert i < n - 1;
      }
      if es[n - 1].OfTool? && es[n - 1].tool.id == id {
        StatusAfter(before, es[n - 1].tool);
      }
    }
  }

  lemma SetIsExecutionIff(e: ToolEvent)
    requires Sets(e).Some?
    ensures !EarlyStage(Sets(e).value)
    ensures IsExecutionPhase(Sets(e).value) <==> !(e.NeedsConfirmation? || e.GotConfirmed?)
  {
  }

  lemma SetterSets(s: Chat, e: Event, id: string)
    requires IndexExact(s.items, s.index) && SetsAt([e], 0, id)
    requires ShownTool(s, id).Some? || e.tool.Started?
    ensures HasStatus(ShownTool(Step(s, e), id), Sets(e.tool).value)
  {
    StepReaches(s, e, id);
    if ShownTool(s, id).Some? {
      StatusAfter(ShownTool(s, id).value, e.tool);
    }
  }

  /**
   * The last event of a turn that sets a tool's status decides it, wherever early
   * events fall, if and only if it is more than a question to the user or the consent
   * to it, or no early event comes after it.
   */
  lemma LastSetterDecides(s: Chat, es: seq<Event>, k: nat, n: nat, id: string)
    requires k < n && WithinTurn(es, k, n) && (Initial(s) || Sound(s))
    requires SetsAt(es, k, id) && NoneSets(es, k + 1, n, id)
    requires ShownTool(Run(s, es, k), id).Some? || es[k].tool.Started?
    ensures ShownTool(Run(s, es, n), id).Some?
    ensures HasStatus(ShownTool(Run(s, es, n), id), Sets(es[k].tool).value) <==>
              !(es[k].tool.NeedsConfirmation? || es[k].tool.GotConfirmed?) || !SomeEarly(es, k + 1, n, id)
  {
    var before, e := Run(s, es, k), es[k];
    RunKeepsSound(s, es, k);
    SetterSets(before, e, id);
    ToolsAreIndependent(s, es, k + 1, n, id);
    SetDecides(ShownTool(Step(before, e), id).value, es, k, n, id);
  }

  lemma SetDecides(t: Tool, es: seq<Event>, k: nat, n: nat, id: string)
    requires k < n <= |es| && SetsAt(es, k, id) && NoneSets(es, k + 1, n, id) && t.status == Sets(es[k].tool).value
    ensures Track(Some(t), es, k + 1, n, id).Some?
    ensures Track(Some(t), es, k + 1, n, id).value.status == t.status <==>
              !(es[k].tool.NeedsConfirmation? || es[k].tool.GotConfirmed?) || !SomeEarly(es, k + 1, n, id)
  {
    SetStatusOutlasts(t, es, k + 1, n, id);
    SetIsExecutionIff(es[k].tool);
  }

  // ---------- interleavings ----------

  /** An event whose place among the tool's other events can matter. */
  predicate Matters(e: Event, id: string) {
    About(e, id) && !(e.OfTool? && (IsEarly(e.tool) || e.tool.Progressed?))
  }

  /** The tool's own events between `m` and `n`, without early stages and progress. */
  function Core(es: seq<Event>, m: nat, n: nat, id: string): seq<Event>
    requires m <= n <= |es|
    decreases n
  {
    if n == m then []
    else if Matters(es[n - 1], id) then Core(es, m, n - 1, id) + [es[n - 1]]
    else Core(es, m, n - 1, id)
  }

  /** Everything on a tool's card but its status and progress note. */
  function Face(t: Option<Tool>): Option<Tool> {
    if t.Some? then Some(t.value.(status := Pending, progress := None)) else None
  }

  /** The same card; the status may differ only while the tool is not executing. */
  predicate Agree(plain: Option<Tool>, core: Option<Tool>) {
    && Face(plain) == Face(core)
    && (core.Some? && IsExecutionPhase(core.value.status) ==> plain.value.status == core.value.status)
  }

  lemma MattersKeepsAgreement(a: Option<Tool>, b: Option<Tool>, e: Event, id: string)
    requires Agree(a, b) && Matters(e, id)
    ensures Agree(Track1(a, e, id), Track1(b, e, id))
  {
    if a.Some? && e.OfTool? {
      StatusAfter(a.value, e.tool);
      StatusAfter(b.value, e.tool);
    }
  }

  lemma OthersKeepAgreement(a: Option<Tool>, b: Option<Tool>, e: Event, id: string)
    requires Agree(a, b) && !Matters(e, id)
    ensures Agree(Track1(a, e, id), b)
  {
    if a.Some? && About(e, id) {
      StatusAfter(a.value, e.tool);
    }
  }

  lemma TrackPrefix(t: Option<Tool>, es: seq<Event>, e: Event, n: nat, id: string)
    requires n <= |es|
    ensures Track(t, es + [e], 0, n, id) == Track(t, es, 0, n, id)
  {
  }

  /** Early stages and progress leave no trace on an executing tool's card, apart from the progress note. */
  lemma {:induction false} EarlyLeavesNoTrace(t: Option<Tool>, es: seq<Event>, m: nat, n: nat, id: string)
    requires m <= n <= |es|
    ensures Agree(Track(t, es, m, n, id), Track(t, Core(es, m, n, id), 0, |Core(es, m, n, id)|, id))
    decreases n
  {
    if m < n {
      EarlyLeavesNoTrace(t, es, m, n - 1, id);
      var e, core := es[n - 1], Core(es, m, n - 1, id);
      if Matters(e, id) {
        TrackPrefix(t, core, e, |core|, id);
        MattersKeepsAgreement(Track(t, es, m, n - 1, id), Track(t, core, 0, |core|, id), e, id);
      } else {
        OthersKeepAgreement(Track(t, es, m, n - 1, id), Track(t, core, 0, |core|, id), e, id);
      }
    }
  }

  /**
   * Two interleavings of a turn that keep the order of a tool's other events show
   * the same card for it, and the same status if those events leave it executing.
   */
  lemma InterleavingsAgree(s: Chat, es: seq<Event>, other: seq<Event>, id: string)
    requires WithinTurn(es, 0, |es|) && WithinTurn(other, 0, |other|) && (Initial(s) || Sound(s))
    requires Core(es, 0, |es|, id) == Core(other, 0, |other|, id)
    ensures Face(ShownTool(Run(s, es, |es|), id)) == Face(ShownTool(Run(s, other, |other|), id))
    ensures var core := Core(es, 0, |es|, id);
            var t := Track(ShownTool(s, id), core, 0, |core|, id);
            t.Some? && IsExecutionPhase(t.value.status) ==>
              HasStatus(ShownTool(Run(s, es, |es|), id), t.value.status) &&
                HasStatus(ShownTool(Run(s, other, |other|), id), t.value.status)
  {
    ToolsAreIndependent(s, es, 0, |es|, id);
    ToolsAreIndependent(s, other, 0, |other|, id);
    EarlyLeavesNoTrace(ShownTool(s, id), es, 0, |es|, id);
    EarlyLeavesNoTrace(ShownTool(s, id), other, 0, |other|, id);
  }

  /**
   * The order matters where the status set is not one of execution: a late early stage hides a
   * pending confirmation.
   */
  lemma LateStageHidesConfirmation(id: string, name: string, shown: string)
    ensures var made, early, asked := OfTool(Detected(id, name)), OfTool(Queueing(id, shown)),
        OfTool(NeedsConfirmation(id, name, Json.Null));
            && HasStatus(ShownTool(Run(EMPTY_CHAT, [made, early, asked], 3), id), ConfirmationNeeded)
            && HasStatus(ShownTool(Run(EMPTY_CHAT, [made, asked, early], 3), id), Queued)
  {
    var made, early, asked := OfTool(Detected(id, name)), OfTool(Queueing(id, shown)),
      OfTool(NeedsConfirmation(id, name, Json.Null));
    ShownAfterThree(made, early, asked, id);
    ShownAfterThree(made, asked, early, id);
    LastOfTwoShows(NewTool(id, name, Json.Null, EarlyDetected), asked.tool, early.tool, id);
  }

  /** Neither event starts the tool, so whichever comes last shows. */
  lemma LastOfTwoShows(t: Tool, asked: ToolEvent, early: ToolEvent, id: string)
    requires t.status == EarlyDetected && asked.NeedsConfirmation? && early.Queueing? && asked.id == early.id == id
    ensures HasStatus(Track1(Track1(Some(t), OfTool(early), id), OfTool(asked), id), ConfirmationNeeded)
    ensures HasStatus(Track1(Track1(Some(t), OfTool(asked), id), OfTool(early), id), Queued)
  {
  }

  lemma ShownAfterThree(a: Event, b: Event, c: Event, id: string)
    requires !EndsItems(a) && !EndsItems(b) && !EndsItems(c)
    ensures ShownTool(Run(EMPTY_CHAT, [a, b, c], 3), id) == Track1(Track1(Track1(None, a, id), b, id), c, id)
  {
    TrackThree(a, b, c, id);
    ToolsAreIndependent(EMPTY_CHAT, [a, b, c], 0, 3, id);
  }

  lemma TrackThree(a: Event, b: Event, c: Event, id: string)
    ensures Track(None, [a, b, c], 0, 3, id) == Track1(Track1(Track1(None, a, id), b, id), c, id)
  {
    assert Track(None, [a, b, c], 0, 1, id) == Track1(None, a, id);
    assert Track(None, [a, b, c], 0, 2, id) == Track1(Track1(None, a, id), b, id);
  }
}
