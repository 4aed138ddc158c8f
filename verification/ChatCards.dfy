/** What a tool's card says: how it begins, and which event each of its parts comes from. */
module ChatCards {
  import opened Wrappers
  import opened ChatModel
  import opened ChatFlow
  import opened ChatTools
  import Json

  // ---------- which event decides ----------

  /** What a tool event writes in one place of its card, if it writes there. */
  type Writer<T> = ToolEvent -> Option<T>

  predicate WritesAt<T>(es: seq<Event>, k: nat, id: string, of: Writer<T>) {
    k < |es| && es[k].OfTool? && es[k].tool.id == id && of(es[k].tool).Some?
  }

  ghost predicate NoneWrites<T>(es: seq<Event>, m: nat, n: nat, id: string, of: Writer<T>) {
    forall k: nat {:trigger WritesAt(es, k, id, of)} :: m <= k < n ==> !WritesAt(es, k, id, of)
  }

  /** `now` is what the last of the events from `m` to `n` that writes there has written, or else what was there. */
  ghost predicate IsLatest<T(!new)>(es: seq<Event>, m: nat, n: nat, id: string, of: Writer<T>,
                                    before: Option<T>, now: Option<T>)
  {
    && (NoneWrites(es, m, n, id, of) ==> now == before)
    && forall k: nat {:trigger WritesAt(es, k, id, of)} ::
         m <= k < n && WritesAt(es, k, id, of) && NoneWrites(es, k + 1, n, id, of) ==> now == of(es[k].tool)
  }

  lemma LatestStep<T(!new)>(es: seq<Event>, m: nat, n: nat, id: string, of: Writer<T>,
                            before: Option<T>, was: Option<T>, now: Option<T>)
    requires m <= n < |es| && IsLatest(es, m, n, id, of, before, was)
    requires now == if WritesAt(es, n, id, of) then of(es[n].tool) else was
    ensures IsLatest(es, m, n + 1, id, of, before, now)
  {
    if NoneWrites(es, m, n + 1, id, of) {
      assert !WritesAt(es, n, id, of);
      assert NoneWrites(es, m, n, id, of);
    }
    forall k: nat | m <= k < n + 1 && WritesAt(es, k, id, of) && NoneWrites(es, k + 1, n + 1, id, of)
      ensures now == of(es[k].tool)
    {
      if k < n {
        assert !WritesAt(es, n, id, of);
        assert NoneWrites(es, k + 1, n, id, of);
      }
    }
  }

  // ---------- what events write ----------

  function ResultOf(e: ToolEvent): Option<string> {
    match e
    case GotRejected(_) => Some("User rejected execution")
    case Completed(_, _, _, summary, _) => Some(summary)
    case GotFailed(_, error) => Some(error)
    case GotCancelled(_, reason) => Some(reason)
    case _ => None
  }

  function ProgressOf(e: ToolEvent): Option<string> {
    match e
    case Partial(_, shown) => Some(shown)
    case Queueing(_, shown) => Some(shown)
    case Awaiting(_, shown) => Some(shown)
    case Progressed(_, message) => Some(message)
    case StreamedTo(_, shown) => Some(shown)
    case NeedsConfirmation(_, _, _) => Some("Waiting for user confirmation")
    case _ => None
  }

  function DurationOf(e: ToolEvent): Option<nat> {
    if e.Completed? then Some(e.durationMs) else None
  }

  function MetadataOf(e: ToolEvent): Option<Json.Value> {
    if e.Completed? then Some(e.result) else None
  }

  function ParametersOf(e: ToolEvent): Option<Json.Value> {
    if e.Started? then Some(e.params) else None
  }

  /** Every part of the card but status and subagent comes from the last event that writes it. */
  ghost predicate CardTells(es: seq<Event>, m: nat, n: nat, id: string, before: Tool, now: Tool) {
    && now.id == before.id && now.name == before.name
    && IsLatest(es, m, n, id, ParametersOf, Some(before.parameters), Some(now.parameters))
    && IsLatest(es, m, n, id, ResultOf, before.result, now.result)
    && IsLatest(es, m, n, id, ProgressOf, before.progress, now.progress)
    && IsLatest(es, m, n, id, DurationOf, before.durationMs, now.durationMs)
    && IsLatest(es, m, n, id, MetadataOf, before.metadata, now.metadata)
  }

  /** What one event writes. */
  ghost predicate Writes(was: Tool, now: Tool, es: seq<Event>, n: nat, id: string) {
    && n < |es| && now.id == was.id && now.name == was.name
    && Some(now.parameters) == (if WritesAt(es, n, id, ParametersOf) then ParametersOf(es[n].tool)
                                else Some(was.parameters))
    && now.result == (if WritesAt(es, n, id, ResultOf) then ResultOf(es[n].tool) else was.result)
    && now.progress == (if WritesAt(es, n, id, ProgressOf) then ProgressOf(es[n].tool) else was.progress)
    && now.durationMs == (if WritesAt(es, n, id, DurationOf) then DurationOf(es[n].tool) else was.durationMs)
    && now.metadata == (if WritesAt(es, n, id, MetadataOf) then MetadataOf(es[n].tool) else was.metadata)
  }

  lemma EventWrites(was: Tool, es: seq<Event>, n: nat, id: string)
    requires n < |es|
    ensures Track1(Some(was), es[n], id).Some?
    ensures Writes(was, Track1(Some(was), es[n], id).value, es, n, id)
  {
  }

  lemma WritesTells(es: seq<Event>, m: nat, n: nat, id: string, before: Tool, was: Tool, now: Tool)
    requires m <= n && CardTells(es, m, n, id, before, was) && Writes(was, now, es, n, id)
    ensures CardTells(es, m, n + 1, id, before, now)
  {
    LatestStep(es, m, n, id, ParametersOf, Some(before.parameters), Some(was.parameters), Some(now.parameters));
    LatestStep(es, m, n, id, ResultOf, before.result, was.result, now.result);
    LatestStep(es, m, n, id, ProgressOf, before.progress, was.progress, now.progress);
    LatestStep(es, m, n, id, DurationOf, before.durationMs, was.durationMs, now.durationMs);
    LatestStep(es, m, n, id, MetadataOf, before.metadata, was.metadata, now.metadata);
  }

  /** A card that has been there tells what has come since. */
  ghost predicate StillTells(t: Tool, es: seq<Event>, m: nat, n: nat, id: string)
    requires m <= n <= |es|
  {
    Track(Some(t), es, m, n, id).Some? && CardTells(es, m, n, id, t, Track(Some(t), es, m, n, id).value)
  }

  lemma TellsAtFirst(t: Tool, es: seq<Event>, m: nat, id: string)
    requires m <= |es|
    ensures StillTells(t, es, m, m, id)
  {
  }

  lemma TellsNext(t: Tool, es: seq<Event>, m: nat, n: nat, id: string)
    requires m <= n < |es|
    ensures StillTells(t, es, m, n, id) ==> StillTells(t, es, m, n + 1, id)
  {
    if StillTells(t, es, m, n, id) {
      var was := Track(Some(t), es, m, n, id).value;
      EventWrites(was, es, n, id);
      WritesTells(es, m, n, id, t, was, Track1(Some(was), es[n], id).value);
    }
  }

  lemma {:induction false} TrackTells(t: Tool, es: seq<Event>, m: nat, n: nat, id: string)
    requires m <= n <= |es|
    ensures StillTells(t, es, m, n, id)
    decreases n
  {
    if m == n {
      TellsAtFirst(t, es, m, id);
    } else {
      TrackTells(t, es, m, n - 1, id);
      TellsNext(t, es, m, n - 1, id);
    }
  }

  /**
   * Within a turn a card, once shown, stays shown with its id and name, and its parameters,
   * result, progress note, duration and metadata are those of the last event that brought any.
   */
  lemma CardIsLatest(s: Chat, es: seq<Event>, m: nat, n: nat, id: string)
    requires m <= n && WithinTurn(es, m, n) && (Initial(s) || Sound(s)) && ShownTool(Run(s, es, m), id).Some?
    ensures ShownTool(Run(s, es, n), id).Some?
    ensures CardTells(es, m, n, id, ShownTool(Run(s, es, m), id).value, ShownTool(Run(s, es, n), id).value)
  {
    ToolsAreIndependent(s, es, m, n, id);
    TrackTells(ShownTool(Run(s, es, m), id).value, es, m, n, id);
  }

  /** The card a tool begins with. */
  ghost predicate IsNewCard(t: Tool, e: ToolEvent) {
    && (e.Detected? || e.Started?)
    && t.id == e.id && t.name == e.name
    && t.status == (if e.Started? then Running else EarlyDetected)
    && t.parameters == (if e.Started? then e.params else Json.Null)
    && t.result == None && t.progress == None && t.durationMs == None && t.metadata == None && t.subagent == None
  }

  /** A card that is not shown begins with an announcement or the start of its tool, and with nothing else. */
  lemma CardBeginsIff(s: Chat, es: seq<Event>, n: nat, id: string)
    requires n < |es| && !EndsItems(es[n]) && (Initial(s) || Sound(s)) && ShownTool(Run(s, es, n), id).None?
    ensures ShownTool(Run(s, es, n + 1), id).Some? <==>
              es[n].OfTool? && es[n].tool.id == id && (es[n].tool.Detected? || es[n].tool.Started?)
    ensures ShownTool(Run(s, es, n + 1), id).Some? ==> IsNewCard(ShownTool(Run(s, es, n + 1), id).value, es[n].tool)
  {
    RunKeepsSound(s, es, n);
    StepReaches(Run(s, es, n), es[n], id);
  }

  /**
   * A tool that completes has succeeded, unless it is a compilation whose result says, in a
   * member `success`, that it has not.
   */
  lemma CompletionShows(s: Chat, es: seq<Event>, n: nat, id: string)
    requires n < |es| && (Initial(s) || Sound(s)) && ShownTool(Run(s, es, n), id).Some?
    requires es[n].OfTool? && es[n].tool.id == id && es[n].tool.Completed?
    ensures ShownTool(Run(s, es, n + 1), id).Some?
    ensures ShownTool(Run(s, es, n + 1), id).value.status ==
      if es[n].tool.name == "HmosCompilation" && Json.At(es[n].tool.result, ["success"]) == Some(Json.Bool(false))
      then Failed else Success
  {
    RunKeepsSound(s, es, n);
    StepReaches(Run(s, es, n), es[n], id);
    var result := es[n].tool.result;
    assert ["success"][1..] == [];
    assert Json.At(result, ["success"]) ==
      if result.Object? && "success" in result.members then Json.At(result.members["success"], []) else None;
  }

  /** A turn begins and ends without cards. */
  lemma NoCardBetweenTurns(s: Chat, es: seq<Event>, n: nat, id: string)
    requires n < |es| && EndsItems(es[n])
    ensures ShownTool(Run(s, es, n + 1), id).None?
  {
  }

  // ---------- subagents ----------

  /** A report of the tool's subagent that is shown. */
  predicate ReportsAt(es: seq<Event>, k: nat, id: string) {
    && k < |es| && es[k].OfSubagent? && es[k].subagent.parent == id
    && (es[k].subagent.SubRound? ==> es[k].subagent.index > 0)
  }

  ghost predicate NoneReports(es: seq<Event>, m: nat, n: nat, id: string) {
    forall k: nat {:trigger ReportsAt(es, k, id)} :: m <= k < n ==> !ReportsAt(es, k, id)
  }

  /** How many tools the subagent has started between the events `m` and `n`. */
  function StartedBy(es: seq<Event>, m: nat, n: nat, id: string): nat
    requires m <= n <= |es|
    decreases n
  {
    if n == m then 0
    else StartedBy(es, m, n - 1, id) + if ReportsAt(es, n - 1, id) && es[n - 1].subagent.SubStarted? then 1 else 0
  }

  function CountOf(t: Tool): nat {
    if t.subagent.Some? then t.subagent.value.toolCount else 0
  }

  /** The tool and the title a report shows; a new round names no tool. */
  ghost predicate ShowsReport(shown: Option<Subagent>, e: SubagentEvent) {
    && shown.Some?
    && shown.value.currentName == (if e.SubRound? then None else Some(e.name))
    && shown.value.currentTitle == (match e
                                    case SubStarted(_, _, title) => title
                                    case SubCompleted(_, _, summary) => Some(summary)
                                    case SubFailed(_, _, text) => Some(text)
                                    case SubRound(_, _, text) => Some(text))
  }

  ghost predicate ReportTells(es: seq<Event>, m: nat, n: nat, id: string, before: Tool, now: Tool)
    requires m <= n <= |es|
  {
    && CountOf(now) == CountOf(before) + StartedBy(es, m, n, id)
    && (NoneReports(es, m, n, id) ==> now.subagent == before.subagent)
    && forall k: nat {:trigger ReportsAt(es, k, id)} ::
         m <= k < n && ReportsAt(es, k, id) && NoneReports(es, k + 1, n, id) ==>
           ShowsReport(now.subagent, es[k].subagent)
  }

  lemma EventReports(was: Tool, es: seq<Event>, n: nat, id: string)
    requires n < |es|
    ensures Track1(Some(was), es[n], id).Some?
    ensures var now := Track1(Some(was), es[n], id).value;
      && CountOf(now) == CountOf(was) + (if ReportsAt(es, n, id) && es[n].subagent.SubStarted? then 1 else 0)
      && if ReportsAt(es, n, id) then ShowsReport(now.subagent, es[n].subagent) else now.subagent == was.subagent
  {
  }

  lemma ReportsTell(es: seq<Event>, m: nat, n: nat, id: string, before: Tool, was: Tool, now: Tool)
    requires m <= n < |es| && ReportTells(es, m, n, id, before, was)
    requires CountOf(now) == CountOf(was) + (if ReportsAt(es, n, id) && es[n].subagent.SubStarted? then 1 else 0)
    requires if ReportsAt(es, n, id) then ShowsReport(now.subagent, es[n].subagent) else now.subagent == was.subagent
    ensures ReportTells(es, m, n + 1, id, before, now)
  {
    if NoneReports(es, m, n + 1, id) {
      NoneReportsBefore(es, m, n, id);
    }
    forall k: nat | m <= k < n + 1 && ReportsAt(es, k, id) && NoneReports(es, k + 1, n + 1, id)
      ensures ShowsReport(now.subagent, es[k].subagent)
    {
      LastReportTells(es, m, n, id, before, was, now, k);
    }
  }

  lemma LastReportTells(es: seq<Event>, m: nat, n: nat, id: string, before: Tool, was: Tool, now: Tool, k: nat)
    requires m <= k <= n < |es| && ReportTells(es, m, n, id, before, was)
    requires if ReportsAt(es, n, id) then ShowsReport(now.subagent, es[n].subagent) else now.subagent == was.subagent
    requires ReportsAt(es, k, id) && NoneReports(es, k + 1, n + 1, id)
    ensures ShowsReport(now.subagent, es[k].subagent)
  {
    if k < n {
      NoneReportsBefore(es, k + 1, n, id);
    }
  }

  lemma NoneReportsBefore(es: seq<Event>, k: nat, n: nat, id: string)
    requires k <= n && NoneReports(es, k, n + 1, id)
    ensures !ReportsAt(es, n, id) && NoneReports(es, k, n, id)
  {
  }

  lemma {:induction false} TrackReports(t: Tool, es: seq<Event>, m: nat, n: nat, id: string)
    requires m <= n <= |es|
    ensures Track(Some(t), es, m, n, id).Some?
    ensures ReportTells(es, m, n, id, t, Track(Some(t), es, m, n, id).value)
    decreases n
  {
    if m < n {
      TrackReports(t, es, m, n - 1, id);
      var was := Track(Some(t), es, m, n - 1, id).value;
      EventReports(was, es, n - 1, id);
      ReportsTell(es, m, n - 1, id, t, was, Track(Some(t), es, m, n, id).value);
    }
  }

  /** Within a turn a card counts the tools its subagent has started and shows the subagent's last report. */
  lemma SubagentIsLatest(s: Chat, es: seq<Event>, m: nat, n: nat, id: string)
    requires m <= n && WithinTurn(es, m, n) && (Initial(s) || Sound(s)) && ShownTool(Run(s, es, m), id).Some?
    ensures ShownTool(Run(s, es, n), id).Some?
    ensures ReportTells(es, m, n, id, ShownTool(Run(s, es, m), id).value, ShownTool(Run(s, es, n), id).value)
  {
    ToolsAreIndependent(s, es, m, n, id);
    TrackReports(ShownTool(Run(s, es, m), id).value, es, m, n, id);
  }
}
