/** The chat display as a value, and what each event makes of it. */
module ChatModel {
  import opened Wrappers
  import Json

  datatype Status = EarlyDetected | ParamsPartial | Queued | Waiting | ConfirmationNeeded | Confirmed | Rejected
                  | Pending | Running | Streaming | Success | Failed | Cancelled

  /** A tool that has started, or is done with, must not fall back to an earlier stage. */
  predicate IsExecutionPhase(s: Status) {
    s == Running || s == Streaming || s == Success || s == Failed || s == Cancelled || s == Rejected
  }

  datatype Subagent = Subagent(toolCount: nat, currentName: Option<string>, currentTitle: Option<string>)

  datatype Tool = Tool(id: string, name: string, parameters: Json.Value, status: Status, result: Option<string>,
                       progress: Option<string>, durationMs: Option<nat>, metadata: Option<Json.Value>,
                       subagent: Option<Subagent>)

  datatype Item = Text(content: string, isStreaming: bool) | Thinking(content: string) | ToolItem(tool: Tool)

  datatype Role = User | Assistant | System

  datatype Message = Message(id: string, role: Role, items: seq<Item>, isStreaming: bool, version: nat)

  /** Events about one tool, with the texts shown for numbers and lists already written out. */
  datatype ToolEvent =
    | Detected(id: string, name: string)
    | Partial(id: string, shown: string)
    | Queueing(id: string, shown: string)
    | Awaiting(id: string, shown: string)
    | Started(id: string, name: string, params: Json.Value, asks: bool)
    | Progressed(id: string, message: string)
    | StreamedTo(id: string, shown: string)
    | NeedsConfirmation(id: string, name: string, params: Json.Value)
    | GotConfirmed(id: string)
    | GotRejected(id: string)
    | Completed(id: string, name: string, result: Json.Value, summary: string, durationMs: nat)
    | GotFailed(id: string, error: string)
    | GotCancelled(id: string, reason: string)

  /** What a subagent reports to the task tool that started it. */
  datatype SubagentEvent =
    | SubStarted(parent: string, name: string, title: Option<string>)
    | SubCompleted(parent: string, name: string, summary: string)
    | SubFailed(parent: string, name: string, shown: string)
    | SubRound(parent: string, index: nat, shown: string)

  datatype Event =
    | TurnStarted(turn: string, input: string, userId: string, assistantId: string)
    | TextChunk(text: string)
    | ThinkingChunk(text: string)
    | OfTool(tool: ToolEvent)
    | OfSubagent(subagent: SubagentEvent)
    | TurnCompleted(rounds: nat)
    | TurnFailed(shown: string)
    | TurnCancelled
    | SystemMessage(id: string, content: string)
    | AssistantMessage(id: string, content: string)
    | TokenUsage(total: nat)
    | Clear

  datatype Chat = Chat(messages: seq<Message>, turn: Option<string>, items: seq<Item>, index: map<string, nat>,
                       processing: bool, permission: Option<string>, question: Option<string>,
                       messageCount: nat, toolCalls: nat, rounds: nat, tokens: nat)

  const EMPTY_CHAT := Chat([], None, [], map[], false, None, None, 0, 0, 0, 0)

  // ---------- parts of a step ----------

  /** Copies the turn's items into the last message while that one is being streamed. */
  function Rebuilt(messages: seq<Message>, items: seq<Item>): seq<Message> {
    if messages == [] then messages
    else
      var last := messages[|messages| - 1];
      if last.role == Assistant && last.isStreaming then
        messages[|messages| - 1 := last.(items := items, version := last.version + 1)]
      else messages
  }

  function WithText(items: seq<Item>, text: string): seq<Item> {
    if items != [] && items[|items| - 1].Text? then
      items[|items| - 1 := items[|items| - 1].(content := items[|items| - 1].content + text)]
    else items + [Text(text, true)]
  }

  function WithThinking(items: seq<Item>, text: string): seq<Item> {
    if items != [] && items[|items| - 1].Thinking? then
      items[|items| - 1 := Thinking(items[|items| - 1].content + text)]
    else items + [Thinking(text)]
  }

  function NewTool(id: string, name: string, parameters: Json.Value, status: Status): Tool {
    Tool(id, name, parameters, status, None, None, None, None, None)
  }

  /** An early stage only shows while the tool is not executing. */
  function Early(t: Tool, status: Status): Tool {
    if IsExecutionPhase(t.status) then t else t.(status := status)
  }

  /** A compilation that says it did not succeed counts as failed. */
  predicate ReportsFailure(name: string, result: Json.Value) {
    name == "HmosCompilation" && result.Object? && "success" in result.members &&
      result.members["success"] == Json.Bool(false)
  }

  /** What an event does to a tool that is shown. */
  function Updated(t: Tool, e: ToolEvent): Tool {
    match e
    case Detected(_, _) => t
    case Partial(_, shown) => Early(t, ParamsPartial).(progress := Some(shown))
    case Queueing(_, shown) => Early(t, Queued).(progress := Some(shown))
    case Awaiting(_, shown) => Early(t, Waiting).(progress := Some(shown))
    case Started(_, _, params, _) => t.(status := Running, parameters := params)
    case Progressed(_, message) => t.(progress := Some(message))
    case StreamedTo(_, shown) => t.(status := Streaming, progress := Some(shown))
    case NeedsConfirmation(_, _, _) =>
      t.(status := ConfirmationNeeded, progress := Some("Waiting for user confirmation"))
    case GotConfirmed(_) => t.(status := Confirmed)
    case GotRejected(_) => t.(status := Rejected, result := Some("User rejected execution"))
    case Completed(_, name, result, summary, ms) =>
      t.(status := if ReportsFailure(name, result) then Failed else Success,
         result := Some(summary), metadata := Some(result), durationMs := Some(ms))
    case GotFailed(_, error) => t.(status := Failed, result := Some(error))
    case GotCancelled(_, reason) => t.(status := Cancelled, result := Some(reason))
  }

  /** The tool an event creates if it is not shown yet; most events create none. */
  function Created(e: ToolEvent): Option<Tool> {
    match e
    case Detected(id, name) => Some(NewTool(id, name, Json.Null, EarlyDetected))
    case Started(id, name, params, _) => Some(NewTool(id, name, params, Running))
    case _ => None
  }

  function WithSubagent(t: Tool, e: SubagentEvent): Tool {
    var p := if t.subagent.Some? then t.subagent.value else Subagent(0, None, None);
    match e
    case SubStarted(_, name, title) => t.(subagent := Some(Subagent(p.toolCount + 1, Some(name), title)))
    case SubCompleted(_, name, summary) =>
      t.(subagent := Some(p.(currentName := Some(name), currentTitle := Some(summary))))
    case SubFailed(_, name, shown) => t.(subagent := Some(p.(currentName := Some(name), currentTitle := Some(shown))))
    case SubRound(_, _, shown) => t.(subagent := Some(p.(currentName := None, currentTitle := Some(shown))))
  }

  /** The tool shown under an id. */
  function ToolOf(items: seq<Item>, index: map<string, nat>, id: string): Option<Tool> {
    if id in index && index[id] < |items| && items[index[id]].ToolItem? then Some(items[index[id]].tool) else None
  }

  /** Replaces the tool shown under an id; nothing happens if there is none. */
  function SetTool(items: seq<Item>, index: map<string, nat>, id: string, t: Tool): seq<Item> {
    if ToolOf(items, index, id).Some? then items[index[id] := ToolItem(t)] else items
  }

  /** Items and index after a tool event: updated in place, appended, or left alone. */
  function AfterTool(items: seq<Item>, index: map<string, nat>, e: ToolEvent): (seq<Item>, map<string, nat>) {
    if e.id in index then
      (match ToolOf(items, index, e.id)
       case Some(t) => (SetTool(items, index, e.id, Updated(t, e)), index)
       case None => (items, index))
    else
      match Created(e)
      case Some(t) => (items + [ToolItem(t)], index[e.id := |items|])
      case None => (items, index)
  }

  function AfterSubagent(items: seq<Item>, index: map<string, nat>, e: SubagentEvent): seq<Item> {
    match ToolOf(items, index, e.parent)
    case Some(t) => SetTool(items, index, e.parent, WithSubagent(t, e))
    case None => items
  }

  /** Whether a pending question or permission of a tool is settled by an event about it. */
  function Unless(prompt: Option<string>, id: string): Option<string> {
    if prompt == Some(id) then None else prompt
  }

  function PermissionAfter(permission: Option<string>, e: ToolEvent): Option<string> {
    match e
    case NeedsConfirmation(id, _, _) => Some(id)
    case GotConfirmed(id) => Unless(permission, id)
    case GotRejected(id) => Unless(permission, id)
    case _ => permission
  }

  function QuestionAfter(question: Option<string>, e: ToolEvent): Option<string> {
    match e
    case Started(id, name, _, asks) => if name == "AskUserQuestion" && asks then Some(id) else question
    case Completed(id, _, _, _, _) => Unless(question, id)
    case GotFailed(id, _) => Unless(question, id)
    case GotCancelled(id, _) => Unless(question, id)
    case _ => question
  }

  function NotStreaming(items: seq<Item>): (quiet: seq<Item>)
    ensures |quiet| == |items|
    ensures forall i :: 0 <= i < |items| ==>
        quiet[i] == if items[i].Text? then items[i].(isStreaming := false) else items[i]
  {
    seq(|items|, i requires 0 <= i < |items| => if items[i].Text? then items[i].(isStreaming := false) else items[i])
  }

  /** Ends the last message if it is the assistant's: with a closing note, or by just settling its text. */
  function Ended(messages: seq<Message>, note: Option<string>): seq<Message> {
    if messages == [] || messages[|messages| - 1].role != Assistant then messages
    else
      var last := messages[|messages| - 1];
      var items := match note case Some(text) => last.items + [Text(text, false)] case None => NotStreaming(last.items);
      messages[|messages| - 1 := last.(items := items, isStreaming := false, version := last.version + 1)]
  }

  function TurnOver(s: Chat, messages: seq<Message>): Chat {
    s.(messages := messages, turn := None, items := [], index := map[], processing := false, permission := None,
      question := None)
  }

  function Note(id: string, role: Role, content: string): Message {
    Message(id, role, [Text(content, false)], false, 0)
  }

  // ---------- one event ----------

  function Step(s: Chat, e: Event): Chat {
    match e
    case TurnStarted(turn, input, userId, assistantId) =>
      s.(messages := s.messages + [Note(userId, User, input), Message(assistantId, Assistant, [], true, 0)],
         turn := Some(turn), items := [], index := map[], processing := true, messageCount := s.messageCount + 1)
    case TextChunk(text) =>
      var items := WithText(s.items, text);
      s.(items := items, messages := Rebuilt(s.messages, items))
    case ThinkingChunk(text) =>
      var items := WithThinking(s.items, text);
      s.(items := items, messages := Rebuilt(s.messages, items))
    case OfTool(t) =>
      var (items, index) := AfterTool(s.items, s.index, t);
      s.(items := items, index := index, messages := Rebuilt(s.messages, items),
         permission := PermissionAfter(s.permission, t), question := QuestionAfter(s.question, t),
         toolCalls := if t.Started? then s.toolCalls + 1 else s.toolCalls)
    case OfSubagent(t) =>
      if t.SubRound? && t.index == 0 then s
      else
        var items := AfterSubagent(s.items, s.index, t);
        s.(items := items, messages := Rebuilt(s.messages, items))
    case TurnCompleted(rounds) => TurnOver(s, Ended(s.messages, None)).(rounds := s.rounds + rounds)
    case TurnFailed(shown) => TurnOver(s, Ended(s.messages, Some(shown)))
    case TurnCancelled => TurnOver(s, Ended(s.messages, Some("[Cancelled]")))
    case SystemMessage(id, content) => s.(messages := s.messages + [Note(id, System, content)])
    case AssistantMessage(id, content) => s.(messages := s.messages + [Note(id, Assistant, content)])
    case TokenUsage(total) => s.(tokens := total)
    case Clear => s.(messages := [])
  }

  /** The state after the first `n` events. */
  function Run(s: Chat, es: seq<Event>, n: nat): Chat
    requires n <= |es|
  {
    if n == 0 then s else Step(Run(s, es, n - 1), es[n - 1])
  }
}
