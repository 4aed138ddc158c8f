/** The chat display state, updated in place by events. */
module ChatState {
  import opened Wrappers
  import opened ChatModel
  import Json
  import ChatFlow

  class ChatState {
    var messages: seq<Message>
    var messageCount: nat
    var toolCalls: nat
    var totalRounds: nat
    var totalTokens: nat
    var currentTurnId: Option<string>
    var currentFlowItems: seq<Item>
    var toolIndex: map<string, nat>
    var isProcessing: bool
    var permissionPrompt: Option<string>
    var questionPrompt: Option<string>

    ghost function Model(): Chat
      reads this
    {
      Chat(messages, currentTurnId, currentFlowItems, toolIndex, isProcessing, permissionPrompt, questionPrompt,
           messageCount, toolCalls, totalRounds, totalTokens)
    }

    constructor ()
      ensures Model() == EMPTY_CHAT
    {
      messages, currentTurnId, currentFlowItems, toolIndex := [], None, [], map[];
      isProcessing, permissionPrompt, questionPrompt := false, None, None;
      messageCount, toolCalls, totalRounds, totalTokens := 0, 0, 0, 0;
    }

    // ---------- turns ----------

    method HandleTurnStarted(turn: string, input: string, userId: string, assistantId: string)
      modifies this
      ensures Model() == Step(old(Model()), TurnStarted(turn, input, userId, assistantId))
    {
      currentTurnId := Some(turn);
      currentFlowItems := [];
      toolIndex := map[];
      isProcessing := true;
      messages := messages + [Message(userId, User, [Text(input, false)], false, 0)];
      messageCount := messageCount + 1;
      messages := messages + [Message(assistantId, Assistant, [], true, 0)];
    }

    /** What every end of a turn resets. */
    method ClearTurn()
      modifies this`currentTurnId, this`currentFlowItems, this`toolIndex, this`isProcessing, this`permissionPrompt,
          this`questionPrompt
      ensures Model() == TurnOver(old(Model()), messages)
    {
      currentTurnId := None;
      currentFlowItems := [];
      toolIndex := map[];
      isProcessing := false;
      permissionPrompt := None;
      questionPrompt := None;
    }

    method HandleTurnCompleted(rounds: nat)
      modifies this
      ensures Model() == Step(old(Model()), TurnCompleted(rounds))
    {
      if messages != [] && messages[|messages| - 1].role == Assistant {
        var last := messages[|messages| - 1];
        var items := SettleText(last.items);
        last := last.(items := items, isStreaming := false, version := last.version + 1);
        messages := messages[|messages| - 1 := last];
      }
      totalRounds := totalRounds + rounds;
      ClearTurn();
    }

    /** Marks every text item as no longer streaming. */
    method SettleText(items: seq<Item>) returns (quiet: seq<Item>)
      ensures quiet == NotStreaming(items)
    {
      quiet := items;
      var i := 0;
      while i < |quiet|
        invariant 0 <= i <= |quiet| == |items|
        invariant quiet[..i] == NotStreaming(items)[..i]
        invariant quiet[i..] == items[i..]
      {
        assert items[i] == quiet[i];
        if quiet[i].Text? {
          quiet := quiet[i := quiet[i].(isStreaming := false)];
        }
        i := i + 1;
      }
    }

    /** Ends the last message, if it is the assistant's, with a closing note. */
    method Close(note: string)
      modifies this`messages
      ensures messages == Ended(old(messages), Some(note))
    {
      if messages != [] && messages[|messages| - 1].role == Assistant {
        var last := messages[|messages| - 1];
        last := last.(isStreaming := false);
        last := last.(items := last.items + [Text(note, false)]);
        last := last.(version := last.version + 1);
        messages := messages[|messages| - 1 := last];
      }
    }

    method HandleTurnFailed(shown: string)
      modifies this
      ensures Model() == Step(old(Model()), TurnFailed(shown))
    {
      Close(shown);
      ClearTurn();
    }

    method HandleTurnCancelled()
      modifies this
      ensures Model() == Step(old(Model()), TurnCancelled)
    {
      Close("[Cancelled]");
      ClearTurn();
    }

    // ---------- content ----------

    /** Shows the turn's items in the message being streamed. */
    method RebuildStreamingMessage()
      modifies this`messages
      ensures messages == Rebuilt(old(messages), currentFlowItems)
    {
      if messages != [] && messages[|messages| - 1].role == Assistant && messages[|messages| - 1].isStreaming {
        var last := messages[|messages| - 1];
        messages := messages[|messages| - 1 := last.(items := currentFlowItems, version := last.version + 1)];
      }
    }

    method HandleTextChunk(text: string)
      modifies this
      ensures Model() == Step(old(Model()), TextChunk(text))
    {
      var n := |currentFlowItems|;
      if n > 0 && currentFlowItems[n - 1].Text? {
        var last := currentFlowItems[n - 1];
        currentFlowItems := currentFlowItems[n - 1 := last.(content := last.content + text)];
      } else {
        currentFlowItems := currentFlowItems + [Text(text, true)];
      }
      RebuildStreamingMessage();
    }

    method HandleThinkingChunk(text: string)
      modifies this
      ensures Model() == Step(old(Model()), ThinkingChunk(text))
    {
      var n := |currentFlowItems|;
      var appended := false;
      if n > 0 && currentFlowItems[n - 1].Thinking? {
        currentFlowItems := currentFlowItems[n - 1 := Thinking(currentFlowItems[n - 1].content + text)];
        appended := true;
      }
      if !appended {
        currentFlowItems := currentFlowItems + [Thinking(text)];
      }
      RebuildStreamingMessage();
    }

    // ---------- tools ----------

    /** Changes the tool shown under an id; nothing happens if there is none. */
    method UpdateTool(id: string, change: Tool -> Tool)
      modifies this`currentFlowItems
      ensures currentFlowItems == match ToolOf(old(currentFlowItems), toolIndex, id)
                                  case Some(t) => SetTool(old(currentFlowItems), toolIndex, id, change(t))
                                  case None => old(currentFlowItems)
    {
      if id in toolIndex {
        var at := toolIndex[id];
        if at < |currentFlowItems| && currentFlowItems[at].ToolItem? {
          currentFlowItems := currentFlowItems[at := ToolItem(change(currentFlowItems[at].tool))];
        }
      }
    }

    /** Changes the tool shown under an id, or shows a new one at the end. */
    method InsertOrUpdateTool(id: string, change: Tool -> Tool, create: Tool)
      modifies this`currentFlowItems, this`toolIndex
      ensures old(id in toolIndex) ==> toolIndex == old(toolIndex)
      ensures old(id in toolIndex) ==>
                currentFlowItems == match ToolOf(old(currentFlowItems), toolIndex, id)
                                    case Some(t) => SetTool(old(currentFlowItems), toolIndex, id, change(t))
                                    case None => old(currentFlowItems)
      ensures old(id !in toolIndex) ==> toolIndex == old(toolIndex)[id := |old(currentFlowItems)|]
      ensures old(id !in toolIndex) ==> currentFlowItems == old(currentFlowItems) + [ToolItem(create)]
    {
      if id in toolIndex {
        UpdateTool(id, change);
      } else {
        var at := |currentFlowItems|;
        currentFlowItems := currentFlowItems + [ToolItem(create)];
        toolIndex := toolIndex[id := at];
      }
    }

    /** Takes back the permission prompt if it is about this tool. */
    method ClearPermission(id: string)
      modifies this`permissionPrompt
      ensures permissionPrompt == Unless(old(permissionPrompt), id)
    {
      if permissionPrompt == Some(id) {
        permissionPrompt := None;
      }
    }

    /** Takes back the question prompt if it is about this tool. */
    method ClearQuestion(id: string)
      modifies this`questionPrompt
      ensures questionPrompt == Unless(old(questionPrompt), id)
    {
      if questionPrompt == Some(id) {
        questionPrompt := None;
      }
    }

    method HandleDetected(id: string, name: string)
      modifies this
      ensures Model() == Step(old(Model()), OfTool(Detected(id, name)))
    {
      InsertOrUpdateTool(id, t => t, NewTool(id, name, Json.Null, EarlyDetected));
      RebuildStreamingMessage();
    }

    method HandleStarted(id: string, name: string, params: Json.Value, asks: bool)
      modifies this
      ensures Model() == Step(old(Model()), OfTool(Started(id, name, params, asks)))
    {
      InsertOrUpdateTool(id, (t: Tool) => t.(status := Running, parameters := params),
        NewTool(id, name, params, Running));
      toolCalls := toolCalls + 1;
      if name == "AskUserQuestion" {
        if asks {
          questionPrompt := Some(id);
        }
      }
      RebuildStreamingMessage();
    }

    method HandleCompleted(id: string, name: string, result: Json.Value, summary: string, durationMs: nat)
      modifies this
      ensures Model() == Step(old(Model()), OfTool(Completed(id, name, result, summary, durationMs)))
    {
      var status := if ReportsFailure(name, result) then Failed else Success;
      UpdateTool(id, (t: Tool) =>
        t.(status := status, result := Some(summary), metadata := Some(result), durationMs := Some(durationMs)));
      ClearQuestion(id);
      RebuildStreamingMessage();
    }

    /** Events that lead up to execution or report its progress. */
    method HandleStage(e: ToolEvent)
      requires e.Partial? || e.Queueing? || e.Awaiting? || e.Progressed? || e.StreamedTo?
      modifies this
      ensures Model() == Step(old(Model()), OfTool(e))
    {
      match e {
        case Partial(id, shown) =>
          UpdateTool(id, (t: Tool) =>
            (if IsExecutionPhase(t.status) then t else t.(status := ParamsPartial)).(progress := Some(shown)));
        case Queueing(id, shown) =>
          UpdateTool(id, (t: Tool) =>
            (if IsExecutionPhase(t.status) then t else t.(status := Queued)).(progress := Some(shown)));
        case Awaiting(id, shown) =>
          UpdateTool(id, (t: Tool) =>
            (if IsExecutionPhase(t.status) then t else t.(status := Waiting)).(progress := Some(shown)));
        case Progressed(id, message) =>
          UpdateTool(id, (t: Tool) => t.(progress := Some(message)));
        case StreamedTo(id, shown) =>
          UpdateTool(id, (t: Tool) => t.(status := Streaming, progress := Some(shown)));
      }
      RebuildStreamingMessage();
    }

    method HandleConfirmationNeeded(id: string, name: string, params: Json.Value)
      modifies this
      ensures Model() == Step(old(Model()), OfTool(NeedsConfirmation(id, name, params)))
    {
      UpdateTool(id, (t: Tool) => t.(status := ConfirmationNeeded, progress := Some("Waiting for user confirmation")));
      permissionPrompt := Some(id);
      RebuildStreamingMessage();
    }

    method HandleConfirmed(id: string)
      modifies this
      ensures Model() == Step(old(Model()), OfTool(GotConfirmed(id)))
    {
      UpdateTool(id, (t: Tool) => t.(status := Confirmed));
      ClearPermission(id);
      RebuildStreamingMessage();
    }

    method HandleRejected(id: string)
      modifies this
      ensures Model() == Step(old(Model()), OfTool(GotRejected(id)))
    {
      UpdateTool(id, (t: Tool) => t.(status := Rejected, result := Some("User rejected execution")));
      ClearPermission(id);
      RebuildStreamingMessage();
    }

    method HandleFailed(id: string, error: string)
      modifies this
      ensures Model() == Step(old(Model()), OfTool(GotFailed(id, error)))
    {
      UpdateTool(id, (t: Tool) => t.(status := Failed, result := Some(error)));
      ClearQuestion(id);
      RebuildStreamingMessage();
    }

    method HandleCancelled(id: string, reason: string)
      modifies this
      ensures Model() == Step(old(Model()), OfTool(GotCancelled(id, reason)))
    {
      UpdateTool(id, (t: Tool) => t.(status := Cancelled, result := Some(reason)));
      ClearQuestion(id);
      RebuildStreamingMessage();
    }

    method HandleToolEvent(e: ToolEvent)
      modifies this
      ensures Model() == Step(old(Model()), OfTool(e))
    {
      match e {
        case Detected(id, name) => HandleDetected(id, name);
        case Started(id, name, params, asks) => HandleStarted(id, name, params, asks);
        case Completed(id, name, result, summary, durationMs) => HandleCompleted(id, name, result, summary, durationMs);
        case NeedsConfirmation(id, name, params) => HandleConfirmationNeeded(id, name, params);
        case GotConfirmed(id) => HandleConfirmed(id);
        case GotRejected(id) => HandleRejected(id);
        case GotFailed(id, error) => HandleFailed(id, error);
        case GotCancelled(id, reason) => HandleCancelled(id, reason);
        case _ => HandleStage(e);
      }
    }

    /** Shows on a task's card what its subagent is doing. */
    method HandleSubagentEvent(e: SubagentEvent)
      modifies this
      ensures Model() == Step(old(Model()), OfSubagent(e))
    {
      if e.SubRound? && e.index == 0 {
        return;
      }
      UpdateTool(e.parent, (t: Tool) => WithSubagent(t, e));
      RebuildStreamingMessage();
    }

    // ---------- local messages ----------

    method HandleTokenUsage(total: nat)
      modifies this
      ensures Model() == Step(old(Model()), TokenUsage(total))
    {
      totalTokens := total;
    }

    method AddSystemMessage(id: string, content: string)
      modifies this
      ensures Model() == Step(old(Model()), SystemMessage(id, content))
    {
      messages := messages + [Message(id, System, [Text(content, false)], false, 0)];
    }

    method AddAssistantMessage(id: string, content: string)
      modifies this
      ensures Model() == Step(old(Model()), AssistantMessage(id, content))
    {
      messages := messages + [Message(id, Assistant, [Text(content, false)], false, 0)];
    }

    method ClearMessages()
      modifies this
      ensures Model() == Step(old(Model()), Clear)
    {
      messages := [];
    }

    // ---------- any run ----------

    method Handle(e: Event)
      modifies this
      ensures Model() == Step(old(Model()), e)
    {
      match e {
        case TurnStarted(turn, input, userId, assistantId) => HandleTurnStarted(turn, input, userId, assistantId);
        case TextChunk(text) => HandleTextChunk(text);
        case ThinkingChunk(text) => HandleThinkingChunk(text);
        case OfTool(tool) => HandleToolEvent(tool);
        case OfSubagent(subagent) => HandleSubagentEvent(subagent);
        case TurnCompleted(rounds) => HandleTurnCompleted(rounds);
        case TurnFailed(shown) => HandleTurnFailed(shown);
        case TurnCancelled => HandleTurnCancelled();
        case SystemMessage(id, content) => AddSystemMessage(id, content);
        case AssistantMessage(id, content) => AddAssistantMessage(id, content);
        case TokenUsage(total) => HandleTokenUsage(total);
        case Clear => ClearMessages();
      }
    }

    /** Whatever events a chat receives, it follows the run of its model and stays sound. */
    method Replay(events: seq<Event>)
      requires ChatFlow.Initial(Model()) || ChatFlow.Sound(Model())
      modifies this
      ensures Model() == Run(old(Model()), events, |events|)
      ensures ChatFlow.Sound(Model())
    {
      for n := 0 to |events|
        invariant Model() == Run(old(Model()), events, n)
      {
        Handle(events[n]);
      }
      ChatFlow.RunKeepsSound(old(Model()), events, |events|);
    }
  }
}
