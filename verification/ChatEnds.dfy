/** What the chat still shows once a turn is over, and what it has counted. */
module ChatEnds {
  import opened Wrappers
  import opened ChatModel
  import opened ChatFlow

  // ---------- the message of a turn that is over ----------

  /** A streaming message is last. */
  predicate StreamsLast(s: Chat) {
    s.messages != [] && Streams(s.messages[|s.messages| - 1])
  }

  function Last(s: Chat): Message
    requires s.messages != []
  {
    s.messages[|s.messages| - 1]
  }

  /** Text has stopped streaming; tools and thoughts are as they were. */
  predicate Settled(before: Item, after: Item) {
    match before
    case Text(content, _) => after == Text(content, false)
    case Thinking(_) => after == before
    case ToolItem(_) => after == before
  }

  /** Only the last message has changed: it is the same message, no longer streaming, and its version has risen. */
  ghost predicate OnlyLastEnded(before: Chat, after: Chat)
    requires before.messages != []
  {
    && |after.messages| == |before.messages|
    && (forall i :: 0 <= i < |before.messages| - 1 ==> after.messages[i] == before.messages[i])
    && Last(after).id == Last(before).id && Last(after).role == Last(before).role
    && !Last(after).isStreaming && Last(after).version == Last(before).version + 1
  }

  lemma SettledShows(before: seq<Item>, after: seq<Item>)
    requires |before| == |after| && forall i :: 0 <= i < |before| ==> Settled(before[i], after[i])
    ensures Shown(after, |after|) == Shown(before, |before|)
  {
    ShownPrefix(before, after, |before|);
  }

  lemma CompletionSettles(s: Chat, rounds: nat)
    requires Mirrored(s) && StreamsLast(s)
    ensures var after := Step(s, TurnCompleted(rounds));
      && OnlyLastEnded(s, after) && |Last(after).items| == |s.items|
      && forall i :: 0 <= i < |s.items| ==> Settled(s.items[i], Last(after).items[i])
  {
  }

  /**
   * A turn that is completed leaves its message with the whole turn in it: the items spell the
   * turn's history, no text streams any more, tools and thoughts are untouched.
   */
  lemma CompletedTurnStays(s: Chat, es: seq<Event>, n: nat)
    requires n < |es| && Initial(s) && es[n].TurnCompleted? && StreamsLast(Run(s, es, n))
    ensures var before, after := Run(s, es, n), Run(s, es, n + 1);
      && OnlyLastEnded(before, after)
      && var items := Last(after).items;
         && Shown(items, |items|) == History(es, n)
         && |items| == |before.items| && forall i :: 0 <= i < |items| ==> Settled(before.items[i], items[i])
  {
    var before := Run(s, es, n);
    assert Mirrored(before) by {
      RunKeepsSound(s, es, n);
    }
    CompletionSettles(before, es[n].rounds);
    ItemsTellTheTurn(s, es, n);
    SettledShows(before.items, Last(Run(s, es, n + 1)).items);
  }

  /** What is noted when a turn ends early. */
  function NoteOf(e: Event): string {
    if e.TurnFailed? then e.shown else "[Cancelled]"
  }

  lemma BreakNotes(s: Chat, e: Event)
    requires Mirrored(s) && StreamsLast(s) && (e.TurnFailed? || e.TurnCancelled?)
    ensures OnlyLastEnded(s, Step(s, e))
    ensures Last(Step(s, e)).items == s.items + [Text(NoteOf(e), false)]
  {
  }

  /** A turn that fails or is cancelled leaves its message with the whole turn in it, followed by the note. */
  lemma BrokenTurnStays(s: Chat, es: seq<Event>, n: nat)
    requires n < |es| && Initial(s) && (es[n].TurnFailed? || es[n].TurnCancelled?) && StreamsLast(Run(s, es, n))
    ensures var before, after := Run(s, es, n), Run(s, es, n + 1);
      && OnlyLastEnded(before, after)
      && var items := Last(after).items;
         && items == before.items + [Text(NoteOf(es[n]), false)]
         && Shown(items, |items|) == History(es, n) + SaidAll(NoteOf(es[n]))
  {
    var before := Run(s, es, n);
    assert Mirrored(before) by {
      RunKeepsSound(s, es, n);
    }
    BreakNotes(before, es[n]);
    NoteIsShown(s, es, n);
  }

  lemma NoteIsShown(s: Chat, es: seq<Event>, n: nat)
    requires n < |es| && Initial(s)
    ensures var items := Run(s, es, n).items + [Text(NoteOf(es[n]), false)];
            Shown(items, |items|) == History(es, n) + SaidAll(NoteOf(es[n]))
  {
    ItemsTellTheTurn(s, es, n);
    ShownAppend(Run(s, es, n).items, Text(NoteOf(es[n]), false));
  }

  // ---------- text that still streams ----------

  predicate StreamsText(item: Item) {
    item.Text? && item.isStreaming
  }

  ghost predicate TextStreams(items: seq<Item>) {
    exists i {:trigger StreamsText(items[i])} :: 0 <= i < |items| && StreamsText(items[i])
  }

  /** A text chunk has come since the turn's bounds. */
  ghost predicate TextCame(es: seq<Event>, n: nat)
    requires n <= |es|
  {
    exists k {:trigger es[k]} :: 0 <= k < n && es[k].TextChunk? && WithinTurn(es, k, n)
  }

  lemma TextCameStep(es: seq<Event>, n: nat)
    requires n < |es|
    ensures TextCame(es, n + 1) <==> !EndsItems(es[n]) && (TextCame(es, n) || es[n].TextChunk?)
  {
    if TextCame(es, n) && !EndsItems(es[n]) {
      var k :| 0 <= k < n && es[k].TextChunk? && WithinTurn(es, k, n);
      assert WithinTurn(es, k, n + 1);
    }
    if TextCame(es, n + 1) {
      var k :| 0 <= k < n + 1 && es[k].TextChunk? && WithinTurn(es, k, n + 1);
      assert !EndsItems(es[n]);
      assert k < n ==> WithinTurn(es, k, n);
    }
    if es[n].TextChunk? {
      assert WithinTurn(es, n, n + 1);
    }
  }

  /** Within a turn every text streams, and there is one exactly if a chunk has come. */
  ghost predicate TextsStream(items: seq<Item>, came: bool) {
    && (forall i :: 0 <= i < |items| && items[i].Text? ==> items[i].isStreaming)
    && (TextStreams(items) <==> came)
  }

  lemma ReplacedTexts(items: seq<Item>, k: nat, item: Item, came: bool)
    requires TextsStream(items, came) && k < |items|
    requires if items[k].Text? then StreamsText(item) else !item.Text?
    ensures TextsStream(items[k := item], came)
  {
    if TextStreams(items) {
      var i :| 0 <= i < |items| && StreamsText(items[i]);
      assert StreamsText(items[k := item][i]);
    }
    if TextStreams(items[k := item]) {
      var i :| 0 <= i < |items| && StreamsText(items[k := item][i]);
      assert StreamsText(items[i]);
    }
  }

  lemma AppendedTexts(items: seq<Item>, item: Item, came: bool)
    requires TextsStream(items, came) && (item.Text? ==> item.isStreaming)
    ensures TextsStream(items + [item], came || item.Text?)
  {
    if TextStreams(items) {
      var i :| 0 <= i < |items| && StreamsText(items[i]);
      assert StreamsText((items + [item])[i]);
    }
    if item.Text? {
      assert StreamsText((items + [item])[|items|]);
    }
    if TextStreams(items + [item]) && !item.Text? {
      var i :| 0 <= i < |items + [item]| && StreamsText((items + [item])[i]);
      assert StreamsText(items[i]);
    }
  }

  lemma StepStreams(s: Chat, e: Event, came: bool)
    requires IndexExact(s.items, s.index) && TextsStream(s.items, came)
    ensures TextsStream(Step(s, e).items, !EndsItems(e) && (came || e.TextChunk?))
  {
    var n := |s.items|;
    match e
    case TextChunk(text) =>
      if n > 0 && s.items[n - 1].Text? {
        assert StreamsText(s.items[n - 1]);
        ReplacedTexts(s.items, n - 1, s.items[n - 1].(content := s.items[n - 1].content + text), came);
      } else {
        AppendedTexts(s.items, Text(text, true), came);
      }
    case ThinkingChunk(text) =>
      if n > 0 && s.items[n - 1].Thinking? {
        ReplacedTexts(s.items, n - 1, Thinking(s.items[n - 1].content + text), came);
      } else {
        AppendedTexts(s.items, Thinking(text), came);
      }
    case OfTool(t) =>
      assert EntryRight(s.items, s.index, t.id);
      if t.id in s.index {
        ReplacedTexts(s.items, s.index[t.id], ToolItem(Updated(s.items[s.index[t.id]].tool, t)), came);
      } else if Created(t).Some? {
        AppendedTexts(s.items, ToolItem(Created(t).value), came);
      }
    case OfSubagent(t) =>
      assert EntryRight(s.items, s.index, t.parent);
      if t.parent in s.index {
        ReplacedTexts(s.items, s.index[t.parent], ToolItem(WithSubagent(s.items[s.index[t.parent]].tool, t)), came);
      }
    case _ =>
  }

  lemma {:induction false} RunStreams(s: Chat, es: seq<Event>, n: nat)
    requires n <= |es| && Initial(s)
    ensures TextsStream(Run(s, es, n).items, TextCame(es, n))
  {
    if n > 0 {
      RunStreams(s, es, n - 1);
      NextStreams(s, es, n - 1);
    }
  }

  lemma NextStreams(s: Chat, es: seq<Event>, n: nat)
    requires n < |es| && Initial(s)
    ensures TextsStream(Run(s, es, n).items, TextCame(es, n)) ==>
      TextsStream(Run(s, es, n + 1).items, TextCame(es, n + 1))
  {
    var before := Run(s, es, n);
    assert IndexExact(before.items, before.index) by {
      RunKeepsSound(s, es, n);
    }
    if TextsStream(before.items, TextCame(es, n)) {
      StepStreams(before, es[n], TextCame(es, n));
      TextCameStep(es, n);
    }
  }

  /**
   * Of a turn that is completed no text is left marked as streaming. Of one that fails or is
   * cancelled some text is, though the message itself has ended, if and only if any came.
   */
  lemma TextLeftStreamingIff(s: Chat, es: seq<Event>, n: nat)
    requires n < |es| && Initial(s) && EndsTurn(es[n]) && StreamsLast(Run(s, es, n))
    ensures TextStreams(Last(Run(s, es, n + 1)).items) <==> !es[n].TurnCompleted? && TextCame(es, n)
  {
    RunStreams(s, es, n);
    if es[n].TurnCompleted? {
      CompletedTurnStays(s, es, n);
    } else {
      BrokenTurnStays(s, es, n);
      var items, note := Run(s, es, n).items, Text(NoteOf(es[n]), false);
      NoteIsQuiet(items, note);
    }
  }

  lemma NoteIsQuiet(items: seq<Item>, note: Item)
    requires !StreamsText(note)
    ensures TextStreams(items + [note]) <==> TextStreams(items)
  {
    if TextStreams(items) {
      var i :| 0 <= i < |items| && StreamsText(items[i]);
      assert StreamsText((items + [note])[i]);
    }
    if TextStreams(items + [note]) {
      var i :| 0 <= i < |items + [note]| && StreamsText((items + [note])[i]);
      assert StreamsText(items[i]);
    }
  }

  // ---------- the live message ----------

  /** The event posts a message, ends a turn, or clears the chat: the last message may be another one, or over. */
  predicate TouchesLast(e: Event) {
    EndsItems(e) || e.SystemMessage? || e.AssistantMessage? || e.Clear?
  }

  lemma StepStreamsLast(s: Chat, e: Event)
    ensures StreamsLast(Step(s, e)) <==> if TouchesLast(e) then e.TurnStarted? else StreamsLast(s)
    ensures e.TurnStarted? ==> Last(Step(s, e)).id == e.assistantId
    ensures !TouchesLast(e) && StreamsLast(s) ==> Last(Step(s, e)).id == Last(s).id
  {
  }

  /** Event `k` starts a turn, and nothing among the first `n` events has touched the last message since. */
  ghost predicate BeganAt(es: seq<Event>, n: nat, k: nat) {
    k < n <= |es| && es[k].TurnStarted? && forall j {:trigger es[j]} :: k < j < n ==> !TouchesLast(es[j])
  }

  ghost predicate SomeBegan(es: seq<Event>, n: nat) {
    exists k: nat {:trigger BeganAt(es, n, k)} :: BeganAt(es, n, k)
  }

  lemma BeganStep(es: seq<Event>, n: nat)
    requires n < |es|
    ensures SomeBegan(es, n + 1) <==> if TouchesLast(es[n]) then es[n].TurnStarted? else SomeBegan(es, n)
  {
    if es[n].TurnStarted? {
      assert BeganAt(es, n + 1, n);
    }
    if SomeBegan(es, n) && !TouchesLast(es[n]) {
      var k: nat :| BeganAt(es, n, k);
      assert BeganAt(es, n + 1, k);
    }
    if SomeBegan(es, n + 1) {
      var k: nat :| BeganAt(es, n + 1, k);
      assert k < n ==> BeganAt(es, n, k);
    }
  }

  /**
   * The last message streams if and only if a turn has started and nothing has ended it, posted
   * another message or cleared the chat since.
   */
  lemma {:induction false} StreamsLastIff(s: Chat, es: seq<Event>, n: nat)
    requires n <= |es| && Initial(s)
    ensures StreamsLast(Run(s, es, n)) <==> SomeBegan(es, n)
  {
    if n > 0 {
      StreamsLastIff(s, es, n - 1);
      StreamsNext(s, es, n - 1);
      BeganStep(es, n - 1);
    }
  }

  lemma StreamsNext(s: Chat, es: seq<Event>, n: nat)
    requires n < |es|
    ensures StreamsLast(Run(s, es, n + 1)) <==>
              if TouchesLast(es[n]) then es[n].TurnStarted? else StreamsLast(Run(s, es, n))
  {
    StepStreamsLast(Run(s, es, n), es[n]);
  }

  /** It is the message posted for that turn. */
  lemma {:induction false} StreamingIsOwn(s: Chat, es: seq<Event>, n: nat, k: nat)
    requires Initial(s) && BeganAt(es, n, k)
    ensures StreamsLast(Run(s, es, n)) && Last(Run(s, es, n)).id == es[k].assistantId
    decreases n
  {
    StepStreamsLast(Run(s, es, n - 1), es[n - 1]);
    if k < n - 1 {
      assert !TouchesLast(es[n - 1]);
      StreamingIsOwn(s, es, n - 1, k);
    }
  }

  /** A message that streams at the end shows the turn as far as it has come. */
  lemma LiveMessageTells(s: Chat, es: seq<Event>, n: nat)
    requires n <= |es| && Initial(s) && StreamsLast(Run(s, es, n))
    ensures var items := Last(Run(s, es, n)).items; Shown(items, |items|) == History(es, n)
  {
    assert Mirrored(Run(s, es, n)) by {
      RunKeepsSound(s, es, n);
    }
    ItemsTellTheTurn(s, es, n);
  }

  ghost predicate NotCleared(es: seq<Event>, m: nat, n: nat) {
    n <= |es| && forall j {:trigger es[j]} :: m <= j < n ==> !es[j].Clear?
  }

  /** If message `i` is not the last, it stays, and it stays above another. */
  predicate Stays(before: Chat, after: Chat, i: nat) {
    i + 1 < |before.messages| ==> i + 1 < |after.messages| && after.messages[i] == before.messages[i]
  }

  lemma EarlierStay(s: Chat, e: Event, i: nat)
    requires !e.Clear?
    ensures Stays(s, Step(s, e), i)
  {
  }

  predicate StaysAt(states: nat -> Chat, k: nat, i: nat) {
    Stays(states(k), states(k + 1), i)
  }

  lemma {:induction false} StaysAlong(states: nat -> Chat, m: nat, n: nat, i: nat)
    requires m <= n && forall k: nat {:trigger StaysAt(states, k, i)} :: m <= k < n ==> StaysAt(states, k, i)
    ensures Stays(states(m), states(n), i)
    decreases n - m
  {
    if m < n {
      var k: nat := n - 1;
      StaysAlong(states, m, k, i);
      assert StaysAt(states, k, i);
      StaysOn(states(m), states(k), states(k + 1), i);
    }
  }

  lemma StaysOn(a: Chat, b: Chat, c: Chat, i: nat)
    requires Stays(a, b, i) && Stays(b, c, i)
    ensures Stays(a, c, i)
  {
  }

  /**
   * Until the chat is cleared only its last message ever changes. So a message posted during a
   * turn cuts the turn's own message off: it stays as it was, marked as streaming, for good.
   */
  lemma EarlierMessagesStay(s: Chat, es: seq<Event>, m: nat, n: nat, i: nat)
    requires m <= n && NotCleared(es, m, n)
    ensures Stays(Run(s, es, m), Run(s, es, n), i)
  {
    var states := (k: nat) => if k <= |es| then Run(s, es, k) else s;
    forall k: nat | m <= k < n ensures StaysAt(states, k, i) {
      assert !es[k].Clear?;
      EarlierStay(Run(s, es, k), es[k], i);
    }
    StaysAlong(states, m, n, i);
  }

  lemma PostAppends(s: Chat, e: Event)
    requires s.messages != [] && (e.SystemMessage? || e.AssistantMessage?)
    ensures |Step(s, e).messages| == |s.messages| + 1 && Step(s, e).messages[|s.messages| - 1] == Last(s)
  {
  }

  /** A message has been posted below the last one. */
  predicate PostedBelow(before: Chat, after: Chat) {
    && before.messages != [] && |after.messages| == |before.messages| + 1
    && after.messages[|before.messages| - 1] == Last(before)
  }

  /** What was the last message is still there, as it was. */
  predicate LeftAsItWas(before: Chat, later: Chat) {
    && 0 < |before.messages| <= |later.messages|
    && later.messages[|before.messages| - 1] == Last(before)
  }

  lemma PostIsAppended(s: Chat, es: seq<Event>, k: nat)
    requires k < |es| && StreamsLast(Run(s, es, k)) && (es[k].SystemMessage? || es[k].AssistantMessage?)
    ensures PostedBelow(Run(s, es, k), Run(s, es, k + 1))
  {
    PostAppends(Run(s, es, k), es[k]);
  }

  /** A message posted while a turn's message streams cuts that one off. */
  lemma PostCutsTurnOff(s: Chat, es: seq<Event>, k: nat, n: nat)
    requires k < n && NotCleared(es, k, n) && (es[k].SystemMessage? || es[k].AssistantMessage?)
    requires StreamsLast(Run(s, es, k))
    ensures LeftAsItWas(Run(s, es, k), Run(s, es, n))
  {
    PostIsAppended(s, es, k);
    EarlierMessagesStay(s, es, k + 1, n, |Run(s, es, k).messages| - 1);
    CutOffStays(Run(s, es, k), Run(s, es, k + 1), Run(s, es, n));
  }

  lemma CutOffStays(before: Chat, posted: Chat, later: Chat)
    requires PostedBelow(before, posted) && Stays(posted, later, |before.messages| - 1)
    ensures LeftAsItWas(before, later)
  {
  }
}
