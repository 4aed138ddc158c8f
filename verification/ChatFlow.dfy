/** What every run of events keeps of the turn being shown: its items, their index and its message. */
module ChatFlow {
  import opened Wrappers
  import opened ChatModel

  // ---------- invariants ----------

  ghost predicate EntryRight(items: seq<Item>, index: map<string, nat>, id: string) {
    id in index ==> index[id] < |items| && items[index[id]].ToolItem? && items[index[id]].tool.id == id
  }

  ghost predicate ItemListed(items: seq<Item>, index: map<string, nat>, i: nat) {
    i < |items| && items[i].ToolItem? ==> items[i].tool.id in index && index[items[i].tool.id] == i
  }

  /** The index names every tool item, each at its only position, and nothing else. */
  ghost predicate IndexExact(items: seq<Item>, index: map<string, nat>) {
    && (forall id {:trigger EntryRight(items, index, id)} :: EntryRight(items, index, id))
    && (forall i: nat {:trigger ItemListed(items, index, i)} :: ItemListed(items, index, i))
  }

  predicate SameKind(a: Item, b: Item) {
    (a.Text? && b.Text?) || (a.Thinking? && b.Thinking?)
  }

  ghost predicate Apart(items: seq<Item>, i: nat) {
    i + 1 < |items| ==> !SameKind(items[i], items[i + 1])
  }

  /** Neighbouring texts, and neighbouring thoughts, have been joined. */
  ghost predicate NoneAdjacent(items: seq<Item>) {
    forall i: nat {:trigger Apart(items, i)} :: Apart(items, i)
  }

  predicate Streams(m: Message) {
    m.role == Assistant && m.isStreaming
  }

  /** A message being streamed at the end shows exactly the turn's items. */
  predicate Mirrored(s: Chat) {
    s.messages != [] && Streams(s.messages[|s.messages| - 1]) ==> s.messages[|s.messages| - 1].items == s.items
  }

  ghost predicate Sound(s: Chat) {
    IndexExact(s.items, s.index) && NoneAdjacent(s.items) && Mirrored(s)
  }

  /** A chat before its first event: new, or restored with finished messages. */
  ghost predicate Initial(s: Chat) {
    && s.items == [] && s.index == map[]
    && forall i :: 0 <= i < |s.messages| ==> !s.messages[i].isStreaming
  }

  // ---------- finding a tool ----------

  /** A linear search for the tool with an id. */
  function Scan(items: seq<Item>, id: string, n: nat): Option<Tool>
    requires n <= |items|
  {
    if n == 0 then None
    else if items[n - 1].ToolItem? && items[n - 1].tool.id == id then Some(items[n - 1].tool)
    else Scan(items, id, n - 1)
  }

  lemma {:induction false} ScanFinds(items: seq<Item>, index: map<string, nat>, id: string, n: nat)
    requires n <= |items| && IndexExact(items, index)
    ensures Scan(items, id, n) == if id in index && index[id] < n then ToolOf(items, index, id) else None
  {
    assert EntryRight(items, index, id);
    if n > 0 {
      ScanFinds(items, index, id, n - 1);
      assert ItemListed(items, index, n - 1);
    }
  }

  /** Looking a tool up through the index is searching for it. */
  lemma LookupIsSearch(s: Chat, id: string)
    requires IndexExact(s.items, s.index)
    ensures ToolOf(s.items, s.index, id) == Scan(s.items, id, |s.items|)
    ensures id in s.index <==> ToolOf(s.items, s.index, id).Some?
    ensures ToolOf(s.items, s.index, id).Some? ==> ToolOf(s.items, s.index, id).value.id == id
  {
    ScanFinds(s.items, s.index, id, |s.items|);
    assert EntryRight(s.items, s.index, id);
  }

  // ---------- one event keeps the invariants ----------

  /** Replacing an item by one of the same kind, and the same tool. */
  predicate SameSlot(a: Item, b: Item) {
    SameKind(a, b) || (a.ToolItem? && b.ToolItem? && a.tool.id == b.tool.id)
  }

  lemma ReplaceKeeps(items: seq<Item>, index: map<string, nat>, k: nat, item: Item)
    requires k < |items| && SameSlot(items[k], item)
    requires IndexExact(items, index) && NoneAdjacent(items)
    ensures IndexExact(items[k := item], index) && NoneAdjacent(items[k := item])
  {
    var after := items[k := item];
    forall id ensures EntryRight(after, index, id) {
      assert EntryRight(items, index, id);
    }
    forall i: nat ensures ItemListed(after, index, i) {
      assert ItemListed(items, index, i);
    }
    forall i: nat ensures Apart(after, i) {
      assert Apart(items, i);
    }
  }

  lemma AppendKeeps(items: seq<Item>, index: map<string, nat>, item: Item)
    requires IndexExact(items, index) && NoneAdjacent(items)
    requires items != [] ==> !SameKind(items[|items| - 1], item)
    requires item.ToolItem? ==> item.tool.id !in index
    ensures NoneAdjacent(items + [item])
    ensures IndexExact(items + [item], if item.ToolItem? then index[item.tool.id := |items|] else index)
  {
    var after := items + [item];
    var listed := if item.ToolItem? then index[item.tool.id := |items|] else index;
    forall id ensures EntryRight(after, listed, id) {
      assert EntryRight(items, index, id);
    }
    forall i: nat ensures ItemListed(after, listed, i) {
      assert ItemListed(items, index, i);
    }
    forall i: nat ensures Apart(after, i) {
      assert Apart(items, i);
    }
  }

  lemma SetToolKeeps(items: seq<Item>, index: map<string, nat>, id: string, t: Tool)
    requires IndexExact(items, index) && NoneAdjacent(items) && t.id == id
    ensures IndexExact(SetTool(items, index, id, t), index) && NoneAdjacent(SetTool(items, index, id, t))
  {
    if ToolOf(items, index, id).Some? {
      assert EntryRight(items, index, id);
      ReplaceKeeps(items, index, index[id], ToolItem(t));
    }
  }

  lemma ToolEventKeeps(items: seq<Item>, index: map<string, nat>, e: ToolEvent)
    requires IndexExact(items, index) && NoneAdjacent(items)
    ensures IndexExact(AfterTool(items, index, e).0, AfterTool(items, index, e).1)
    ensures NoneAdjacent(AfterTool(items, index, e).0)
  {
    assert EntryRight(items, index, e.id);
    if e.id in index {
      SetToolKeeps(items, index, e.id, Updated(items[index[e.id]].tool, e));
    } else if Created(e).Some? {
      AppendKeeps(items, index, ToolItem(Created(e).value));
    }
  }

  /** The items and index a step leaves. */
  lemma ItemsStaySound(s: Chat, e: Event)
    requires IndexExact(s.items, s.index) && NoneAdjacent(s.items)
    ensures IndexExact(Step(s, e).items, Step(s, e).index) && NoneAdjacent(Step(s, e).items)
  {
    match e
    case TextChunk(text) =>
      if s.items != [] && s.items[|s.items| - 1].Text? {
        ReplaceKeeps(s.items, s.index, |s.items| - 1,
          s.items[|s.items| - 1].(content := s.items[|s.items| - 1].content + text));
      } else {
        AppendKeeps(s.items, s.index, Text(text, true));
      }
    case ThinkingChunk(text) =>
      if s.items != [] && s.items[|s.items| - 1].Thinking? {
        ReplaceKeeps(s.items, s.index, |s.items| - 1, Thinking(s.items[|s.items| - 1].content + text));
      } else {
        AppendKeeps(s.items, s.index, Thinking(text));
      }
    case OfTool(t) => ToolEventKeeps(s.items, s.index, t);
    case OfSubagent(t) =>
      assert EntryRight(s.items, s.index, t.parent);
      if t.parent in s.index {
        SetToolKeeps(s.items, s.index, t.parent, WithSubagent(s.items[s.index[t.parent]].tool, t));
      }
    case _ =>
  }

  lemma StepKeepsSound(s: Chat, e: Event)
    requires Sound(s)
    ensures Sound(Step(s, e))
  {
    ItemsStaySound(s, e);
  }

  /**
   * In every reachable state the index is exact, nothing mergeable is adjacent, and a streaming
   * message mirrors the turn.
   */
  lemma {:induction false} RunKeepsSound(s: Chat, es: seq<Event>, n: nat)
    requires n <= |es| && (Initial(s) || Sound(s))
    ensures Sound(Run(s, es, n))
  {
    if n > 0 {
      RunKeepsSound(s, es, n - 1);
      StepKeepsSound(Run(s, es, n - 1), es[n - 1]);
    }
  }

  // ---------- the turn in chronological order ----------

  /** What a turn shows, character by character and tool by tool. */
  datatype Glyph = Said(c: char) | Thought(c: char) | Called(id: string)

  function SaidAll(text: string): (glyphs: seq<Glyph>)
    ensures |glyphs| == |text| && forall i :: 0 <= i < |text| ==> glyphs[i] == Said(text[i])
  {
    seq(|text|, i requires 0 <= i < |text| => Said(text[i]))
  }

  function ThoughtAll(text: string): (glyphs: seq<Glyph>)
    ensures |glyphs| == |text| && forall i :: 0 <= i < |text| ==> glyphs[i] == Thought(text[i])
  {
    seq(|text|, i requires 0 <= i < |text| => Thought(text[i]))
  }

  function GlyphsOf(item: Item): seq<Glyph> {
    match item
    case Text(content, _) => SaidAll(content)
    case Thinking(content) => ThoughtAll(content)
    case ToolItem(tool) => [Called(tool.id)]
  }

  /** The first `n` items written out. */
  function Shown(items: seq<Item>, n: nat): seq<Glyph>
    requires n <= |items|
  {
    if n == 0 then [] else Shown(items, n - 1) + GlyphsOf(items[n - 1])
  }

  predicate EndsItems(e: Event) {
    e.TurnStarted? || e.TurnCompleted? || e.TurnFailed? || e.TurnCancelled?
  }

  predicate EndsTurn(e: Event) {
    EndsItems(e) && !e.TurnStarted?
  }

  /** What the turn shows once an event has come after `before`; a tool appears where it was first announced. */
  function Told(before: seq<Glyph>, e: Event): seq<Glyph> {
    if EndsItems(e) then []
    else if e.TextChunk? then before + SaidAll(e.text)
    else if e.ThinkingChunk? then before + ThoughtAll(e.text)
    else if e.OfTool? && (e.tool.Detected? || e.tool.Started?) && Called(e.tool.id) !in before
    then before + [Called(e.tool.id)]
    else before
  }

  /** What has happened since the turn's bounds, in the order it happened. */
  function History(es: seq<Event>, n: nat): seq<Glyph>
    requires n <= |es|
  {
    if n == 0 then [] else Told(History(es, n - 1), es[n - 1])
  }

  ghost predicate ShowsSame(items: seq<Item>, more: seq<Item>, i: nat) {
    i < |items| && i < |more| && GlyphsOf(items[i]) == GlyphsOf(more[i])
  }

  lemma {:induction false} ShownPrefix(items: seq<Item>, more: seq<Item>, n: nat)
    requires n <= |items| && n <= |more| && forall i: nat {:trigger ShowsSame(items, more, i)} :: i < n ==>
        ShowsSame(items, more, i)
    ensures Shown(items, n) == Shown(more, n)
  {
    if n > 0 {
      ShownPrefix(items, more, n - 1);
      assert ShowsSame(items, more, n - 1);
    }
  }

  lemma ShownReplace(items: seq<Item>, k: nat, item: Item, n: nat)
    requires k < |items| && n <= |items| && GlyphsOf(item) == GlyphsOf(items[k])
    ensures Shown(items[k := item], n) == Shown(items, n)
  {
    ShownPrefix(items[k := item], items, n);
  }

  lemma ShownAppend(items: seq<Item>, item: Item)
    ensures Shown(items + [item], |items| + 1) == Shown(items, |items|) + GlyphsOf(item)
  {
    ShownPrefix(items, items + [item], |items|);
  }

  /** Text added to the last item follows everything shown so far. */
  lemma ShownGrow(items: seq<Item>, n: nat, item: Item, glyphs: seq<Glyph>, more: seq<Glyph>)
    requires |items| == n + 1 && GlyphsOf(items[n]) == glyphs && GlyphsOf(item) == glyphs + more
    ensures Shown(items[n := item], n + 1) == Shown(items, n + 1) + more
  {
    ShownPrefix(items, items[n := item], n);
    assert Shown(items[n := item], n + 1) == Shown(items, n) + (glyphs + more);
    assert Shown(items, n + 1) == Shown(items, n) + glyphs;
  }

  lemma {:induction false} CalledIffIndexed(items: seq<Item>, index: map<string, nat>, id: string, n: nat)
    requires IndexExact(items, index) && n <= |items|
    ensures Called(id) in Shown(items, n) <==> id in index && index[id] < n
  {
    assert EntryRight(items, index, id);
    if n > 0 {
      CalledIffIndexed(items, index, id, n - 1);
      assert ItemListed(items, index, n - 1);
    }
  }

  lemma TextShows(items: seq<Item>, text: string)
    ensures Shown(WithText(items, text), |WithText(items, text)|) == Shown(items, |items|) + SaidAll(text)
  {
    if items != [] && items[|items| - 1].Text? {
      var last := items[|items| - 1];
      assert SaidAll(last.content + text) == SaidAll(last.content) + SaidAll(text);
      ShownGrow(items, |items| - 1, last.(content := last.content + text), SaidAll(last.content), SaidAll(text));
    } else {
      ShownAppend(items, Text(text, true));
    }
  }

  lemma ThinkingShows(items: seq<Item>, text: string)
    ensures Shown(WithThinking(items, text), |WithThinking(items, text)|) == Shown(items, |items|) + ThoughtAll(text)
  {
    if items != [] && items[|items| - 1].Thinking? {
      var last := items[|items| - 1];
      assert ThoughtAll(last.content + text) == ThoughtAll(last.content) + ThoughtAll(text);
      ShownGrow(items, |items| - 1, Thinking(last.content + text), ThoughtAll(last.content), ThoughtAll(text));
    } else {
      ShownAppend(items, Thinking(text));
    }
  }

  lemma SetToolShows(items: seq<Item>, index: map<string, nat>, id: string, t: Tool)
    requires IndexExact(items, index) && t.id == id
    ensures |SetTool(items, index, id, t)| == |items|
    ensures Shown(SetTool(items, index, id, t), |items|) == Shown(items, |items|)
  {
    assert EntryRight(items, index, id);
    if ToolOf(items, index, id).Some? {
      ShownReplace(items, index[id], ToolItem(t), |items|);
    }
  }

  lemma ToolShows(items: seq<Item>, index: map<string, nat>, e: ToolEvent)
    requires IndexExact(items, index)
    ensures var after := AfterTool(items, index, e).0;
            Shown(after, |after|) == Shown(items, |items|) +
              if (e.Detected? || e.Started?) && Called(e.id) !in Shown(items, |items|) then [Called(e.id)] else []
  {
    CalledIffIndexed(items, index, e.id, |items|);
    assert EntryRight(items, index, e.id);
    if e.id in index {
      KnownToolShows(items, index, e);
    } else if Created(e).Some? {
      ShownAppend(items, ToolItem(Created(e).value));
    }
  }

  lemma KnownToolShows(items: seq<Item>, index: map<string, nat>, e: ToolEvent)
    requires IndexExact(items, index) && e.id in index
    ensures var after := AfterTool(items, index, e).0; Shown(after, |after|) == Shown(items, |items|)
  {
    assert EntryRight(items, index, e.id);
    SetToolShows(items, index, e.id, Updated(items[index[e.id]].tool, e));
  }

  lemma SubagentShows(items: seq<Item>, index: map<string, nat>, e: SubagentEvent)
    requires IndexExact(items, index)
    ensures var after := AfterSubagent(items, index, e); Shown(after, |after|) == Shown(items, |items|)
  {
    assert EntryRight(items, index, e.parent);
    if e.parent in index {
      SetToolShows(items, index, e.parent, WithSubagent(items[index[e.parent]].tool, e));
    }
  }

  lemma StepTells(s: Chat, e: Event)
    requires IndexExact(s.items, s.index)
    ensures Shown(Step(s, e).items, |Step(s, e).items|) == Told(Shown(s.items, |s.items|), e)
  {
    match e
    case TextChunk(text) => TextShows(s.items, text);
    case ThinkingChunk(text) => ThinkingShows(s.items, text);
    case OfTool(t) => ToolShows(s.items, s.index, t);
    case OfSubagent(t) => SubagentShows(s.items, s.index, t);
    case _ =>
  }

  /** The items are the turn's history in order: every character once, every tool where it was first announced. */
  lemma {:induction false} ItemsTellTheTurn(s: Chat, es: seq<Event>, n: nat)
    requires n <= |es| && Initial(s)
    ensures Shown(Run(s, es, n).items, |Run(s, es, n).items|) == History(es, n)
  {
    if n > 0 {
      ItemsTellTheTurn(s, es, n - 1);
      var before := Run(s, es, n - 1);
      assert IndexExact(before.items, before.index) by {
        RunKeepsSound(s, es, n - 1);
      }
      StepTells(before, es[n - 1]);
      assert Run(s, es, n) == Step(before, es[n - 1]);
      assert History(es, n) == Told(History(es, n - 1), es[n - 1]);
    }
  }

  // ---------- the text of a turn ----------

  function Texts(items: seq<Item>, n: nat): string
    requires n <= |items|
  {
    if n == 0 then "" else Texts(items, n - 1) + if items[n - 1].Text? then items[n - 1].content else ""
  }

  /** The text chunks received since the turn's bounds. */
  function TextSince(es: seq<Event>, n: nat): string
    requires n <= |es|
  {
    if n == 0 then ""
    else if EndsItems(es[n - 1]) then ""
    else if es[n - 1].TextChunk? then TextSince(es, n - 1) + es[n - 1].text
    else TextSince(es, n - 1)
  }

  function Spoken(glyphs: seq<Glyph>): string {
    if glyphs == [] then ""
    else Spoken(glyphs[..|glyphs| - 1]) + if glyphs[|glyphs| - 1].Said? then [glyphs[|glyphs| - 1].c] else ""
  }

  lemma {:induction false} SpokenJoins(a: seq<Glyph>, b: seq<Glyph>)
    ensures Spoken(a + b) == Spoken(a) + Spoken(b)
    decreases |b|
  {
    if b == [] {
      assert a + b == a;
    } else {
      SpokenJoins(a, b[..|b| - 1]);
      assert (a + b)[..|a + b| - 1] == a + b[..|b| - 1];
    }
  }

  lemma {:induction false} SpokenAll(text: string)
    ensures Spoken(SaidAll(text)) == text
    ensures Spoken(ThoughtAll(text)) == ""
  {
    if text != "" {
      SpokenAll(text[..|text| - 1]);
      assert SaidAll(text)[..|text| - 1] == SaidAll(text[..|text| - 1]);
      assert ThoughtAll(text)[..|text| - 1] == ThoughtAll(text[..|text| - 1]);
    }
  }

  lemma SpokenItem(item: Item)
    ensures Spoken(GlyphsOf(item)) == if item.Text? then item.content else ""
  {
    if !item.ToolItem? {
      SpokenAll(item.content);
    }
  }

  lemma {:induction false} SpokenItems(items: seq<Item>, n: nat)
    requires n <= |items|
    ensures Spoken(Shown(items, n)) == Texts(items, n)
    decreases n
  {
    if n == 0 {
      assert Shown(items, n) == [] && Texts(items, n) == "" && Spoken([]) == "";
    } else {
      SpokenItems(items, n - 1);
      ShownNext(items, n - 1);
    }
  }

  lemma ShownNext(items: seq<Item>, n: nat)
    requires n < |items| && Spoken(Shown(items, n)) == Texts(items, n)
    ensures Spoken(Shown(items, n + 1)) == Texts(items, n + 1)
  {
    SpokenNext(Shown(items, n), items[n]);
  }

  lemma SpokenNext(glyphs: seq<Glyph>, item: Item)
    ensures Spoken(glyphs + GlyphsOf(item)) == Spoken(glyphs) + if item.Text? then item.content else ""
  {
    SpokenItem(item);
    SpokenJoins(glyphs, GlyphsOf(item));
  }

  lemma {:induction false} SpokenHistory(es: seq<Event>, n: nat)
    requires n <= |es|
    ensures Spoken(History(es, n)) == TextSince(es, n)
  {
    if n > 0 {
      SpokenHistory(es, n - 1);
      var e := es[n - 1];
      if e.TextChunk? || e.ThinkingChunk? {
        SpokenAll(e.text);
        SpokenJoins(History(es, n - 1), if e.TextChunk? then SaidAll(e.text) else ThoughtAll(e.text));
      } else if e.OfTool? {
        SpokenJoins(History(es, n - 1), [Called(e.tool.id)]);
      }
    }
  }

  /** The text items of a turn add up to its text chunks. */
  lemma TextItemsAddUp(s: Chat, es: seq<Event>, n: nat)
    requires n <= |es| && Initial(s)
    ensures var items := Run(s, es, n).items; Texts(items, |items|) == TextSince(es, n)
  {
    ItemsTellTheTurn(s, es, n);
    SpokenItems(Run(s, es, n).items, |Run(s, es, n).items|);
    SpokenHistory(es, n);
  }

  // ---------- items only grow ----------

  predicate Starts(a: string, b: string) {
    |a| <= |b| && b[..|a|] == a
  }

  /** An item later in the same turn: text only got longer, a tool is still the same tool. */
  predicate Grew(a: Item, b: Item) {
    SameSlot(a, b) && (!a.ToolItem? ==> Starts(a.content, b.content))
  }

  ghost predicate AllGrew(a: seq<Item>, b: seq<Item>) {
    |a| <= |b| && forall i {:trigger Grew(a[i], b[i])} :: 0 <= i < |a| ==> Grew(a[i], b[i])
  }

  ghost predicate WithinTurn(es: seq<Event>, m: nat, n: nat) {
    n <= |es| && forall i {:trigger EndsItems(es[i])} :: m <= i < n ==> !EndsItems(es[i])
  }

  lemma StepGrows(s: Chat, e: Event)
    requires IndexExact(s.items, s.index) && !EndsItems(e)
    ensures AllGrew(s.items, Step(s, e).items)
  {
    match e
    case OfTool(t) => ToolEventGrows(s.items, s.index, t);
    case OfSubagent(t) => SubagentGrows(s.items, s.index, t);
    case _ =>
  }

  lemma ToolEventGrows(items: seq<Item>, index: map<string, nat>, e: ToolEvent)
    requires IndexExact(items, index)
    ensures AllGrew(items, AfterTool(items, index, e).0)
  {
    assert EntryRight(items, index, e.id);
  }

  lemma SubagentGrows(items: seq<Item>, index: map<string, nat>, e: SubagentEvent)
    requires IndexExact(items, index)
    ensures AllGrew(items, AfterSubagent(items, index, e))
  {
    assert EntryRight(items, index, e.parent);
  }

  lemma GrewChain(a: seq<Item>, b: seq<Item>, c: seq<Item>)
    requires AllGrew(a, b) && AllGrew(b, c)
    ensures AllGrew(a, c)
  {
    forall i | 0 <= i < |a| ensures Grew(a[i], c[i]) {
      assert Grew(a[i], b[i]) && Grew(b[i], c[i]);
    }
  }

  /** Within a turn items are only appended, and each keeps its place and what it said. */
  lemma {:induction false} ItemsOnlyGrow(s: Chat, es: seq<Event>, m: nat, n: nat)
    requires m <= n && WithinTurn(es, m, n) && (Initial(s) || Sound(s))
    ensures AllGrew(Run(s, es, m).items, Run(s, es, n).items)
  {
    if m < n {
      ItemsOnlyGrow(s, es, m, n - 1);
      RunKeepsSound(s, es, n - 1);
      StepGrows(Run(s, es, n - 1), es[n - 1]);
      GrewChain(Run(s, es, m).items, Run(s, es, n - 1).items, Run(s, es, n).items);
    }
  }
}
