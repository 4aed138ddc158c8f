/** Message versions, and the cache of drawn messages that trusts them. */
module ChatCache {
  import opened ChatModel
  import opened ChatFlow

  // ---------- versions ----------

  predicate Introduces(e: Event, id: string) {
    match e
    case TurnStarted(_, _, userId, assistantId) => id == userId || id == assistantId
    case SystemMessage(made, _) => id == made
    case AssistantMessage(made, _) => id == made
    case _ => false
  }

  ghost predicate HasMessage(messages: seq<Message>, id: string) {
    exists i {:trigger messages[i]} :: 0 <= i < |messages| && messages[i].id == id
  }

  ghost predicate IdsDiffer(messages: seq<Message>) {
    forall i, j {:trigger messages[i], messages[j]} :: 0 <= i < j < |messages| ==> messages[i].id != messages[j].id
  }

  ghost predicate IntroducedBy(es: seq<Event>, n: nat, id: string) {
    exists i: nat {:trigger Introduces(es[i], id)} :: i < n && i < |es| && Introduces(es[i], id)
  }

  predicate OwnIdsDiffer(e: Event) {
    e.TurnStarted? ==> e.userId != e.assistantId
  }

  ghost predicate NewAt(s: Chat, es: seq<Event>, k: nat, id: string) {
    k < |es| && Introduces(es[k], id) ==> !HasMessage(s.messages, id) && !IntroducedBy(es, k, id)
  }

  /** Every message gets an identifier of its own. */
  ghost predicate FreshIds(s: Chat, es: seq<Event>) {
    && IdsDiffer(s.messages)
    && (forall k {:trigger OwnIdsDiffer(es[k])} :: 0 <= k < |es| ==> OwnIdsDiffer(es[k]))
    && (forall k: nat, id {:trigger NewAt(s, es, k, id)} :: NewAt(s, es, k, id))
  }

  /** The same message later on: unchanged, or changed under a higher version. */
  predicate Evolves(m: Message, later: Message) {
    m.id == later.id && m.role == later.role && (m == later || m.version < later.version)
  }

  /** After a step each message is one of before, at its place, or one the event brings. */
  lemma StepEvolves(s: Chat, e: Event, b: nat)
    requires b < |Step(s, e).messages|
    ensures var m := Step(s, e).messages[b];
            if b < |s.messages| then Evolves(s.messages[b], m) else Introduces(e, m.id)
  {
  }

  lemma StepIds(s: Chat, e: Event)
    requires IdsDiffer(s.messages) && OwnIdsDiffer(e)
    requires forall id {:trigger Introduces(e, id)} :: Introduces(e, id) ==> !HasMessage(s.messages, id)
    ensures IdsDiffer(Step(s, e).messages)
  {
    var after := Step(s, e).messages;
    forall i, j | 0 <= i < j < |after| ensures after[i].id != after[j].id {
      StepEvolves(s, e, i);
      StepEvolves(s, e, j);
      if i < |s.messages| <= j {
        assert Introduces(e, after[j].id);
        assert s.messages[i].id == after[i].id;
      }
    }
  }

  lemma {:induction false} MessagesAreKnown(s: Chat, es: seq<Event>, n: nat, b: nat)
    requires n <= |es| && b < |Run(s, es, n).messages|
    ensures var id := Run(s, es, n).messages[b].id; HasMessage(s.messages, id) || IntroducedBy(es, n, id)
  {
    if n > 0 {
      StepEvolves(Run(s, es, n - 1), es[n - 1], b);
      if b < |Run(s, es, n - 1).messages| {
        MessagesAreKnown(s, es, n - 1, b);
      }
    }
  }

  lemma {:induction false} RunIds(s: Chat, es: seq<Event>, n: nat)
    requires n <= |es| && FreshIds(s, es)
    ensures IdsDiffer(Run(s, es, n).messages)
  {
    if n > 0 {
      RunIds(s, es, n - 1);
      var before := Run(s, es, n - 1);
      forall id | Introduces(es[n - 1], id) ensures !HasMessage(before.messages, id) {
        assert NewAt(s, es, n - 1, id);
        if HasMessage(before.messages, id) {
          var b :| 0 <= b < |before.messages| && before.messages[b].id == id;
          MessagesAreKnown(s, es, n - 1, b);
        }
      }
      assert OwnIdsDiffer(es[n - 1]);
      StepIds(before, es[n - 1]);
    }
  }

  /** A message that was already there is not one a later event brings. */
  lemma KnownIsNotNew(s: Chat, es: seq<Event>, i: nat, j: nat, a: nat)
    requires FreshIds(s, es) && i <= j < |es| && a < |Run(s, es, i).messages|
    ensures !Introduces(es[j], Run(s, es, i).messages[a].id)
  {
    var id := Run(s, es, i).messages[a].id;
    MessagesAreKnown(s, es, i, a);
    assert NewAt(s, es, j, id);
    if IntroducedBy(es, i, id) {
      var k: nat :| k < i && Introduces(es[k], id);
      assert IntroducedBy(es, j, id);
    }
  }

  /** Along any run, a message seen twice never went back in version, and equal versions are equal messages. */
  lemma {:induction false} VersionTellsContent(s: Chat, es: seq<Event>, i: nat, j: nat, a: nat, b: nat)
    requires FreshIds(s, es) && i <= j <= |es|
    requires a < |Run(s, es, i).messages| && b < |Run(s, es, j).messages|
    requires Run(s, es, i).messages[a].id == Run(s, es, j).messages[b].id
    ensures Evolves(Run(s, es, i).messages[a], Run(s, es, j).messages[b])
    decreases j
  {
    if i == j {
      RunIds(s, es, i);
    } else {
      KnownIsNotNew(s, es, i, j - 1, a);
      StepEvolves(Run(s, es, j - 1), es[j - 1], b);
      VersionTellsContent(s, es, i, j - 1, a, b);
    }
  }

  // ---------- the cache ----------

  /** How a message is drawn at a width, theme and folded blocks being what they are. */
  type Drawing = (Message, nat) -> seq<string>

  datatype Entry = Entry(version: nat, width: nat, lines: seq<string>)

  predicate EntryFits(draw: Drawing, entry: Entry, m: Message) {
    entry.version <= m.version && (entry.version == m.version ==> entry.lines == draw(m, entry.width))
  }

  predicate EntryFor(draw: Drawing, cache: map<string, Entry>, m: Message) {
    m.id in cache ==> EntryFits(draw, cache[m.id], m)
  }

  /** What is cached for a message is what it looked like in the cached version. */
  ghost predicate CacheSound(draw: Drawing, cache: map<string, Entry>, messages: seq<Message>) {
    forall i {:trigger EntryFor(draw, cache, messages[i])} :: 0 <= i < |messages| ==> EntryFor(draw, cache, messages[i])
  }

  /** Events cannot make a cached entry lie. */
  lemma StepKeepsCache(draw: Drawing, cache: map<string, Entry>, s: Chat, e: Event)
    requires CacheSound(draw, cache, s.messages)
    requires forall id {:trigger Introduces(e, id)} :: Introduces(e, id) ==> id !in cache
    ensures CacheSound(draw, cache, Step(s, e).messages)
  {
    var after := Step(s, e).messages;
    forall i | 0 <= i < |after| ensures EntryFor(draw, cache, after[i]) {
      StepEvolves(s, e, i);
      if i < |s.messages| {
        assert EntryFor(draw, cache, s.messages[i]);
      }
    }
  }

  predicate IsCached(draw: Drawing, cache: map<string, Entry>, m: Message, width: nat) {
    m.id in cache && cache[m.id] == Entry(m.version, width, draw(m, width))
  }

  /** The lines of some messages, drawn afresh. */
  function Drawn(draw: Drawing, messages: seq<Message>, width: nat, lo: nat, hi: nat): seq<string>
    requires lo <= hi <= |messages|
  {
    if lo == hi then [] else Drawn(draw, messages, width, lo, hi - 1) + draw(messages[hi - 1], width)
  }

  /** A frame shows the drawings of its messages from the first to the last. */
  lemma {:induction false} DrawnInOrder(draw: Drawing, messages: seq<Message>, width: nat, lo: nat, hi: nat)
    requires lo < hi <= |messages|
    ensures Drawn(draw, messages, width, lo, hi)
         == draw(messages[lo], width) + Drawn(draw, messages, width, lo + 1, hi)
  {
    if lo + 1 < hi {
      DrawnInOrder(draw, messages, width, lo, hi - 1);
    } else {
      assert Drawn(draw, messages, width, lo, lo) + draw(messages[lo], width) == draw(messages[lo], width);
    }
  }

  /** The cache once the first `n` messages have been drawn or found valid; a streaming message is always drawn. */
  function Refreshed(draw: Drawing, cache: map<string, Entry>, messages: seq<Message>, width: nat,
                     n: nat): map<string, Entry>
    requires n <= |messages|
  {
    if n == 0 then cache
    else
      var m, so := messages[n - 1], Refreshed(draw, cache, messages, width, n - 1);
      if m.isStreaming || m.id !in so || so[m.id].version != m.version || so[m.id].width != width
      then so[m.id := Entry(m.version, width, draw(m, width))] else so
  }

  /** What the cache has to show for some messages. */
  function FromCache(cache: map<string, Entry>, messages: seq<Message>, lo: nat, hi: nat): seq<string>
    requires lo <= hi <= |messages|
  {
    if lo == hi then []
    else
      var id := messages[hi - 1].id;
      FromCache(cache, messages, lo, hi - 1) + if id in cache then cache[id].lines else []
  }

  ghost predicate AllCached(draw: Drawing, cache: map<string, Entry>, messages: seq<Message>, width: nat, n: nat) {
    forall i {:trigger IsCached(draw, cache, messages[i], width)} :: 0 <= i < n && i < |messages| ==>
      IsCached(draw, cache, messages[i], width)
  }

  /** Whatever was cached before, afterwards every message is cached as a fresh drawing. */
  lemma {:induction false} RefreshedIsFresh(draw: Drawing, cache: map<string, Entry>, messages: seq<Message>,
                                            width: nat, n: nat)
    requires n <= |messages| && IdsDiffer(messages) && CacheSound(draw, cache, messages)
    ensures var after := Refreshed(draw, cache, messages, width, n);
            CacheSound(draw, after, messages) && AllCached(draw, after, messages, width, n)
    ensures forall id :: id in Refreshed(draw, cache, messages, width, n) ==> id in cache || HasMessage(messages, id)
  {
    if n > 0 {
      RefreshedIsFresh(draw, cache, messages, width, n - 1);
      var before, after := Refreshed(draw, cache, messages, width, n - 1), Refreshed(draw, cache, messages, width, n);
      assert EntryFor(draw, before, messages[n - 1]);
      forall i | 0 <= i < |messages| ensures EntryFor(draw, after, messages[i]) {
        assert EntryFor(draw, before, messages[i]);
      }
      forall i | 0 <= i < n ensures IsCached(draw, after, messages[i], width) {
        assert i < n - 1 ==> IsCached(draw, before, messages[i], width);
      }
    }
  }

  lemma {:induction false} CachedIsDrawn(draw: Drawing, cache: map<string, Entry>, messages: seq<Message>,
                                         width: nat, lo: nat, hi: nat)
    requires lo <= hi <= |messages| && AllCached(draw, cache, messages, width, |messages|)
    ensures FromCache(cache, messages, lo, hi) == Drawn(draw, messages, width, lo, hi)
  {
    if lo < hi {
      CachedIsDrawn(draw, cache, messages, width, lo, hi - 1);
      assert IsCached(draw, cache, messages[hi - 1], width);
    }
  }

  class ChatView {
    const draw: Drawing
    var cache: map<string, Entry>

    constructor (draw: Drawing)
      ensures this.draw == draw && cache == map[]
    {
      this.draw := draw;
      cache := map[];
    }

    method InvalidateRenderCache()
      modifies this
      ensures cache == map[]
    {
      cache := map[];
    }

    /** Brings every message into the cache and counts its lines. */
    method CountLines(messages: seq<Message>, width: nat) returns (counts: seq<nat>)
      requires IdsDiffer(messages) && CacheSound(draw, cache, messages)
      modifies this
      ensures cache == Refreshed(draw, old(cache), messages, width, |messages|)
      ensures |counts| == |messages| && forall i :: 0 <= i < |messages| ==> counts[i] == |draw(messages[i], width)|
    {
      counts := [];
      var n := 0;
      while n < |messages|
        invariant 0 <= n == |counts| <= |messages|
        invariant cache == Refreshed(draw, old(cache), messages, width, n)
        invariant forall i :: 0 <= i < n ==> counts[i] == |draw(messages[i], width)|
      {
        var m := messages[n];
        assert EntryFor(draw, cache, m) by {
          RefreshedIsFresh(draw, old(cache), messages, width, n);
        }
        if m.isStreaming || m.id !in cache || cache[m.id].version != m.version || cache[m.id].width != width {
          var drawn := draw(m, width);
          cache := cache[m.id := Entry(m.version, width, drawn)];
          counts := counts + [|drawn|];
        } else {
          counts := counts + [|cache[m.id].lines|];
        }
        n := n + 1;
      }
    }

    /** One frame: the visible lines and all line counts are those of a fresh drawing. */
    method RenderMessages(messages: seq<Message>, width: nat, lo: nat, hi: nat)
      returns (counts: seq<nat>, shown: seq<string>)
      requires lo <= hi <= |messages| && IdsDiffer(messages) && CacheSound(draw, cache, messages)
      modifies this
      ensures cache == Refreshed(draw, old(cache), messages, width, |messages|)
      ensures |counts| == |messages| && forall i :: 0 <= i < |messages| ==> counts[i] == |draw(messages[i], width)|
      ensures shown == Drawn(draw, messages, width, lo, hi)
    {
      counts := CountLines(messages, width);
      shown := [];
      var i := lo;
      while i < hi
        invariant lo <= i <= hi
        invariant shown == FromCache(cache, messages, lo, i)
      {
        if messages[i].id in cache {
          shown := shown + cache[messages[i].id].lines;
        }
        i := i + 1;
      }
      RefreshedIsFresh(draw, old(cache), messages, width, |messages|);
      CachedIsDrawn(draw, cache, messages, width, lo, hi);
    }
  }

  // ---------- whole sessions ----------

  /** What the interface does: handle an event, draw a frame, or drop the cache. */
  datatype Action = Handle(event: Event) | Frame(width: nat) | Drop

  datatype Session = Session(chat: Chat, cache: map<string, Entry>)

  function Act(draw: Drawing, s: Session, a: Action): Session {
    match a
    case Handle(e) => s.(chat := Step(s.chat, e))
    case Frame(width) => s.(cache := Refreshed(draw, s.cache, s.chat.messages, width, |s.chat.messages|))
    case Drop => s.(cache := map[])
  }

  /** A session after its first `n` actions, from a chat and nothing cached. */
  function SessionAfter(draw: Drawing, chat: Chat, actions: seq<Action>, n: nat): Session
    requires n <= |actions|
  {
    if n == 0 then Session(chat, map[]) else Act(draw, SessionAfter(draw, chat, actions, n - 1), actions[n - 1])
  }

  predicate Brings(a: Action, id: string) {
    a.Handle? && Introduces(a.event, id)
  }

  ghost predicate BroughtBy(actions: seq<Action>, n: nat, id: string) {
    exists i: nat {:trigger Brings(actions[i], id)} :: i < n && i < |actions| && Brings(actions[i], id)
  }

  ghost predicate IsKnown(chat: Chat, actions: seq<Action>, n: nat, id: string) {
    HasMessage(chat.messages, id) || BroughtBy(actions, n, id)
  }

  ghost predicate NotBefore(chat: Chat, actions: seq<Action>, k: nat, id: string) {
    k < |actions| && Brings(actions[k], id) ==> !IsKnown(chat, actions, k, id)
  }

  /** Every message of a session gets an identifier of its own. */
  ghost predicate FreshActions(chat: Chat, actions: seq<Action>) {
    && IdsDiffer(chat.messages)
    && (forall k :: 0 <= k < |actions| && actions[k].Handle? ==> OwnIdsDiffer(actions[k].event))
    && (forall k: nat, id {:trigger NotBefore(chat, actions, k, id)} :: NotBefore(chat, actions, k, id))
  }

  ghost predicate SessionSound(draw: Drawing, chat: Chat, actions: seq<Action>, n: nat, s: Session) {
    && IdsDiffer(s.chat.messages)
    && CacheSound(draw, s.cache, s.chat.messages)
    && (forall id :: id in s.cache ==> IsKnown(chat, actions, n, id))
    && (forall i :: 0 <= i < |s.chat.messages| ==> IsKnown(chat, actions, n, s.chat.messages[i].id))
  }

  lemma KnownStays(chat: Chat, actions: seq<Action>, n: nat, id: string)
    requires n < |actions| && IsKnown(chat, actions, n, id)
    ensures IsKnown(chat, actions, n + 1, id)
  {
    if BroughtBy(actions, n, id) {
      var i: nat :| i < n && Brings(actions[i], id);
      assert i < n + 1 && Brings(actions[i], id);
    }
  }

  lemma HandleKeepsSession(draw: Drawing, chat: Chat, actions: seq<Action>, n: nat, s: Session)
    requires n < |actions| && FreshActions(chat, actions) && actions[n].Handle?
    requires SessionSound(draw, chat, actions, n, s)
    ensures SessionSound(draw, chat, actions, n + 1, Act(draw, s, actions[n]))
  {
    var e := actions[n].event;
    forall id | Introduces(e, id) ensures id !in s.cache && !HasMessage(s.chat.messages, id) {
      assert Brings(actions[n], id) && NotBefore(chat, actions, n, id);
    }
    StepIds(s.chat, e);
    StepKeepsCache(draw, s.cache, s.chat, e);
    forall id | id in s.cache ensures IsKnown(chat, actions, n + 1, id) {
      KnownStays(chat, actions, n, id);
    }
    var after := Step(s.chat, e).messages;
    forall i | 0 <= i < |after| ensures IsKnown(chat, actions, n + 1, after[i].id) {
      StepEvolves(s.chat, e, i);
      if i < |s.chat.messages| {
        KnownStays(chat, actions, n, s.chat.messages[i].id);
      } else {
        assert Brings(actions[n], after[i].id);
      }
    }
  }

  lemma LookKeepsSession(draw: Drawing, chat: Chat, actions: seq<Action>, n: nat, s: Session)
    requires n < |actions| && FreshActions(chat, actions) && !actions[n].Handle?
    requires SessionSound(draw, chat, actions, n, s)
    ensures SessionSound(draw, chat, actions, n + 1, Act(draw, s, actions[n]))
  {
    var messages := s.chat.messages;
    if actions[n].Frame? {
      RefreshedIsFresh(draw, s.cache, messages, actions[n].width, |messages|);
    }
    forall id | id in Act(draw, s, actions[n]).cache ensures IsKnown(chat, actions, n + 1, id) {
      if id !in s.cache {
        var i :| 0 <= i < |messages| && messages[i].id == id;
      }
      KnownStays(chat, actions, n, id);
    }
    forall i | 0 <= i < |messages| ensures IsKnown(chat, actions, n + 1, messages[i].id) {
      KnownStays(chat, actions, n, messages[i].id);
    }
  }

  lemma {:induction false} SessionStaysSound(draw: Drawing, chat: Chat, actions: seq<Action>, n: nat)
    requires n <= |actions| && FreshActions(chat, actions)
    ensures SessionSound(draw, chat, actions, n, SessionAfter(draw, chat, actions, n))
  {
    if n == 0 {
      forall i | 0 <= i < |chat.messages| ensures IsKnown(chat, actions, 0, chat.messages[i].id) {
        assert HasMessage(chat.messages, chat.messages[i].id);
      }
    } else {
      SessionStaysSound(draw, chat, actions, n - 1);
      var before := SessionAfter(draw, chat, actions, n - 1);
      if actions[n - 1].Handle? {
        HandleKeepsSession(draw, chat, actions, n - 1, before);
      } else {
        LookKeepsSession(draw, chat, actions, n - 1, before);
      }
    }
  }

  /** In every session every frame shows, for every message, what drawing it afresh would show. */
  lemma EveryFrameIsFresh(draw: Drawing, chat: Chat, actions: seq<Action>, n: nat, lo: nat, hi: nat)
    requires n < |actions| && FreshActions(chat, actions) && actions[n].Frame?
    requires lo <= hi <= |SessionAfter(draw, chat, actions, n).chat.messages|
    ensures var s := SessionAfter(draw, chat, actions, n + 1);
            && s.chat == SessionAfter(draw, chat, actions, n).chat
            && FromCache(s.cache, s.chat.messages, lo, hi) == Drawn(draw, s.chat.messages, actions[n].width, lo, hi)
  {
    SessionStaysSound(draw, chat, actions, n);
    var s, width := SessionAfter(draw, chat, actions, n), actions[n].width;
    RefreshedIsFresh(draw, s.cache, s.chat.messages, width, |s.chat.messages|);
    var after := Refreshed(draw, s.cache, s.chat.messages, width, |s.chat.messages|);
    CachedIsDrawn(draw, after, s.chat.messages, width, lo, hi);
  }
}
