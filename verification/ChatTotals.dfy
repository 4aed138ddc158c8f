/** What the chat says besides the turn it shows: who said what, who is asked, and how much there has been. */
module ChatTotals {
  import opened Wrappers
  import opened ChatModel
  import opened ChatFlow

  // ---------- counting ----------

  /** How many of the first `n` events satisfy `p`. */
  function Count(es: seq<Event>, n: nat, p: Event -> bool): nat
    requires n <= |es|
  {
    if n == 0 then 0 else Count(es, n - 1, p) + if p(es[n - 1]) then 1 else 0
  }

  /** The rounds of the turns completed among the first `n` events. */
  function RoundsOf(es: seq<Event>, n: nat): nat
    requires n <= |es|
  {
    if n == 0 then 0 else RoundsOf(es, n - 1) + if es[n - 1].TurnCompleted? then es[n - 1].rounds else 0
  }

  predicate StartsTurn(e: Event) {
    e.TurnStarted?
  }

  predicate StartsTool(e: Event) {
    e.OfTool? && e.tool.Started?
  }

  /** The counters count turns started, tools started, and rounds of completed turns. */
  lemma {:induction false} CountersCount(s: Chat, es: seq<Event>, n: nat)
    requires n <= |es|
    ensures var now := Run(s, es, n);
      && now.messageCount == s.messageCount + Count(es, n, StartsTurn)
      && now.toolCalls == s.toolCalls + Count(es, n, StartsTool)
      && now.rounds == s.rounds + RoundsOf(es, n)
  {
    if n > 0 {
      CountersCount(s, es, n - 1);
    }
  }

  // ---------- the turn in progress ----------

  /** Event `k` is the last of the first `n` that satisfies `p`. */
  ghost predicate LastWith(es: seq<Event>, n: nat, k: nat, p: Event -> bool)
    requires n <= |es|
  {
    k < n && p(es[k]) && forall j {:trigger es[j]} :: k < j < n ==> !p(es[j])
  }

  ghost predicate NoneWith(es: seq<Event>, n: nat, p: Event -> bool)
    requires n <= |es|
  {
    forall j {:trigger es[j]} :: 0 <= j < n ==> !p(es[j])
  }

  predicate CountsTokens(e: Event) {
    e.TokenUsage?
  }

  lemma OthersLeaveTurn(s: Chat, e: Event)
    ensures !EndsItems(e) ==> Step(s, e).turn == s.turn && Step(s, e).processing == s.processing
    ensures !CountsTokens(e) ==> Step(s, e).tokens == s.tokens
  {
  }

  /** The turn in progress is the last one that was started, unless it has ended. */
  lemma {:induction false} TurnTells(s: Chat, es: seq<Event>, n: nat)
    requires n <= |es|
    ensures NoneWith(es, n, EndsItems) ==> Run(s, es, n).turn == s.turn && Run(s, es, n).processing == s.processing
    ensures forall k: nat {:trigger LastWith(es, n, k, EndsItems)} :: LastWith(es, n, k, EndsItems) ==>
      && Run(s, es, n).turn == (if es[k].TurnStarted? then Some(es[k].turn) else None)
      && Run(s, es, n).processing == es[k].TurnStarted?
  {
    if n > 0 {
      TurnTells(s, es, n - 1);
      OthersLeaveTurn(Run(s, es, n - 1), es[n - 1]);
      LastBefore(es, n - 1, EndsItems);
    }
  }

  /** The token count is the last one reported. */
  lemma {:induction false} TokensTell(s: Chat, es: seq<Event>, n: nat)
    requires n <= |es|
    ensures NoneWith(es, n, CountsTokens) ==> Run(s, es, n).tokens == s.tokens
    ensures forall k: nat {:trigger LastWith(es, n, k, CountsTokens)} :: LastWith(es, n, k, CountsTokens) ==>
      Run(s, es, n).tokens == es[k].total
  {
    if n > 0 {
      TokensTell(s, es, n - 1);
      OthersLeaveTurn(Run(s, es, n - 1), es[n - 1]);
      LastBefore(es, n - 1, CountsTokens);
    }
  }

  lemma LastBefore(es: seq<Event>, n: nat, p: Event -> bool)
    requires n < |es|
    ensures NoneWith(es, n + 1, p) ==> NoneWith(es, n, p) && !p(es[n])
    ensures forall k: nat {:trigger LastWith(es, n + 1, k, p)} :: LastWith(es, n + 1, k, p) ==>
      if k == n then p(es[n]) else LastWith(es, n, k, p) && !p(es[n])
  {
  }

  // ---------- who is asked ----------

  /** The tool an event asks the user about: to allow it, or to answer its question. */
  function AsksPermission(e: Event): Option<string> {
    if e.OfTool? && e.tool.NeedsConfirmation? then Some(e.tool.id) else None
  }

  function AsksQuestion(e: Event): Option<string> {
    if e.OfTool? && e.tool.Started? && e.tool.name == "AskUserQuestion" && e.tool.asks then Some(e.tool.id) else None
  }

  /** The event answers what is asked about a tool: by a decision, or because the turn is over. */
  predicate AnswersPermission(e: Event, id: string) {
    EndsTurn(e) || (e.OfTool? && e.tool.id == id && (e.tool.GotConfirmed? || e.tool.GotRejected?))
  }

  predicate AnswersQuestion(e: Event, id: string) {
    || EndsTurn(e)
    || (e.OfTool? && e.tool.id == id && (e.tool.Completed? || e.tool.GotFailed? || e.tool.GotCancelled?))
  }

  /** None of the events from `m` to `n` asks about another tool or answers about this one. */
  ghost predicate Stands(es: seq<Event>, m: nat, n: nat, id: string, asks: Event -> Option<string>,
                         answers: (Event, string) -> bool)
    requires n <= |es|
  {
    forall j {:trigger es[j]} :: m <= j < n ==> asks(es[j]) == None && !answers(es[j], id)
  }

  /** What is asked at the end: what was asked last, if nothing has answered it since. */
  ghost predicate StillAsked(before: Option<string>, es: seq<Event>, n: nat, id: string,
                             asks: Event -> Option<string>, answers: (Event, string) -> bool)
    requires n <= |es|
  {
    || (before == Some(id) && Stands(es, 0, n, id, asks, answers))
    || exists k {:trigger es[k]} :: 0 <= k < n && asks(es[k]) == Some(id) && Stands(es, k + 1, n, id, asks, answers)
  }

  lemma StillAskedStep(before: Option<string>, es: seq<Event>, n: nat, id: string, asks: Event -> Option<string>,
                       answers: (Event, string) -> bool)
    requires n < |es|
    ensures StillAsked(before, es, n + 1, id, asks, answers) <==>
      || asks(es[n]) == Some(id)
      || (asks(es[n]) == None && !answers(es[n], id) && StillAsked(before, es, n, id, asks, answers))
  {
    if StillAsked(before, es, n, id, asks, answers) && asks(es[n]) == None && !answers(es[n], id) {
      if k :| 0 <= k < n && asks(es[k]) == Some(id) && Stands(es, k + 1, n, id, asks, answers) {
        assert Stands(es, k + 1, n + 1, id, asks, answers);
      } else {
        assert Stands(es, 0, n + 1, id, asks, answers);
      }
    }
    if asks(es[n]) == Some(id) {
      assert Stands(es, n + 1, n + 1, id, asks, answers);
    }
    if StillAsked(before, es, n + 1, id, asks, answers) {
      if k :| 0 <= k < n + 1 && asks(es[k]) == Some(id) && Stands(es, k + 1, n + 1, id, asks, answers) {
        if k < n {
          assert asks(es[n]) == None && !answers(es[n], id);
          assert Stands(es, k + 1, n, id, asks, answers);
        }
      } else {
        assert asks(es[n]) == None && !answers(es[n], id);
        assert Stands(es, 0, n, id, asks, answers);
      }
    }
  }

  lemma PermissionStep(s: Chat, e: Event, id: string)
    ensures Step(s, e).permission == Some(id) <==>
      || AsksPermission(e) == Some(id)
      || (AsksPermission(e) == None && !AnswersPermission(e, id) && s.permission == Some(id))
  {
  }

  lemma QuestionStep(s: Chat, e: Event, id: string)
    ensures Step(s, e).question == Some(id) <==>
      || AsksQuestion(e) == Some(id)
      || (AsksQuestion(e) == None && !AnswersQuestion(e, id) && s.question == Some(id))
  {
  }

  /** A permission is asked for exactly if it was asked for last and neither decided nor dropped with the turn. */
  lemma {:induction false} PermissionTells(s: Chat, es: seq<Event>, n: nat, id: string)
    requires n <= |es|
    ensures Run(s, es, n).permission == Some(id) <==>
              StillAsked(s.permission, es, n, id, AsksPermission, AnswersPermission)
  {
    if n > 0 {
      PermissionTells(s, es, n - 1, id);
      PermissionStep(Run(s, es, n - 1), es[n - 1], id);
      StillAskedStep(s.permission, es, n - 1, id, AsksPermission, AnswersPermission);
    }
  }

  lemma {:induction false} QuestionTells(s: Chat, es: seq<Event>, n: nat, id: string)
    requires n <= |es|
    ensures Run(s, es, n).question == Some(id) <==>
              StillAsked(s.question, es, n, id, AsksQuestion, AnswersQuestion)
  {
    if n > 0 {
      QuestionTells(s, es, n - 1, id);
      QuestionStep(Run(s, es, n - 1), es[n - 1], id);
      StillAskedStep(s.question, es, n - 1, id, AsksQuestion, AnswersQuestion);
    }
  }

  // ---------- who said what ----------

  /** A message as it is posted: by whom, and the text it begins with, if that is settled. */
  datatype Post = Post(id: string, role: Role, text: Option<string>)

  function PostsOf(e: Event): seq<Post> {
    match e
    case TurnStarted(_, input, userId, assistantId) =>
      [Post(userId, User, Some(input)), Post(assistantId, Assistant, None)]
    case SystemMessage(id, content) => [Post(id, System, Some(content))]
    case AssistantMessage(id, content) => [Post(id, Assistant, Some(content))]
    case _ => []
  }

  /** Everything posted since the chat was last cleared. */
  function Posts(start: seq<Post>, es: seq<Event>, n: nat): seq<Post>
    requires n <= |es|
  {
    if n == 0 then start
    else if es[n - 1].Clear? then []
    else Posts(start, es, n - 1) + PostsOf(es[n - 1])
  }

  /** The message is the one posted. What a user or the system said is all it shows, and it does not stream. */
  ghost predicate IsPost(m: Message, p: Post) {
    && m.id == p.id && m.role == p.role
    && (p.text.Some? ==> !m.isStreaming && m.items != [] && m.items[0] == Text(p.text.value, false))
    && (p.text.Some? && m.role != Assistant ==> |m.items| == 1)
  }

  ghost predicate ArePosts(ms: seq<Message>, ps: seq<Post>) {
    |ms| == |ps| && forall i {:trigger IsPost(ms[i], ps[i])} :: 0 <= i < |ms| ==> IsPost(ms[i], ps[i])
  }

  lemma PostsJoin(ms: seq<Message>, ps: seq<Post>, more: seq<Message>, posted: seq<Post>)
    requires ArePosts(ms, ps) && ArePosts(more, posted)
    ensures ArePosts(ms + more, ps + posted)
  {
    forall i | 0 <= i < |ms + more| ensures IsPost((ms + more)[i], (ps + posted)[i]) {
      if i < |ms| {
        assert IsPost(ms[i], ps[i]);
      } else {
        assert IsPost(more[i - |ms|], posted[i - |ms|]);
      }
    }
  }

  /** A changed last message is still the one posted. */
  lemma LastIsPosted(ms: seq<Message>, ps: seq<Post>, m: Message)
    requires ArePosts(ms, ps) && ms != [] && IsPost(m, ps[|ps| - 1])
    ensures ArePosts(ms[|ms| - 1 := m], ps)
  {
    forall i | 0 <= i < |ms| ensures IsPost(ms[|ms| - 1 := m][i], ps[i]) {
      assert IsPost(ms[i], ps[i]);
    }
  }

  lemma RebuiltArePosts(ms: seq<Message>, ps: seq<Post>, items: seq<Item>)
    requires ArePosts(ms, ps)
    ensures ArePosts(Rebuilt(ms, items), ps)
  {
    if ms != [] {
      assert IsPost(ms[|ms| - 1], ps[|ps| - 1]);
      if Streams(ms[|ms| - 1]) {
        LastIsPosted(ms, ps, Rebuilt(ms, items)[|ms| - 1]);
      }
    }
  }

  lemma EndedArePosts(ms: seq<Message>, ps: seq<Post>, note: Option<string>)
    requires ArePosts(ms, ps)
    ensures ArePosts(Ended(ms, note), ps)
  {
    if ms != [] {
      assert IsPost(ms[|ms| - 1], ps[|ps| - 1]);
      if ms[|ms| - 1].role == Assistant {
        LastIsPosted(ms, ps, Ended(ms, note)[|ms| - 1]);
      }
    }
  }

  lemma StepPosts(s: Chat, ps: seq<Post>, e: Event)
    requires ArePosts(s.messages, ps)
    ensures ArePosts(Step(s, e).messages, if e.Clear? then [] else ps + PostsOf(e))
  {
    assert ps + [] == ps;
    match e
    case TextChunk(text) => RebuiltArePosts(s.messages, ps, Step(s, e).items);
    case ThinkingChunk(text) => RebuiltArePosts(s.messages, ps, Step(s, e).items);
    case OfTool(_) => RebuiltArePosts(s.messages, ps, Step(s, e).items);
    case OfSubagent(_) => RebuiltArePosts(s.messages, ps, Step(s, e).items);
    case TurnCompleted(_) => EndedArePosts(s.messages, ps, None);
    case TurnFailed(shown) => EndedArePosts(s.messages, ps, Some(shown));
    case TurnCancelled => EndedArePosts(s.messages, ps, Some("[Cancelled]"));
    case TurnStarted(_, input, userId, assistantId) =>
      PostsJoin(s.messages, ps, [Note(userId, User, input), Message(assistantId, Assistant, [], true, 0)], PostsOf(e));
    case SystemMessage(id, content) => PostsJoin(s.messages, ps, [Note(id, System, content)], PostsOf(e));
    case AssistantMessage(id, content) => PostsJoin(s.messages, ps, [Note(id, Assistant, content)], PostsOf(e));
    case _ =>
  }

  /**
   * The messages are those posted since the chat was last cleared, in order: each with its id and
   * role, and what a user or the system said is shown as it was said.
   */
  lemma {:induction false} MessagesArePosts(s: Chat, start: seq<Post>, es: seq<Event>, n: nat)
    requires n <= |es| && ArePosts(s.messages, start)
    ensures ArePosts(Run(s, es, n).messages, Posts(start, es, n))
  {
    if n > 0 {
      MessagesArePosts(s, start, es, n - 1);
      StepPosts(Run(s, es, n - 1), Posts(start, es, n - 1), es[n - 1]);
    }
  }
}
