/** The events a stream emits, and what a log of them says. */
module StreamLog {
  import opened Wrappers
  import opened ToolCalls
  import Json

  datatype Event =
    | TextChunk(text: string)
    | ThinkingChunk(content: string, isEnd: bool)
    | EarlyDetected(id: string, name: string)
    | ParamsPartial(id: string, name: string, params: string)
    | ToolCancelled(id: string, name: string, reason: string)
    | ToolFailed(id: string, name: string, reason: string)
    | TurnCancelled
    | TurnFailed(reason: string)

  type Log = seq<Event>

  // ---------- what was said ----------

  function TextOf(e: Event): string {
    if e.TextChunk? then e.text else ""
  }

  function ThinkingOf(e: Event): string {
    if e.ThinkingChunk? then e.content else ""
  }

  predicate Whitespace(c: char) {
    || '\U{9}' <= c <= '\U{d}' || c == ' ' || c == '\U{85}' || c == '\U{a0}' || c == '\U{1680}'
    || '\U{2000}' <= c <= '\U{200a}' || c == '\U{2028}' || c == '\U{2029}' || c == '\U{202f}'
    || c == '\U{205f}' || c == '\U{3000}'
  }

  /** Nothing is left of the text once it is trimmed. */
  predicate Blank(text: string) {
    forall i :: 0 <= i < |text| ==> Whitespace(text[i])
  }

  /** An event that counts as output worth keeping. */
  predicate Effective(e: Event) {
    (e.TextChunk? && !Blank(e.text)) || e.EarlyDetected? || e.ParamsPartial?
  }

  predicate AnyEffective(log: Log) {
    exists i {:trigger Effective(log[i])} :: 0 <= i < |log| && Effective(log[i])
  }

  /** The code points of white space. */
  predicate WhitespaceCode(n: int) {
    || 9 <= n <= 13 || n == 32 || n == 133 || n == 160 || n == 5760 || 8192 <= n <= 8202
    || n == 8232 || n == 8233 || n == 8239 || n == 8287 || n == 12288
  }

  /** Text counts as output exactly if something in it is visible. */
  lemma TextIsOutputIff(text: string)
    ensures Effective(TextChunk(text)) <==> exists i :: 0 <= i < |text| && !WhitespaceCode(text[i] as int)
  {
    forall i | 0 <= i < |text| ensures Whitespace(text[i]) <==> WhitespaceCode(text[i] as int) {
    }
  }

  /** An event that reports how a call or the turn ended. */
  predicate Terminal(e: Event) {
    e.ToolCancelled? || e.ToolFailed? || e.TurnCancelled? || e.TurnFailed?
  }

  predicate NoTerminal(log: Log) {
    forall i {:trigger Terminal(log[i])} :: 0 <= i < |log| ==> !Terminal(log[i])
  }

  // ---------- the order of thinking and output ----------

  predicate Thinking(e: Event) {
    e.ThinkingChunk? && !e.isEnd
  }

  predicate Marker(e: Event) {
    e.ThinkingChunk? && e.isEnd
  }

  /** Output that may not appear while thinking is open. */
  predicate Output(e: Event) {
    e.TextChunk? || e.EarlyDetected? || e.ParamsPartial?
  }

  datatype Phase = Quiet | Open | Ended | Wrong

  /** Thinking opens with its first chunk and is closed once, by the marker, before any output. */
  function NextPhase(phase: Phase, e: Event): Phase {
    if phase == Wrong then Wrong
    else if Thinking(e) then (if phase == Ended then Ended else Open)
    else if Marker(e) then (if phase == Open then Ended else Wrong)
    else if Output(e) && phase == Open then Wrong
    else phase
  }

  /** What a log has said so far. */
  datatype Summary = Summary(text: string, thinking: string, phase: Phase, markers: nat)

  function Tell(s: Summary, e: Event): Summary {
    Summary(s.text + TextOf(e), s.thinking + ThinkingOf(e), NextPhase(s.phase, e),
            s.markers + if Marker(e) then 1 else 0)
  }

  function Told(log: Log, n: nat): Summary
    requires n <= |log|
  {
    if n == 0 then Summary("", "", Quiet, 0) else Tell(Told(log, n - 1), log[n - 1])
  }

  /** All text chunks in a row. */
  function Texts(log: Log): string {
    Told(log, |log|).text
  }

  /** All thinking chunks in a row. */
  function Thinkings(log: Log): string {
    Told(log, |log|).thinking
  }

  function PhaseOf(log: Log): Phase {
    Told(log, |log|).phase
  }

  function Markers(log: Log): nat {
    Told(log, |log|).markers
  }

  lemma {:induction false} ToldPrefix(log: Log, more: Log, n: nat)
    requires n <= |log|
    ensures Told(log + more, n) == Told(log, n)
  {
    if n > 0 {
      ToldPrefix(log, more, n - 1);
    }
  }

  lemma ToldAppend(log: Log, e: Event)
    ensures Told(log + [e], |log| + 1) == Tell(Told(log, |log|), e)
  {
    ToldPrefix(log, [e], |log|);
  }

  /** Some thinking was shown. */
  ghost predicate AnyThinking(log: Log) {
    ThoughtBy(log, |log|)
  }

  ghost predicate ThoughtBy(log: Log, n: nat) {
    exists i :: 0 <= i < n && i < |log| && Thinking(log[i])
  }

  /** A log that is not wrong has the marker at most once, and only after thinking. */
  lemma {:induction false} PhaseCounts(log: Log, n: nat)
    requires n <= |log| && Told(log, n).phase != Wrong
    ensures Told(log, n).markers == if Told(log, n).phase == Ended then 1 else 0
    ensures ThoughtBy(log, n) <==> Told(log, n).phase != Quiet
  {
    if n > 0 {
      PhaseCounts(log, n - 1);
      assert ThoughtBy(log, n) <==> ThoughtBy(log, n - 1) || Thinking(log[n - 1]);
    }
  }

  /** Once wrong, a log stays wrong. */
  lemma {:induction false} NeverWrongBefore(log: Log, m: nat, n: nat)
    requires m <= n <= |log| && Told(log, n).phase != Wrong
    ensures Told(log, m).phase != Wrong
    decreases n - m
  {
    if m < n {
      NeverWrongBefore(log, m, n - 1);
    }
  }

  lemma {:induction false} MarkerExists(log: Log, n: nat)
    requires n <= |log| && Told(log, n).markers > 0
    ensures exists m :: 0 <= m < n && Marker(log[m])
  {
    if !Marker(log[n - 1]) {
      MarkerExists(log, n - 1);
    }
  }

  lemma {:induction false} MarkerCounts(log: Log, m: nat, n: nat)
    requires m < n <= |log| && Marker(log[m])
    ensures Told(log, n).markers > 0
  {
    if m < n - 1 {
      MarkerCounts(log, m, n - 1);
    }
  }

  /** Thinking is shown for the first time at `i`. */
  ghost predicate FirstThought(log: Log, i: nat) {
    i < |log| && Thinking(log[i]) && !ThoughtBy(log, i)
  }

  /** All output behind the first thinking chunk has the marker in between. */
  ghost predicate MarkedBeforeOutput(log: Log) {
    forall i: nat, j {:trigger FirstThought(log, i), Output(log[j])} ::
      FirstThought(log, i) && i < j < |log| && Output(log[j]) ==> exists m :: i < m < j && Marker(log[m])
  }

  /** In a log that is not wrong no output is shown while thinking is open. */
  lemma NoOutputWhileOpen(log: Log)
    requires PhaseOf(log) != Wrong
    ensures MarkedBeforeOutput(log)
  {
    forall i: nat, j | FirstThought(log, i) && i < j < |log| && Output(log[j])
      ensures exists m :: i < m < j && Marker(log[m])
    {
      MarkerBetween(log, i, j);
    }
  }

  lemma MarkerBetween(log: Log, i: nat, j: nat)
    requires PhaseOf(log) != Wrong
    requires FirstThought(log, i) && i < j < |log| && Output(log[j])
    ensures exists m :: i < m < j && Marker(log[m])
  {
    NeverWrongBefore(log, j + 1, |log|);
    NeverWrongBefore(log, j, |log|);
    NeverWrongBefore(log, i, |log|);
    PhaseCounts(log, i);
    PhaseCounts(log, j);
    assert ThoughtBy(log, j);
    MarkerExists(log, j);
    var m :| 0 <= m < j && Marker(log[m]);
    if m < i {
      MarkerCounts(log, m, i);
    }
  }

  /** Everything the processor says about a log changes by the appended event alone. */
  lemma Append(log: Log, e: Event)
    ensures Texts(log + [e]) == Texts(log) + TextOf(e)
    ensures Thinkings(log + [e]) == Thinkings(log) + ThinkingOf(e)
    ensures PhaseOf(log + [e]) == NextPhase(PhaseOf(log), e)
    ensures AnyEffective(log + [e]) <==> AnyEffective(log) || Effective(e)
    ensures NoTerminal(log + [e]) <==> NoTerminal(log) && !Terminal(e)
  {
    ToldAppend(log, e);
    if AnyEffective(log) {
      var i :| 0 <= i < |log| && Effective(log[i]);
      assert Effective((log + [e])[i]);
    }
    if Effective(e) {
      assert Effective((log + [e])[|log|]);
    }
    if NoTerminal(log + [e]) {
      assert !Terminal((log + [e])[|log|]);
      forall i | 0 <= i < |log| ensures !Terminal(log[i]) {
        assert !Terminal((log + [e])[i]);
      }
    }
  }

  /** The accumulated text, thinking and flags are what the log says, and nothing in it is terminal or out of order. */
  ghost predicate Says(log: Log, text: string, thinking: string, effective: bool, thinkingChunks: nat,
                       completed: bool) {
    && text == Texts(log) && thinking == Thinkings(log)
    && NoTerminal(log)
    && (effective <==> AnyEffective(log))
    && PhaseOf(log) == (if completed then Ended else if thinkingChunks > 0 then Open else Quiet)
    && (completed ==> thinkingChunks > 0)
  }

  lemma SaysText(log: Log, text: string, thinking: string, effective: bool, thinkingChunks: nat, completed: bool,
                 more: string)
    requires Says(log, text, thinking, effective, thinkingChunks, completed) && (thinkingChunks == 0 || completed)
    ensures Says(log + [TextChunk(more)], text + more, thinking, effective || !Blank(more), thinkingChunks, completed)
  {
    Append(log, TextChunk(more));
    assert thinking + "" == thinking;
  }

  lemma SaysThinking(log: Log, text: string, thinking: string, effective: bool, thinkingChunks: nat, completed: bool,
                     more: string)
    requires Says(log, text, thinking, effective, thinkingChunks, completed)
    ensures Says(log + [ThinkingChunk(more, false)], text, thinking + more, effective, thinkingChunks + 1, completed)
  {
    Append(log, ThinkingChunk(more, false));
    assert text + "" == text;
  }

  lemma SaysMarker(log: Log, text: string, thinking: string, effective: bool, thinkingChunks: nat)
    requires Says(log, text, thinking, effective, thinkingChunks, false) && thinkingChunks > 0
    ensures Says(log + [ThinkingChunk("", true)], text, thinking, effective, thinkingChunks, true)
  {
    Append(log, ThinkingChunk("", true));
    assert text + "" == text && thinking + "" == thinking;
  }

  lemma SaysTool(log: Log, text: string, thinking: string, effective: bool, thinkingChunks: nat, completed: bool,
                 e: Event)
    requires Says(log, text, thinking, effective, thinkingChunks, completed) && (thinkingChunks == 0 || completed)
    requires e.EarlyDetected? || e.ParamsPartial?
    ensures Says(log + [e], text, thinking, true, thinkingChunks, completed)
  {
    Append(log, e);
    assert text + "" == text && thinking + "" == thinking;
  }

  // ---------- recorded calls ----------

  datatype ToolCall = ToolCall(id: string, name: string, arguments: Json.Value, raw: Option<string>,
                               isError: bool, recovered: bool)

  const UNKNOWN_TOOL := "unknown_tool"

  /** The call kept for a finished record whose id is not empty. */
  function Kept(f: Finalized): ToolCall {
    ToolCall(f.id, if f.name == "" then UNKNOWN_TOOL else f.name, f.arguments,
             if f.raw == "" then None else Some(f.raw), f.isError, f.recovered)
  }

  function IdsTo(calls: seq<ToolCall>, n: nat): set<string>
    requires n <= |calls|
  {
    if n == 0 then {} else IdsTo(calls, n - 1) + {calls[n - 1].id}
  }

  function Ids(calls: seq<ToolCall>): set<string> {
    IdsTo(calls, |calls|)
  }

  /** The calls of the first `n` records, later records of an id dropped. */
  function Recorded(fs: seq<Finalized>, n: nat): seq<ToolCall>
    requires n <= |fs|
  {
    if n == 0 then []
    else
      var front := Recorded(fs, n - 1);
      if fs[n - 1].id in Ids(front) then front else front + [Kept(fs[n - 1])]
  }

  /** Record `k` is the first with its id. */
  ghost predicate First(fs: seq<Finalized>, k: nat) {
    k < |fs| && forall j :: 0 <= j < k ==> fs[j].id != fs[k].id
  }

  lemma {:induction false} IdsPrefix(calls: seq<ToolCall>, c: ToolCall, n: nat)
    requires n <= |calls|
    ensures IdsTo(calls + [c], n) == IdsTo(calls, n)
  {
    if n > 0 {
      IdsPrefix(calls, c, n - 1);
    }
  }

  lemma IdsAppend(calls: seq<ToolCall>, c: ToolCall)
    ensures Ids(calls + [c]) == Ids(calls) + {c.id}
  {
    IdsPrefix(calls, c, |calls|);
  }

  lemma {:induction false} IdsMember(calls: seq<ToolCall>, n: nat, id: string)
    requires n <= |calls|
    ensures id in IdsTo(calls, n) <==> exists i :: 0 <= i < n && calls[i].id == id
  {
    if n > 0 {
      IdsMember(calls, n - 1, id);
    }
  }

  /** One of the first `n` records has this id. */
  ghost predicate HasRecord(fs: seq<Finalized>, n: nat, id: string)
    requires n <= |fs|
  {
    exists k :: 0 <= k < n && fs[k].id == id
  }

  lemma HasRecordStep(fs: seq<Finalized>, n: nat, id: string)
    requires 0 < n <= |fs|
    ensures HasRecord(fs, n, id) <==> HasRecord(fs, n - 1, id) || fs[n - 1].id == id
  {
    if HasRecord(fs, n - 1, id) {
      var k :| 0 <= k < n - 1 && fs[k].id == id;
      assert 0 <= k < n && fs[k].id == id;
    }
  }

  lemma RecordedIdsStep(fs: seq<Finalized>, n: nat)
    requires 0 < n <= |fs|
    ensures Ids(Recorded(fs, n)) == Ids(Recorded(fs, n - 1)) + {fs[n - 1].id}
  {
    IdsAppend(Recorded(fs, n - 1), Kept(fs[n - 1]));
  }

  lemma {:induction false} RecordedIds(fs: seq<Finalized>, n: nat, id: string)
    requires n <= |fs|
    ensures id in Ids(Recorded(fs, n)) <==> HasRecord(fs, n, id)
  {
    if n > 0 {
      RecordedIds(fs, n - 1, id);
      RecordedIdsStep(fs, n);
      HasRecordStep(fs, n, id);
    }
  }

  /** Call `c` was kept for the first of the first `n` records that has its id. */
  ghost predicate FirstKept(fs: seq<Finalized>, n: nat, c: ToolCall)
    requires n <= |fs|
  {
    exists k {:trigger First(fs, k)} :: 0 <= k < n && First(fs, k) && c == Kept(fs[k])
  }

  /** The recorded calls are exactly those kept for the first records of their ids. */
  lemma {:induction false} RecordedAreFirsts(fs: seq<Finalized>, n: nat, c: ToolCall)
    requires n <= |fs|
    ensures c in Recorded(fs, n) <==> FirstKept(fs, n, c)
  {
    if n > 0 {
      RecordedAreFirsts(fs, n - 1, c);
      RecordedMember(fs, n, c);
      FirstKeptStep(fs, n, c);
    }
  }

  lemma RecordedMember(fs: seq<Finalized>, n: nat, c: ToolCall)
    requires 0 < n <= |fs|
    ensures c in Recorded(fs, n) <==> c in Recorded(fs, n - 1) || (First(fs, n - 1) && c == Kept(fs[n - 1]))
  {
    NewIdIsFirst(fs, n - 1);
  }

  lemma FirstKeptStep(fs: seq<Finalized>, n: nat, c: ToolCall)
    requires 0 < n <= |fs|
    ensures FirstKept(fs, n, c) <==> FirstKept(fs, n - 1, c) || (First(fs, n - 1) && c == Kept(fs[n - 1]))
  {
    if FirstKept(fs, n - 1, c) {
      var k :| 0 <= k < n - 1 && First(fs, k) && c == Kept(fs[k]);
      assert 0 <= k < n && First(fs, k);
    }
  }

  lemma NewIdIsFirst(fs: seq<Finalized>, k: nat)
    requires k < |fs|
    ensures First(fs, k) <==> fs[k].id !in Ids(Recorded(fs, k))
  {
    RecordedIds(fs, k, fs[k].id);
    if !First(fs, k) {
      var j :| 0 <= j < k && fs[j].id == fs[k].id;
      assert HasRecord(fs, k, fs[k].id);
    }
  }

  /** Every recorded call has an id and a name. */
  lemma RecordedAreNamed(fs: seq<Finalized>)
    requires AllIdentified(fs)
    ensures forall i :: 0 <= i < |Recorded(fs, |fs|)| ==>
        Recorded(fs, |fs|)[i].id != "" && Recorded(fs, |fs|)[i].name != ""
  {
    var calls := Recorded(fs, |fs|);
    forall i | 0 <= i < |calls| ensures calls[i].id != "" && calls[i].name != "" {
      RecordedAreFirsts(fs, |fs|, calls[i]);
      var k :| 0 <= k < |fs| && First(fs, k) && calls[i] == Kept(fs[k]);
      assert HasId(fs[k]);
    }
  }

  /** No id is recorded twice. */
  lemma {:induction false} RecordedOnce(fs: seq<Finalized>, n: nat)
    requires n <= |fs|
    ensures forall i, j :: 0 <= i < j < |Recorded(fs, n)| ==> Recorded(fs, n)[i].id != Recorded(fs, n)[j].id
  {
    if n > 0 {
      RecordedOnce(fs, n - 1);
      var front := Recorded(fs, n - 1);
      forall i | 0 <= i < |front| ensures front[i].id in Ids(front) {
        IdsMember(front, |front|, front[i].id);
      }
    }
  }

  /** Recording more never changes what is recorded already. */
  lemma RecordedStep(fs: seq<Finalized>, f: Finalized)
    ensures Recorded(fs + [f], |fs| + 1)
         == if f.id in Ids(Recorded(fs, |fs|)) then Recorded(fs, |fs|) else Recorded(fs, |fs|) + [Kept(f)]
  {
    RecordedPrefix(fs, [f], |fs|);
  }

  /** The kept calls and their ids are what the records say. */
  ghost predicate Matches(calls: seq<ToolCall>, ids: set<string>, fs: seq<Finalized>) {
    && calls == Recorded(fs, |fs|)
    && ids == Ids(calls)
    && AllIdentified(fs)
  }

  ghost predicate AllIdentified(fs: seq<Finalized>) {
    forall i {:trigger HasId(fs[i])} :: 0 <= i < |fs| ==> HasId(fs[i])
  }

  predicate HasId(f: Finalized) {
    f.id != ""
  }

  lemma KeepCall(calls: seq<ToolCall>, ids: set<string>, fs: seq<Finalized>, f: Finalized)
    requires Matches(calls, ids, fs) && f.id != ""
    ensures if f.id in ids then Matches(calls, ids, fs + [f]) else Matches(calls + [Kept(f)], ids + {f.id}, fs + [f])
  {
    RecordedStep(fs, f);
    IdsAppend(calls, Kept(f));
  }

  lemma {:induction false} RecordedPrefix(fs: seq<Finalized>, more: seq<Finalized>, n: nat)
    requires n <= |fs|
    ensures Recorded(fs + more, n) == Recorded(fs, n)
    decreases n
  {
    if n == 0 {
      assert Recorded(fs + more, n) == [] && Recorded(fs, n) == [];
    } else {
      RecordedPrefix(fs, more, n - 1);
      RecordedNext(fs + more, n);
      RecordedNext(fs, n);
    }
  }

  lemma RecordedNext(fs: seq<Finalized>, n: nat)
    requires 0 < n <= |fs|
    ensures var front := Recorded(fs, n - 1);
            Recorded(fs, n) == if fs[n - 1].id in Ids(front) then front else front + [Kept(fs[n - 1])]
  {
  }

  // ---------- why a run failed ----------

  predicate StandsAt(s: string, word: string, i: int) {
    0 <= i && i + |word| <= |s| && s[i..i + |word|] == word
  }

  predicate Contains(s: string, word: string) {
    exists i :: 0 <= i <= |s| && StandsAt(s, word, i)
  }

  const CANCELLED_WORD := "cancelled"
  const USER_CANCELLED := "User " + CANCELLED_WORD + " stream processing"
  const FATAL_WORDS := "SSE Parsing Error"

  /** The events that close the first `n` calls. */
  function Closing(calls: seq<ToolCall>, reason: string, n: nat): Log
    requires n <= |calls|
  {
    if n == 0 then []
    else
      var c := calls[n - 1];
      Closing(calls, reason, n - 1)
        + [if Contains(reason, CANCELLED_WORD) then ToolCancelled(c.id, c.name, reason)
           else ToolFailed(c.id, c.name, reason)]
  }

  /** The events of a shutdown: one per recorded call, then one for the turn if there was a call. */
  function Shutdown(calls: seq<ToolCall>, reason: string): Log {
    Closing(calls, reason, |calls|)
      + if calls == [] then []
        else [if Contains(reason, CANCELLED_WORD) then TurnCancelled else TurnFailed(reason)]
  }
}
