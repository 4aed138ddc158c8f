/** What the repair's scan tells of a text, against a grammar of quotes and brackets. */
module JsonText {
  import opened Wrappers
  import opened JsonRepair

  // ---------- well-nested texts ----------

  /** A text in which every string and every bracket is closed, read from its end. */
  datatype Text =
    | Empty
    | Plain(front: Text, c: char)
    | Quoted(front: Text, body: string)
    | Group(front: Text, opener: char, inner: Text)

  /** The inside of a string: a quote or a backslash only behind a backslash of its own. */
  predicate IsBody(body: string) {
    || body == ""
    || (body[0] == '\\' && |body| > 1 && IsBody(body[2..]))
    || (body[0] != '\\' && body[0] != '"' && IsBody(body[1..]))
  }

  predicate IsBracket(c: char) {
    c == '{' || c == '}' || c == '[' || c == ']'
  }

  predicate Nests(t: Text) {
    match t
    case Empty => true
    case Plain(front, c) => Nests(front) && c != '"' && !IsBracket(c)
    case Quoted(front, body) => Nests(front) && IsBody(body)
    case Group(front, opener, inner) => Nests(front) && (opener == '{' || opener == '[') && Nests(inner)
  }

  function Written(t: Text): string {
    match t
    case Empty => ""
    case Plain(front, c) => Written(front) + [c]
    case Quoted(front, body) => Written(front) + ("\"" + body + "\"")
    case Group(front, opener, inner) =>
      Written(front) + ([opener] + Written(inner) + [if opener == '{' then '}' else ']'])
  }

  /** Every string and bracket of the text is closed, each bracket by its own kind. */
  ghost predicate WellNested(raw: string) {
    exists t {:trigger Written(t)} :: Nests(t) && Written(t) == raw
  }

  // ---------- scanning a well-nested text ----------

  lemma {:induction false} ScanJoin(s: Scan, a: string, b: string)
    ensures ScanFrom(s, a + b) == ScanFrom(ScanFrom(s, a), b)
    decreases |a|
  {
    if a == "" {
      assert a + b == b;
    } else {
      ScanJoin(Step(s, a[0]), a[1..], b);
      assert (a + b)[1..] == a[1..] + b;
    }
  }

  lemma ScanOne(s: Scan, c: char)
    ensures ScanFrom(s, [c]) == Step(s, c)
  {
    assert [c][1..] == "";
  }

  lemma {:induction false} ScanBody(s: Scan, body: string)
    requires s.Scan? && s.inString && !s.escape && IsBody(body)
    ensures ScanFrom(s, body) == s
    decreases |body|
  {
    if body != "" {
      if body[0] == '\\' {
        assert body[1..][1..] == body[2..];
        ScanBody(s, body[2..]);
      } else {
        ScanBody(s, body[1..]);
      }
    }
  }

  /** Scanning a string and coming out of it again. */
  lemma ScanQuoted(s: Scan, body: string)
    requires s.Scan? && !s.inString && !s.escape && IsBody(body)
    ensures ScanFrom(s, "\"" + body + "\"") == s.(last := Some('"'))
  {
    var inside := s.(inString := true, last := Some('"'));
    ScanOne(s, '"');
    ScanJoin(s, "\"", body);
    ScanBody(inside, body);
    ScanJoin(s, "\"" + body, "\"");
    ScanOne(inside, '"');
  }

  /** Outside strings, with the same brackets open. */
  ghost predicate Level(s: Scan, stack: string) {
    s.Scan? && !s.inString && !s.escape && s.stack == stack
  }

  lemma {:induction false} ScanWritten(s: Scan, t: Text)
    requires s.Scan? && Level(s, s.stack) && Nests(t)
    ensures Level(ScanFrom(s, Written(t)), s.stack)
    decreases t
  {
    match t
    case Empty =>
    case Plain(front, c) =>
      ScanWritten(s, front);
      ScanJoin(s, Written(front), [c]);
      ScanOne(ScanFrom(s, Written(front)), c);
    case Quoted(front, body) =>
      ScanWritten(s, front);
      ScanJoin(s, Written(front), "\"" + body + "\"");
      ScanQuoted(ScanFrom(s, Written(front)), body);
    case Group(front, opener, inner) =>
      ScanWritten(s, front);
      var mid := ScanFrom(s, Written(front));
      ScanJoin(s, Written(front), [opener] + Written(inner) + [if opener == '{' then '}' else ']']);
      ScanWritten(Step(mid, opener), inner);
      ScanGroup(mid, opener, Written(inner));
  }

  lemma ScanGroup(s: Scan, opener: char, inner: string)
    requires s.Scan? && Level(s, s.stack) && (opener == '{' || opener == '[')
    requires Level(ScanFrom(Step(s, opener), inner), s.stack + [opener])
    ensures Level(ScanFrom(s, [opener] + inner + [if opener == '{' then '}' else ']']), s.stack)
  {
    var closer := if opener == '{' then '}' else ']';
    ScanOne(s, opener);
    ScanJoin(s, [opener], inner);
    ScanJoin(s, [opener] + inner, [closer]);
    var before := ScanFrom(s, [opener] + inner);
    ScanOne(before, closer);
    assert before.stack[..|before.stack| - 1] == s.stack;
  }

  // ---------- reading a text that has been scanned ----------

  /** Where a text stops: at the top, or inside a bracket that is still open. */
  datatype Place = Top(text: Text) | Inside(outer: Place, opener: char, text: Text)

  predicate PlaceNests(p: Place) {
    match p
    case Top(text) => Nests(text)
    case Inside(outer, opener, text) => PlaceNests(outer) && (opener == '{' || opener == '[') && Nests(text)
  }

  function PlaceWritten(p: Place): string {
    match p
    case Top(text) => Written(text)
    case Inside(outer, opener, text) => PlaceWritten(outer) + [opener] + Written(text)
  }

  /** The brackets that are open, outermost first. */
  function Openers(p: Place): string {
    match p
    case Top(_) => ""
    case Inside(outer, opener, _) => Openers(outer) + [opener]
  }

  /** The place `p`, and behind a quote the part of a string, are what has been scanned. */
  ghost predicate ReadAs(raw: string, s: Scan, p: Place, body: string) {
    && s.Scan? && PlaceNests(p) && s.stack == Openers(p) && IsBody(body)
    && (s.escape ==> s.inString)
    && raw == PlaceWritten(p) +
         (if !s.inString then "" else if s.escape then "\"" + body + "\\" else "\"" + body)
  }

  lemma {:induction false} BodyJoins(a: string, b: string)
    requires IsBody(a) && IsBody(b)
    ensures IsBody(a + b)
    decreases |a|
  {
    if a == "" {
      assert a + b == b;
    } else if a[0] == '\\' {
      BodyJoins(a[2..], b);
      assert (a + b)[2..] == a[2..] + b;
    } else {
      BodyJoins(a[1..], b);
      assert (a + b)[1..] == a[1..] + b;
    }
  }

  /** The place with its text grown at the end. */
  function Grown(p: Place, text: Text): Place {
    match p
    case Top(_) => Top(text)
    case Inside(outer, opener, _) => Inside(outer, opener, text)
  }

  lemma GrownWrites(p: Place, text: Text, more: string)
    requires PlaceNests(p) && Nests(text) && Written(text) == Written(p.text) + more
    ensures PlaceNests(Grown(p, text)) && Openers(Grown(p, text)) == Openers(p)
    ensures PlaceWritten(Grown(p, text)) == PlaceWritten(p) + more
  {
    if p.Inside? {
      assert PlaceWritten(p.outer) + [p.opener] + (Written(p.text) + more)
          == PlaceWritten(p.outer) + [p.opener] + Written(p.text) + more;
    }
  }

  /** One more character inside a string. */
  lemma ReadInString(raw: string, s: Scan, p: Place, body: string, b: char) returns (p': Place, body': string)
    requires ReadAs(raw, s, p, body) && s.inString
    ensures ReadAs(raw + [b], Step(s, b), p', body')
  {
    p', body' := p, body;
    if s.escape {
      body' := body + ['\\', b];
      assert IsBody(['\\', b]) by {
        assert ['\\', b][2..] == "";
      }
      BodyJoins(body, ['\\', b]);
      assert raw + [b] == PlaceWritten(p) + ("\"" + body');
    } else if b == '\\' {
      assert raw + [b] == PlaceWritten(p) + ("\"" + body + "\\");
    } else if b == '"' {
      p', body' := Grown(p, Quoted(p.text, body)), "";
      PlaceTextNests(p);
      GrownWrites(p, Quoted(p.text, body), "\"" + body + "\"");
      assert raw + [b] == PlaceWritten(p) + ("\"" + body + "\"");
      assert PlaceWritten(p') + "" == PlaceWritten(p');
    } else {
      body' := body + [b];
      assert IsBody([b]) by {
        assert [b][1..] == "";
      }
      BodyJoins(body, [b]);
      assert raw + [b] == PlaceWritten(p) + ("\"" + body');
    }
  }

  lemma PlaceTextNests(p: Place)
    requires PlaceNests(p)
    ensures Nests(p.text)
  {
  }

  /** One more character outside strings. */
  lemma ReadOutside(raw: string, s: Scan, p: Place, b: char) returns (p': Place)
    requires ReadAs(raw, s, p, "") && !s.inString && Step(s, b).Scan?
    ensures ReadAs(raw + [b], Step(s, b), p', "")
  {
    assert raw == PlaceWritten(p);
    PlaceTextNests(p);
    if b == '"' {
      p' := p;
      assert raw + [b] == PlaceWritten(p) + ("\"" + "");
    } else if b == '{' || b == '[' {
      p' := Inside(p, b, Empty);
      assert PlaceWritten(p') + "" == raw + [b];
    } else if b == '}' || b == ']' {
      p' := CloseGroup(p, b);
      assert PlaceWritten(p') + "" == raw + [b];
    } else {
      p' := Grown(p, Plain(p.text, b));
      GrownWrites(p, Plain(p.text, b), [b]);
      assert PlaceWritten(p') + "" == raw + [b];
    }
  }

  /** Closing the innermost bracket makes a group of what is inside. */
  lemma CloseGroup(p: Place, b: char) returns (p': Place)
    requires PlaceNests(p) && (b == '}' || b == ']') && p.Inside? && p.opener == (if b == '}' then '{' else '[')
    ensures PlaceNests(p') && Openers(p') == Openers(p)[..|Openers(p)| - 1]
    ensures PlaceWritten(p') == PlaceWritten(p) + [b]
  {
    var outer := p.outer;
    PlaceTextNests(outer);
    var group := Group(outer.text, p.opener, p.text);
    p' := Grown(outer, group);
    GrownWrites(outer, group, [p.opener] + Written(p.text) + [b]);
    assert PlaceWritten(outer) + ([p.opener] + Written(p.text) + [b]) == PlaceWritten(p) + [b];
  }

  /** Whatever has been scanned without breaking can be read: complete parts around brackets that are still open. */
  lemma {:induction false} ReadScanned(raw: string, n: nat) returns (p: Place, body: string)
    requires n <= |raw| && Scanned(raw, n).Scan?
    ensures ReadAs(raw[..n], Scanned(raw, n), p, body)
    ensures !Scanned(raw, n).inString ==> body == ""
  {
    if n == 0 {
      p, body := Top(Empty), "";
    } else {
      p, body := ReadScanned(raw, n - 1);
      var s, b := Scanned(raw, n - 1), raw[n - 1];
      assert raw[..n] == raw[..n - 1] + [b];
      if s.inString {
        p, body := ReadInString(raw[..n - 1], s, p, body, b);
        if !Step(s, b).inString {
          body := "";
        }
      } else {
        p := ReadOutside(raw[..n - 1], s, p, b);
        body := "";
      }
    }
  }

  /** The scan finds a text closed if and only if it is well nested. */
  lemma ClosedIffWellNested(raw: string)
    ensures Closed(ScanText(raw)) <==> WellNested(raw)
  {
    if Closed(ScanText(raw)) {
      var p, body := ReadScanned(raw, |raw|);
      assert raw[..|raw|] == raw;
      assert p.Top?;
      assert Written(p.text) == raw;
    }
    if WellNested(raw) {
      var t :| Nests(t) && Written(t) == raw;
      ScanWritten(START, t);
      ScanAppend("", raw);
      assert "" + raw == raw;
    }
  }

  /** The scan breaks if and only if nothing behind the text could make it well nested. */
  lemma BrokenIffHopeless(raw: string)
    ensures ScanText(raw).Broken? <==> forall more {:trigger raw + more} :: !WellNested(raw + more)
  {
    var s := ScanText(raw);
    if s.Broken? {
      forall more {:trigger raw + more} ensures !WellNested(raw + more) {
        ScanAppend(raw, more);
        BrokenFrom(more);
        ClosedIffWellNested(raw + more);
      }
    } else {
      ScannedOk(raw, |raw|);
      var first := if s.escape then "\\" else "";
      var quote := if s.inString then "\"" else "";
      var more := first + quote + Closers(s.stack);
      ScanFinish(s, first, quote);
      ScanAppend(raw, more);
      ClosedIffWellNested(raw + more);
    }
  }

  lemma {:induction false} BrokenFrom(more: string)
    ensures ScanFrom(Broken, more) == Broken
    decreases |more|
  {
    if more != "" {
      BrokenFrom(more[1..]);
    }
  }

  /** Ending a pending escape, the string and the brackets closes everything. */
  lemma ScanFinish(s: Scan, first: string, quote: string)
    requires s.Scan? && ScanOk(s)
    requires first == (if s.escape then "\\" else "") && quote == (if s.inString then "\"" else "")
    ensures Closed(ScanFrom(s, first + quote + Closers(s.stack)))
  {
    var a := ScanFrom(s, first);
    ScanOne(s, '\\');
    ScanJoin(s, first, quote);
    ScanOne(a, '"');
    ScanJoin(s, first + quote, Closers(s.stack));
    ClosersClose(ScanFrom(s, first + quote));
  }

  // ---------- what the repair declines ----------

  predicate Space(c: char) {
    c == ' ' || c == '\t' || c == '\n' || c == '\r'
  }

  /** The last of the first `n` characters that is not white space. */
  function LastVisible(raw: string, n: nat): Option<char>
    requires n <= |raw|
  {
    if n == 0 then None else if Space(raw[n - 1]) then LastVisible(raw, n - 1) else Some(raw[n - 1])
  }

  /** Outside strings the scan remembers the last visible character. */
  lemma {:induction false} LastIsVisible(raw: string, n: nat)
    requires n <= |raw| && Scanned(raw, n).Scan? && !Scanned(raw, n).inString
    ensures Scanned(raw, n).last == LastVisible(raw, n)
  {
    if n > 0 {
      ScannedOk(raw, n - 1);
      if !Scanned(raw, n - 1).inString {
        LastIsVisible(raw, n - 1);
      }
    }
  }

  /**
   * The repair declines exactly the texts nothing could complete, those that are complete, and
   * those that end, outside strings, in a comma or a colon.
   */
  lemma RepairDeclinesIff(raw: string)
    ensures Repair(raw).None? <==>
      || (forall more {:trigger raw + more} :: !WellNested(raw + more))
      || WellNested(raw)
      || (ScanText(raw).Scan? && !ScanText(raw).inString
           && (LastVisible(raw, |raw|) == Some(',') || LastVisible(raw, |raw|) == Some(':')))
  {
    BrokenIffHopeless(raw);
    ClosedIffWellNested(raw);
    if ScanText(raw).Scan? && !ScanText(raw).inString {
      LastIsVisible(raw, |raw|);
    }
  }

  /** A repair makes the text well nested if and only if the text was not cut behind a backslash. */
  lemma RepairNestsIff(raw: string)
    requires Repair(raw).Some?
    ensures raw < Repair(raw).value && (WellNested(Repair(raw).value) <==> !ScanText(raw).escape)
  {
    RepairClosesUnlessEscaped(raw);
    ClosedIffWellNested(Repair(raw).value);
  }
}
