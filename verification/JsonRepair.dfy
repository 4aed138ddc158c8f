/** Closing a JSON text that was cut off mid-stream. */
module JsonRepair {
  import opened Wrappers

  /** What a left-to-right scan has seen: inside a string, behind a backslash, open brackets, last token byte. */
  datatype Scan = Broken | Scan(inString: bool, escape: bool, stack: string, last: Option<char>)

  const START := Scan(false, false, "", None)

  function Step(s: Scan, b: char): Scan {
    match s
    case Broken => Broken
    case Scan(inString, escape, stack, last) =>
      if escape then s.(escape := false)
      else if inString then
        if b == '\\' then s.(escape := true)
        else if b == '"' then s.(inString := false, last := Some('"'))
        else s
      else if b == '"' then s.(inString := true, last := Some('"'))
      else if b == '{' || b == '[' then s.(stack := stack + [b], last := Some(b))
      else if b == '}' || b == ']' then
        if stack != "" && stack[|stack| - 1] == Opener(b) then s.(stack := stack[..|stack| - 1], last := Some(b))
        else Broken
      else if b == ' ' || b == '\t' || b == '\n' || b == '\r' then s
      else s.(last := Some(b))
  }

  function Opener(closer: char): char {
    if closer == '}' then '{' else '['
  }

  function Closer(opener: char): char {
    if opener == '{' then '}' else ']'
  }

  /** The scan of the first `n` bytes. */
  function Scanned(raw: string, n: nat): Scan
    requires n <= |raw|
  {
    if n == 0 then START else Step(Scanned(raw, n - 1), raw[n - 1])
  }

  function ScanText(raw: string): Scan {
    Scanned(raw, |raw|)
  }

  /** The brackets that close `stack`, innermost first. */
  function Closers(stack: string): (closers: string)
    ensures |closers| == |stack|
  {
    if stack == "" then "" else [Closer(stack[|stack| - 1])] + Closers(stack[..|stack| - 1])
  }

  /** Nothing is left open. */
  predicate Closed(s: Scan) {
    s.Scan? && !s.inString && s.stack == ""
  }

  /** The scan ends where closing would have to invent a value. */
  predicate MidPair(s: Scan) {
    s.Scan? && !s.inString && (s.last == Some(',') || s.last == Some(':'))
  }

  function Repair(raw: string): Option<string> {
    var s := ScanText(raw);
    if s.Broken? || Closed(s) || MidPair(s) then None
    else Some(raw + (if s.inString then "\"" else "") + Closers(s.stack))
  }

  method RepairTruncatedJson(raw: string) returns (repaired: Option<string>)
    ensures repaired == Repair(raw)
  {
    var inString, escape := false, false;
    var stack: string := "";
    var last: Option<char> := None;
    for i := 0 to |raw|
      invariant Scanned(raw, i) == Scan(inString, escape, stack, last)
      invariant forall k :: 0 <= k < |stack| ==> stack[k] == '{' || stack[k] == '['
    {
      var b := raw[i];
      ghost var before := Scanned(raw, i);
      assert Scanned(raw, i + 1) == Step(before, b);
      if escape {
        escape := false;
        continue;
      }
      if inString {
        match b {
          case '\\' => escape := true;
          case '"' => inString, last := false, Some('"');
          case _ =>
        }
        continue;
      }
      match b {
        case '"' => inString, last := true, Some('"');
        case '{' => stack, last := stack + ['{'], Some('{');
        case '[' => stack, last := stack + ['['], Some('[');
        case '}' =>
          if stack == "" || stack[|stack| - 1] != '{' {
            BrokenStays(raw, i + 1, |raw|);
            return None;
          }
          stack, last := stack[..|stack| - 1], Some('}');
        case ']' =>
          if stack == "" || stack[|stack| - 1] != '[' {
            BrokenStays(raw, i + 1, |raw|);
            return None;
          }
          stack, last := stack[..|stack| - 1], Some(']');
        case ' ' =>
        case '\t' =>
        case '\n' =>
        case '\r' =>
        case other => last := Some(other);
      }
    }
    if !inString && stack == "" {
      return None;
    }
    if !inString && (last == Some(',') || last == Some(':')) {
      return None;
    }
    var out := raw;
    if inString {
      out := out + "\"";
    }
    ghost var closed, all := out, stack;
    while stack != ""
      invariant stack <= all && out + Closers(stack) == closed + Closers(all)
      decreases |stack|
    {
      var c := stack[|stack| - 1];
      out := out + [Closer(c)];
      stack := stack[..|stack| - 1];
    }
    assert out + Closers(stack) == out;
    assert closed == raw + (if inString then "\"" else "");
    repaired := Some(out);
  }

  lemma {:induction false} BrokenStays(raw: string, i: nat, n: nat)
    requires i <= n <= |raw| && Scanned(raw, i).Broken?
    ensures Scanned(raw, n).Broken?
    decreases n - i
  {
    if i < n {
      BrokenStays(raw, i, n - 1);
    }
  }

  // ---------- what a repair achieves ----------

  /** A scan's stack holds only open brackets, and a backslash is only pending inside a string. */
  ghost predicate ScanOk(s: Scan) {
    s.Scan? ==>
      && (forall k :: 0 <= k < |s.stack| ==> s.stack[k] == '{' || s.stack[k] == '[')
      && (s.escape ==> s.inString)
  }

  lemma {:induction false} ScannedOk(raw: string, n: nat)
    requires n <= |raw|
    ensures ScanOk(Scanned(raw, n))
  {
    if n > 0 {
      ScannedOk(raw, n - 1);
    }
  }

  /** Scanning on from a given state. */
  function ScanFrom(s: Scan, more: string): Scan
    decreases |more|
  {
    if more == "" then s else ScanFrom(Step(s, more[0]), more[1..])
  }

  lemma {:induction false} ScanSplits(raw: string, more: string, n: nat)
    requires n <= |more|
    ensures Scanned(raw + more, |raw| + n) == ScanFrom(ScanText(raw), more[..n])
    decreases n
  {
    if n == 0 {
      ScanPrefix(raw, more, |raw|);
      assert more[..0] == "";
    } else {
      ScanSplits(raw, more, n - 1);
      ScanLast(ScanText(raw), more[..n]);
      assert more[..n][..n - 1] == more[..n - 1];
    }
  }

  lemma {:induction false} ScanPrefix(raw: string, more: string, n: nat)
    requires n <= |raw|
    ensures Scanned(raw + more, n) == Scanned(raw, n)
  {
    if n > 0 {
      ScanPrefix(raw, more, n - 1);
    }
  }

  lemma {:induction false} ScanLast(s: Scan, more: string)
    requires more != ""
    ensures ScanFrom(s, more) == Step(ScanFrom(s, more[..|more| - 1]), more[|more| - 1])
    decreases |more|
  {
    if |more| == 1 {
      assert more[1..] == "" && more[..0] == "";
    } else {
      ScanLast(Step(s, more[0]), more[1..]);
      assert more[1..][..|more| - 2] == more[..|more| - 1][1..];
    }
  }

  lemma ScanAppend(raw: string, more: string)
    ensures ScanText(raw + more) == ScanFrom(ScanText(raw), more)
  {
    ScanSplits(raw, more, |more|);
    assert more[..|more|] == more;
  }

  /** Outside strings the closers empty the stack. */
  lemma {:induction false} ClosersClose(s: Scan)
    requires s.Scan? && ScanOk(s) && !s.inString
    ensures Closed(ScanFrom(s, Closers(s.stack)))
    decreases if s.Scan? then |s.stack| else 0
  {
    if s.stack != "" {
      var closers := Closers(s.stack);
      var next := Step(s, closers[0]);
      assert next.stack == s.stack[..|s.stack| - 1];
      assert closers[1..] == Closers(next.stack);
      ClosersClose(next);
    }
  }

  /** Inside a string closers are just text. */
  lemma {:induction false} ClosersInString(s: Scan, stack: string)
    requires s.Scan? && s.inString && !s.escape
    requires forall k :: 0 <= k < |stack| ==> stack[k] == '{' || stack[k] == '['
    ensures ScanFrom(s, Closers(stack)) == s
    decreases |stack|
  {
    if stack != "" {
      assert Closers(stack)[1..] == Closers(stack[..|stack| - 1]);
      ClosersInString(s, stack[..|stack| - 1]);
    }
  }

  /**
   * A repair keeps the text as it was and only appends, and it leaves nothing open
   * exactly when the text was not cut right behind a backslash: there the quote it
   * appends is itself escaped.
   */
  lemma RepairClosesUnlessEscaped(raw: string)
    requires Repair(raw).Some?
    ensures raw < Repair(raw).value
    ensures Closed(ScanText(Repair(raw).value)) <==> !ScanText(raw).escape
  {
    var s, out := ScanText(raw), Repair(raw).value;
    var quote := if s.inString then "\"" else "";
    ScannedOk(raw, |raw|);
    assert raw + quote + Closers(s.stack) == raw + (quote + Closers(s.stack));
    ScanAppend(raw, quote);
    ScanAppend(raw + quote, Closers(s.stack));
    if s.inString {
      assert quote[1..] == "";
      assert ScanFrom(s, quote) == Step(s, '"');
    }
    if s.escape {
      ClosersInString(s.(escape := false), s.stack);
    } else {
      ClosersClose(s.(inString := false, last := if s.inString then Some('"') else s.last));
    }
  }

  /** What a repair declines: broken nesting, nothing open, or a cut in the middle of a pair. */
  lemma RepairDeclines(raw: string)
    ensures Repair(raw).None? <==> ScanText(raw).Broken? || Closed(ScanText(raw)) || MidPair(ScanText(raw))
    ensures Repair(raw).Some? && !ScanText(raw).escape ==> Repair(Repair(raw).value) == None
  {
    if Repair(raw).Some? {
      RepairClosesUnlessEscaped(raw);
    }
  }

  /** Such texts exist: an object cut inside a key, right behind a backslash. */
  lemma RepairCanLeaveAStringOpen()
    ensures exists raw :: Repair(raw).Some? && !Closed(ScanText(Repair(raw).value))
  {
    var raw := ['{', '"', '\\'];
    assert Scanned(raw, 1) == Scan(false, false, "{", Some('{'));
    assert Scanned(raw, 2) == Scan(true, false, "{", Some('"'));
    assert Scanned(raw, 3) == Scan(true, true, "{", Some('"'));
    RepairClosesUnlessEscaped(raw);
  }
}
