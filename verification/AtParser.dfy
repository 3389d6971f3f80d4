/** The incremental AT command interpreter (bta/ag/bta_ag_at.cc): a command buffer filled from
    whatever chunks RFCOMM delivers, against a transducer that reads one octet at a time. */
module AtParser {
  import opened Bytes
  import opened AtText
  import opened Collections
  import opened Division
  import opened Transducers

  const CR: byte := 0x0D
  const LF: byte := 0x0A
  const SUB: byte := 0x1A
  const ESC: byte := 0x1B
  const QUESTION: byte := 0x3F
  const EQUALS: byte := 0x3D

  datatype ArgType = ArgNone | ArgSet | ArgRead | ArgTest | ArgFree

  datatype AtCommand = AtCommand(cmd: seq<byte>, id: nat, argTypes: set<ArgType>, isInt: bool, min: int, max: int)

  /** The calls the interpreter makes to its owner. */
  datatype Callback =
    | Command(id: nat, argType: ArgType, arg: seq<byte>, intArg: int)
    | Error(unknown: bool, text: seq<byte>)

  /** A command table is closed by an entry whose command is empty. */
  ghost predicate ValidTable(table: seq<AtCommand>) {
    && table != [] && table[|table| - 1].cmd == []
    && forall e :: e in table ==> 0 !in e.cmd
  }

  type Table = t: seq<AtCommand> | ValidTable(t) witness [AtCommand([], 0, {}, false, 0, 0)]

  // ----- one command

  /** Octet `k` of an argument; the command buffer holds a NUL after the last one. */
  function At(arg: seq<byte>, k: nat): byte { if k < |arg| then arg[k] else 0 }

  function Classify(rest: seq<byte>): ArgType {
    if At(rest, 0) == 0 then ArgNone
    else if At(rest, 0) == QUESTION && At(rest, 1) == 0 then ArgRead
    else if At(rest, 0) == EQUALS && At(rest, 1) != 0 then
      if At(rest, 1) == QUESTION && At(rest, 2) == 0 then ArgTest else ArgSet
    else ArgFree
  }

  /** What entry `e`, matched by `text`, answers. */
  function Answer(e: AtCommand, text: seq<byte>): Callback
    requires |e.cmd| <= |text|
  {
    var rest := text[|e.cmd|..];
    var kind := Classify(rest);
    var arg := if kind == ArgSet then rest[1..] else rest;
    if kind !in e.argTypes then Error(false, [])
    else if kind == ArgSet && e.isInt then
      var v := ArgumentValue(arg);
      if e.min <= v <= e.max then Command(e.id, kind, arg, v) else Error(false, [])
    else Command(e.id, kind, arg, 0)
  }

  /** The one callback a command line produces: the first entry that matches answers it. */
  ghost function Dispatch(table: seq<AtCommand>, text: seq<byte>): Callback {
    if table == [] || table[0].cmd == [] then Error(true, CString(text))
    else if Matches(table[0].cmd, text) then Answer(table[0], text)
    else Dispatch(table[1..], text)
  }

  /** No entry is another one's beginning. */
  ghost predicate PrefixFree(entries: seq<AtCommand>) {
    forall x, y :: x in entries && y in entries && x.cmd <= y.cmd ==> x == y
  }

  /** Two entries that match one line are prefixes of each other. */
  lemma MatchesArePrefixes(a: seq<byte>, b: seq<byte>, text: seq<byte>)
    requires Matches(a, text) && Matches(b, text) && |a| <= |b|
    ensures a <= b
  {
  }

  ghost predicate SomeMatch(entries: seq<AtCommand>, text: seq<byte>) {
    exists e :: e in entries && Matches(e.cmd, text)
  }

  /** The scan finds an entry that matches if there is one. */
  lemma {:induction false} DispatchFinds(entries: seq<AtCommand>, end: AtCommand, text: seq<byte>) returns (e: AtCommand)
    requires end.cmd == [] && (forall x :: x in entries ==> x.cmd != []) && SomeMatch(entries, text)
    ensures e in entries && Matches(e.cmd, text) && Dispatch(entries + [end], text) == Answer(e, text)
    decreases |entries|
  {
    if Matches(entries[0].cmd, text) {
      e := entries[0];
    } else {
      assert (entries + [end])[1..] == entries[1..] + [end];
      assert forall x :: x in entries ==> x == entries[0] || x in entries[1..];
      e := DispatchFinds(entries[1..], end, text);
    }
  }

  lemma {:induction false} DispatchMisses(entries: seq<AtCommand>, end: AtCommand, text: seq<byte>)
    requires end.cmd == [] && (forall x :: x in entries ==> x.cmd != []) && !SomeMatch(entries, text)
    ensures Dispatch(entries + [end], text) == Error(true, CString(text))
    decreases |entries|
  {
    if entries != [] {
      assert (entries + [end])[1..] == entries[1..] + [end];
      DispatchMisses(entries[1..], end, text);
    }
  }

  /** In a prefix-free table the order of the entries does not matter: the same entries in any other
      order, even repeated, answer every line alike. */
  lemma OrderDoesNotMatter(a: seq<AtCommand>, b: seq<AtCommand>, end: AtCommand, text: seq<byte>)
    requires end.cmd == [] && (forall x :: x in a ==> x.cmd != []) && PrefixFree(a)
    requires forall x :: x in a <==> x in b
    ensures Dispatch(a + [end], text) == Dispatch(b + [end], text)
  {
    if SomeMatch(a, text) {
      var x := DispatchFinds(a, end, text);
      assert SomeMatch(b, text);
      var y := DispatchFinds(b, end, text);
      if |x.cmd| <= |y.cmd| { MatchesArePrefixes(x.cmd, y.cmd, text); }
      else { MatchesArePrefixes(y.cmd, x.cmd, text); }
    } else {
      DispatchMisses(a, end, text);
      DispatchMisses(b, end, text);
    }
  }

  // ----- the octet-at-a-time transducer

  predicate IsEol(c: byte) { c == CR || c == LF }

  predicate IsEscape(c: byte) { c == SUB || c == ESC }

  /** A line is executed when it starts with AT in any case and has something after it. */
  predicate Accepted(line: seq<byte>) {
    |line| > 2 && Upper(line[0]) == 0x41 && Upper(line[1]) == 0x54
  }

  /** The text an octet is added to: a full buffer is thrown away first. */
  function Room(max: nat, pending: seq<byte>): seq<byte> {
    if |pending| == max - 1 then [] else pending
  }

  /** What the transducer hands on: the text after AT of an accepted line, or the text up to an
      escape octet. */
  datatype Line = CommandLine(text: seq<byte>) | Escaped(text: seq<byte>)

  /** One octet. */
  function Step(max: nat, pending: seq<byte>, c: byte): Outcome<seq<byte>, Line> {
    var line := Room(max, pending);
    if line == [] && c == 0 then Outcome([], [])
    else if IsEol(c) then Outcome([], if Accepted(line) then [CommandLine(line[2..])] else [])
    else if IsEscape(c) then Outcome([], [Escaped(line + [c])])
    else Outcome(line + [c], [])
  }

  lemma SameRoomSameStep(max: nat, p: seq<byte>, q: seq<byte>, c: byte)
    requires Room(max, p) == Room(max, q)
    ensures Step(max, p, c) == Step(max, q, c)
  {
  }

  function Stepper(max: nat): (seq<byte>, byte) -> Outcome<seq<byte>, Line> {
    (pending: seq<byte>, c: byte) => Step(max, pending, c)
  }

  /** The pending text and the lines after all of `data`. */
  function Parsed(max: nat, pending: seq<byte>, data: seq<byte>): Outcome<seq<byte>, Line> {
    Run(Stepper(max), pending, data)
  }

  // ----- properties of the transducer

  function ParsedChunks(max: nat, pending: seq<byte>, chunks: seq<seq<byte>>)
    : Outcome<seq<byte>, Line>
    decreases chunks
  {
    if chunks == [] then Outcome(pending, [])
    else
      var first := Parsed(max, pending, chunks[0]);
      var rest := ParsedChunks(max, first.state, chunks[1..]);
      Outcome(rest.state, first.out + rest.out)
  }

  /** However the octets are cut into chunks, empty ones included, the lines and the pending
      text are those of one call with all of them. */
  lemma {:induction false} AnyChunking(max: nat, pending: seq<byte>, chunks: seq<seq<byte>>)
    ensures ParsedChunks(max, pending, chunks) == Parsed(max, pending, Flatten(chunks))
    decreases chunks
  {
    if chunks != [] {
      AnyChunking(max, Parsed(max, pending, chunks[0]).state, chunks[1..]);
      RunConcat(Stepper(max), pending, chunks[0], Flatten(chunks[1..]));
    }
  }

  /** An octet triggers a callback: it ends an accepted line or is one of the two escape octets. */
  predicate Triggers(max: nat, pending: seq<byte>, c: byte) {
    IsEscape(c) || (IsEol(c) && Accepted(Room(max, pending)))
  }

  /** The positions of the octets that trigger a callback. */
  function Triggering(max: nat, pending: seq<byte>, data: seq<byte>): set<nat>
  {
    set i: nat | i < |data| && Triggers(max, Parsed(max, pending, data[..i]).state, data[i])
  }

  lemma StepCallback(max: nat, pending: seq<byte>, c: byte)
    ensures |Step(max, pending, c).out| == if Triggers(max, pending, c) then 1 else 0
  {
  }

  lemma TriggeringGrows(max: nat, pending: seq<byte>, data: seq<byte>)
    requires data != []
    ensures
      var n := |data| - 1;
      var before := Triggering(max, pending, data[..n]);
      Triggering(max, pending, data) ==
        if Triggers(max, Parsed(max, pending, data[..n]).state, data[n]) then before + {n} else before
  {
    var n := |data| - 1;
    assert forall i :: 0 <= i < n ==> data[..n][..i] == data[..i];
  }

  /** Exactly one line, and so one callback, for every accepted line and for every 0x1A or 0x1B octet. */
  lemma {:induction false} OneCallbackEach(max: nat, pending: seq<byte>, data: seq<byte>)
    ensures |Parsed(max, pending, data).out| == |Triggering(max, pending, data)|
    decreases |data|
  {
    if data != [] {
      var n := |data| - 1;
      OneCallbackEach(max, pending, data[..n]);
      StepCallback(max, Parsed(max, pending, data[..n]).state, data[n]);
      TriggeringGrows(max, pending, data);
      assert n !in Triggering(max, pending, data[..n]);
    }
  }

  /** The part of a line that is left once whole buffers have been cut off its front. */
  function Residue(line: seq<byte>, m: nat): (r: seq<byte>)
    requires m > 0
    ensures |r| <= m
  {
    line[|line| - Left(|line|, m)..]
  }

  /** How many of `n` octets are left when they are taken away `m` at a time, the last `m` staying. */
  function Left(n: nat, m: nat): (r: nat)
    requires m > 0
    ensures r <= n && r <= m
  {
    if n <= m then n else Left(n - m, m)
  }

  lemma {:induction false} LeftGrows(n: nat, m: nat)
    requires m > 0
    ensures Left(n + 1, m) == if Left(n, m) == m then 1 else Left(n, m) + 1
    decreases n
  {
    if n > m {
      LeftGrows(n - m, m);
    }
  }

  /** That is their number modulo `m`, counted from one to `m`. */
  lemma {:induction false} LeftIsModulo(n: nat, m: nat)
    requires m > 0
    ensures Left(n, m) == if n == 0 then 0 else (n - 1) % m + 1
    decreases n
  {
    if n > m {
      LeftIsModulo(n - m, m);
      DivStep(n - 1, m);
    }
  }

  predicate PlainOctet(c: byte) { c != 0 && !IsEol(c) && !IsEscape(c) }

  predicate Plain(line: seq<byte>) {
    forall k :: 0 <= k < |line| ==> PlainOctet(line[k])
  }

  lemma PlainStep(max: nat, p: seq<byte>, c: byte)
    requires 2 <= max && PlainOctet(c)
    ensures Step(max, p, c) == Outcome(if |p| == max - 1 then [c] else p + [c], [])
  {
    assert [] + [c] == [c];
  }

  lemma ResidueGrows(line: seq<byte>, k: nat, m: nat)
    requires m > 0 && k < |line|
    ensures
      var before := Residue(line[..k], m);
      Residue(line[..k + 1], m) == if |before| == m then [line[k]] else before + [line[k]]
  {
    LeftGrows(k, m);
  }

  /** A line of any length leaves in the buffer what remains of it modulo the buffer size. */
  lemma OverlongLine(max: nat, line: seq<byte>)
    requires 2 <= max && Plain(line)
    ensures Parsed(max, [], line) == Outcome(Residue(line, max - 1), [])
  {
    var states := seq(|line| + 1, k requires 0 <= k <= |line| => Residue(line[..k], max - 1));
    forall k | 0 <= k < |line| ensures Stepper(max)(states[k], line[k]) == Outcome(states[k + 1], []) {
      ResidueGrows(line, k, max - 1);
      PlainStep(max, states[k], line[k]);
    }
    SilentRun(Stepper(max), states, line);
    assert line[..|line|] == line;
  }

  /** How much that is: the length modulo the room in the buffer, with a full buffer for no remainder. */
  lemma ResidueLength(line: seq<byte>, m: nat)
    requires m > 0
    ensures |Residue(line, m)| == if line == [] then 0 else (|line| - 1) % m + 1
    ensures Residue(line, m) == line[|line| - |Residue(line, m)|..]
  {
    LeftIsModulo(|line|, m);
  }

  /** An over-long line is not dropped as a whole: at its end the remainder modulo the buffer size
      is executed as though it were the line, and nothing is when the buffer is exactly full. */
  lemma OverlongLineExecutesRemainder(max: nat, line: seq<byte>, eol: byte)
    requires 2 <= max && Plain(line) && IsEol(eol)
    ensures
      var tail := Room(max, Residue(line, max - 1));
      Parsed(max, [], line + [eol]) ==
        Outcome([], if Accepted(tail) then [CommandLine(tail[2..])] else [])
  {
    OverlongLine(max, line);
    assert (line + [eol])[..|line|] == line;
  }

  /** The callback a line produces. */
  ghost function AnswerTo(table: seq<AtCommand>, line: Line): Callback {
    match line
    case CommandLine(text) => Dispatch(table, text)
    case Escaped(text) => Error(true, CString(text))
  }

  /** One callback for each line, in order. */
  ghost predicate Answered(table: seq<AtCommand>, lines: seq<Line>, calls: seq<Callback>) {
    |calls| == |lines| && forall k :: 0 <= k < |calls| ==> calls[k] == AnswerTo(table, lines[k])
  }

  // ----- the interpreter

  class AtInterpreter {
    const table: Table
    const cmdMaxLen: nat
    var cmdBuf: array?<byte>
    var cmdPos: nat
    ghost var lines: seq<Line>
    ghost var calls: seq<Callback>

    ghost predicate Valid()
      reads this
    {
      && 2 <= cmdMaxLen && Answered(table, lines, calls)
      && (cmdBuf == null ==> cmdPos == 0)
      && (cmdBuf != null ==> cmdBuf.Length == cmdMaxLen && cmdPos < cmdMaxLen)
    }

    /** The text of the command received so far. */
    ghost function Pending(): (s: seq<byte>)
      requires Valid()
      reads this, cmdBuf
      ensures |s| < cmdMaxLen
    {
      if cmdBuf == null then [] else cmdBuf[..cmdPos]
    }

    /** bta_ag_at_init, on a block that owns the table and the buffer size. */
    constructor (table: Table, cmdMaxLen: nat)
      requires 2 <= cmdMaxLen
      ensures Valid() && Pending() == [] && lines == []
      ensures this.table == table && this.cmdMaxLen == cmdMaxLen && cmdBuf == null
    {
      this.table, this.cmdMaxLen := table, cmdMaxLen;
      cmdBuf, cmdPos, lines, calls := null, 0, [], [];
    }

    /** bta_ag_at_reinit. */
    method Reinit()
      requires Valid()
      modifies this
      ensures Valid() && Pending() == [] && lines == old(lines) && calls == old(calls) && cmdBuf == null
    {
      cmdBuf, cmdPos := null, 0;
    }

    /** The part of bta_ag_process_at that follows the search: entry `e` has matched the line. */
    method Respond(e: AtCommand, buf: array<byte>, start: nat, end: nat) returns (cb: Callback)
      requires start + |e.cmd| <= end < buf.Length && buf[end] == 0
      ensures cb == Answer(e, buf[start..end])
    {
      var pArg := start + |e.cmd|;
      ghost var rest := buf[start..end][|e.cmd|..];
      assert rest == buf[pArg..end];
      var argType := ArgFree;
      if buf[pArg] == 0 {
        argType := ArgNone;
      } else if buf[pArg] == QUESTION && buf[pArg + 1] == 0 {
        argType := ArgRead;
      } else if buf[pArg] == EQUALS && buf[pArg + 1] != 0 {
        if buf[pArg + 1] == QUESTION && buf[pArg + 2] == 0 {
          argType := ArgTest;
        } else {
          argType := ArgSet;
          pArg := pArg + 1;
          assert rest[1..] == buf[pArg..end];
        }
      }
      assert argType == Classify(rest);
      if argType in e.argTypes {
        if argType == ArgSet && e.isInt {
          var intArg := StringToInt(buf, pArg, end);
          if intArg < e.min || intArg > e.max {
            cb := Error(false, []);
          } else {
            cb := Command(e.id, argType, buf[pArg..end], intArg);
          }
        } else {
          cb := Command(e.id, argType, buf[pArg..end], 0);
        }
      } else {
        cb := Error(false, []);
      }
    }

    /** bta_ag_process_at, on the text between `start` and `end`. The bounds test before the
        argument is read (`p_arg > p_end`) can never succeed, because a match never runs past
        the NUL at `end`. */
    method ProcessAt(buf: array<byte>, start: nat, end: nat) returns (cb: Callback)
      requires start <= end < buf.Length && buf[end] == 0
      ensures cb == Dispatch(table, buf[start..end])
    {
      ghost var text := buf[start..end];
      var idx := 0;
      while table[idx].cmd != []
        invariant idx < |table|
        invariant Dispatch(table, text) == Dispatch(table[idx..], text)
        decreases |table| - idx
      {
        var same := StrUpperCompare(table[idx].cmd, buf, start, end);
        if same { break; }
        assert table[idx..][1..] == table[idx + 1..];
        idx := idx + 1;
      }
      if table[idx].cmd == [] {
        cb := Error(true, CString(buf[start..end]));
      } else {
        assert Dispatch(table[idx..], text) == Answer(table[idx], text);
        cb := Respond(table[idx], buf, start, end);
      }
    }

    /** The body of the inner loop of bta_ag_at_parse: skips a NUL between commands, or else puts
        the octet in the buffer and acts on it. */
    method TakeOctet(c: byte)
      requires Valid() && cmdBuf != null && cmdPos < cmdMaxLen - 1
      modifies this`cmdPos, this`lines, this`calls, cmdBuf
      ensures Valid()
      ensures Pending() == Step(cmdMaxLen, old(Pending()), c).state
      ensures lines == old(lines) + Step(cmdMaxLen, old(Pending()), c).out
    {
      if cmdPos == 0 && c == 0 { return; }
      ghost var line := Pending();
      cmdBuf[cmdPos] := c;
      assert cmdBuf[..cmdPos] == line;
      if IsEol(cmdBuf[cmdPos]) {
        cmdBuf[cmdPos] := 0;
        assert cmdBuf[..cmdPos] == line;
        if cmdPos > 2 && Upper(cmdBuf[0]) == 0x41 && Upper(cmdBuf[1]) == 0x54 {
          assert line[2..] == cmdBuf[2..cmdPos];
          var cb := ProcessAt(cmdBuf, 2, cmdPos);
          lines := lines + [CommandLine(line[2..])];
          calls := calls + [cb];
        }
        cmdPos := 0;
      } else if IsEscape(cmdBuf[cmdPos]) {
        cmdPos := cmdPos + 1;
        cmdBuf[cmdPos] := 0;
        assert cmdBuf[..cmdPos] == line + [c];
        lines := lines + [Escaped(line + [c])];
        calls := calls + [Error(true, CString(cmdBuf[..cmdPos]))];
        cmdPos := 0;
      } else {
        cmdPos := cmdPos + 1;
        assert cmdBuf[..cmdPos] == line + [c];
      }
    }

    /** After `i` octets the lines are the transducer's, and so is the text as far as the next
        octet can tell; a full buffer is emptied only when there is a next octet. */
    ghost predicate Follows(p0: seq<byte>, l0: seq<Line>, data: seq<byte>, i: nat)
      reads this, cmdBuf
    {
      && Valid() && cmdBuf != null && i <= |data|
      && var r := Parsed(cmdMaxLen, p0, data[..i]);
      && lines == l0 + r.out
      && Room(cmdMaxLen, Pending()) == Room(cmdMaxLen, r.state)
      && (i == |data| ==> Pending() == r.state)
    }

    lemma FollowsStep(p0: seq<byte>, data: seq<byte>, i: nat)
      requires Valid() && i < |data|
      requires Room(cmdMaxLen, Pending()) == Room(cmdMaxLen, Parsed(cmdMaxLen, p0, data[..i]).state)
      ensures
        var before := Parsed(cmdMaxLen, p0, data[..i]);
        var last := Step(cmdMaxLen, Pending(), data[i]);
        Parsed(cmdMaxLen, p0, data[..i + 1]) == Outcome(last.state, before.out + last.out)
    {
      RunSnoc(Stepper(cmdMaxLen), p0, data, i);
      SameRoomSameStep(cmdMaxLen, Pending(), Parsed(cmdMaxLen, p0, data[..i]).state, data[i]);
    }

    method FollowOctet(data: seq<byte>, i: nat, ghost p0: seq<byte>, ghost l0: seq<Line>)
      requires Follows(p0, l0, data, i) && i < |data| && cmdPos < cmdMaxLen - 1
      modifies this`cmdPos, this`lines, this`calls, cmdBuf
      ensures Follows(p0, l0, data, i + 1)
    {
      FollowsStep(p0, data, i);
      TakeOctet(data[i]);
    }

    /** The inner loop of bta_ag_at_parse. */
    method Fill(data: seq<byte>, start: nat, ghost p0: seq<byte>, ghost l0: seq<Line>) returns (i: nat)
      requires Follows(p0, l0, data, start)
      modifies this`cmdPos, this`lines, this`calls, cmdBuf
      ensures start <= i && Follows(p0, l0, data, i)
      ensures i == |data| || cmdPos == cmdMaxLen - 1
      ensures i == start ==> cmdPos == old(cmdPos)
    {
      i := start;
      while cmdPos < cmdMaxLen - 1 && i < |data|
        invariant start <= i && Follows(p0, l0, data, i)
        invariant i == start ==> cmdPos == old(cmdPos)
        decreases |data| - i
      {
        FollowOctet(data, i, p0, l0);
        i := i + 1;
      }
    }

    /** bta_ag_at_parse: never outside the buffer, always finishing, and equal to the transducer. */
    method Parse(data: seq<byte>)
      requires Valid()
      modifies this, cmdBuf
      ensures Valid() && (if old(cmdBuf) == null then fresh(cmdBuf) else cmdBuf == old(cmdBuf))
      ensures Pending() == Parsed(cmdMaxLen, old(Pending()), data).state
      ensures lines == old(lines) + Parsed(cmdMaxLen, old(Pending()), data).out
    {
      ghost var p0 := Pending();
      if cmdBuf == null {
        cmdBuf := new byte[cmdMaxLen];
        cmdPos := 0;
      }
      assert data[..0] == [];
      var i := 0;
      while i < |data|
        invariant Follows(p0, old(lines), data, i)
        invariant if old(cmdBuf) == null then fresh(cmdBuf) else cmdBuf == old(cmdBuf)
        decreases |data| - i, cmdPos
      {
        i := Fill(data, i, p0, old(lines));
        if i < |data| { cmdPos := 0; }
      }
      assert data[..|data|] == data;
    }
  }
}
