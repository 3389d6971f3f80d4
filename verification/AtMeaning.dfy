/** What a headset's line means to the gateway, on the text of the line itself. */
module AtMeaning {
  import opened AtParser
  import opened AtText
  import opened Bytes
  import opened Transducers

  // ----- numbers

  /** A number as it is printed. */
  function Printed(n: nat): (r: seq<byte>)
    ensures r != [] && forall c :: c in r ==> IsDigit(c)
  {
    if n < 10 then [DIGIT_0 + n] else Printed(n / 10) + [DIGIT_0 + n % 10]
  }

  function Blanks(n: nat): seq<byte> { seq(n, k => SPACE) }

  lemma {:induction false} PrintedValue(n: nat)
    ensures Decimal(Printed(n)) == n
    decreases n
  {
    if n >= 10 {
      PrintedValue(n / 10);
      var r := Printed(n);
      assert r[..|r| - 1] == Printed(n / 10);
    }
  }

  lemma {:induction false} BlanksSkipped(n: nat, v: seq<byte>)
    requires v == [] || v[0] != SPACE
    ensures SkipSpaces(Blanks(n) + v) == v
    decreases n
  {
    if n == 0 {
      assert Blanks(0) + v == v;
    } else {
      assert (Blanks(n) + v)[1..] == Blanks(n - 1) + v;
      BlanksSkipped(n - 1, v);
    }
  }

  lemma {:induction false} NoNul(s: seq<byte>)
    requires 0 !in s
    ensures CString(s) == s
  {
    CStringLength(s, |s|);
  }

  /** A printed number is read back, after any blanks, up to 32767, and a larger one is not read. */
  lemma NumberIsRead(blanks: nat, n: nat)
    ensures ArgumentValue(Blanks(blanks) + Printed(n)) == if n <= 32767 then n else -1
  {
    NoNul(Blanks(blanks) + Printed(n));
    assert Printed(n)[0] in Printed(n);
    BlanksSkipped(blanks, Printed(n));
    PrintedValue(n);
  }

  /** Nothing else is a number: not the empty text, and no text with anything but digits in it. */
  lemma OnlyNumbersAreRead(blanks: nat, v: seq<byte>)
    requires 0 !in v && (v == [] || v[0] != SPACE)
    requires v == [] || exists c :: c in v && !IsDigit(c)
    ensures ArgumentValue(Blanks(blanks) + v) == -1
  {
    NoNul(Blanks(blanks) + v);
    BlanksSkipped(blanks, v);
  }

  // ----- commands

  function Lower(c: byte): byte { if 0x41 <= c <= 0x5A then c + 0x20 else c }

  function Lowered(s: seq<byte>): seq<byte> { seq(|s|, k requires 0 <= k < |s| => Lower(s[k])) }

  /** A command without small letters is matched by itself, with anything behind it, and the letter case of
      the line does not matter. */
  lemma CommandIsMatched(cmd: seq<byte>, rest: seq<byte>)
    requires forall k :: 0 <= k < |cmd| ==> cmd[k] != 0 && !(0x61 <= cmd[k] <= 0x7A)
    ensures Matches(cmd, cmd + rest)
  {
    CStringLength(cmd + rest, |cmd|);
  }

  lemma CaseIsIgnored(cmd: seq<byte>, text: seq<byte>)
    ensures Matches(cmd, text) <==> Matches(cmd, Lowered(text))
  {
    if |cmd| <= |text| {
      CStringLength(text, |cmd|);
      CStringLength(Lowered(text), |cmd|);
      forall k | 0 <= k < |cmd|
        ensures Upper(Lowered(text)[k]) == Upper(text[k]) && (Lowered(text)[k] == 0 <==> text[k] == 0)
      {
      }
    }
  }

  /** Entry `k` is the first that matches. */
  ghost predicate First(table: seq<AtCommand>, k: nat, text: seq<byte>) {
    && k < |table| && table[k].cmd != [] && Matches(table[k].cmd, text)
    && forall j :: 0 <= j < k ==> table[j].cmd != [] && !Matches(table[j].cmd, text)
  }

  lemma {:induction false} FirstAnswers(table: seq<AtCommand>, k: nat, text: seq<byte>)
    requires First(table, k, text)
    ensures Dispatch(table, text) == Answer(table[k], text)
    decreases k
  {
    if k > 0 {
      FirstAnswers(table[1..], k - 1, text);
    }
  }

  /** A command with an argument of a kind that carries no number. */
  function Reply(e: AtCommand, kind: ArgType, arg: seq<byte>): Callback {
    if kind in e.argTypes then Command(e.id, kind, arg, 0) else Error(false, [])
  }

  /** A value that is set: a number within the limits of the entry where it asks for one, any text
      otherwise. */
  function SetReply(e: AtCommand, value: seq<byte>): Callback {
    if ArgSet !in e.argTypes then Error(false, [])
    else if !e.isInt then Command(e.id, ArgSet, value, 0)
    else if e.min <= ArgumentValue(value) <= e.max then Command(e.id, ArgSet, value, ArgumentValue(value))
    else Error(false, [])
  }

  /** A line is a command followed by an argument, and the argument says what is asked: nothing for the
      command alone, `?` to read, `=?` for the values that may be set, `=` and a value to set, and anything
      else is free text. The command of the first entry that matches is reported so, exactly if it allows
      that kind, and an error otherwise. */
  lemma LineMeans(table: seq<AtCommand>, k: nat, spelled: seq<byte>, arg: seq<byte>)
    requires First(table, k, spelled + arg) && |spelled| == |table[k].cmd|
    ensures
      var e, r, text := table[k], Dispatch(table, spelled + arg), CString(arg);
      && (text == [] ==> r == Reply(e, ArgNone, arg))
      && (text == [QUESTION] ==> r == Reply(e, ArgRead, arg))
      && (text == [EQUALS, QUESTION] ==> r == Reply(e, ArgTest, arg))
      && (|text| > 1 && text[0] == EQUALS && text != [EQUALS, QUESTION] ==> r == SetReply(e, arg[1..]))
      && (text != [] && text != [QUESTION] && !(|text| > 1 && text[0] == EQUALS) ==> r == Reply(e, ArgFree, arg))
  {
    FirstAnswers(table, k, spelled + arg);
    assert (spelled + arg)[|spelled|..] == arg;
    ArgumentKind(arg);
  }

  lemma ArgumentKind(arg: seq<byte>)
    ensures
      var text := CString(arg);
      Classify(arg) ==
      if text == [] then ArgNone else if text == [QUESTION] then ArgRead
      else if text == [EQUALS, QUESTION] then ArgTest
      else if |text| > 1 && text[0] == EQUALS then ArgSet else ArgFree
    ensures Classify(arg) == ArgSet ==> |arg| > 1
  {
    var text := CString(arg);
    assert forall m: nat :: m <= |text| ==> At(arg, m) == At(text, m);
    assert |text| > 1 ==> At(arg, 1) == text[1] != 0;
    assert |text| > 2 ==> At(arg, 2) == text[2] != 0;
  }

  // ----- lines

  lemma ShortLinePending(max: nat, line: seq<byte>, c: byte)
    requires 2 <= max && Plain(line) && |line| < max - 1
    ensures
      var last := Step(max, line, c);
      Parsed(max, [], line + [c]) == Outcome(last.state, last.out)
  {
    OverlongLine(max, line);
    assert Residue(line, max - 1) == line;
    assert (line + [c])[..|line|] == line;
  }

  /** A line that starts with AT, in any case, and goes on with a command is one command, of the text behind
      the AT. */
  lemma CommandLineIsRead(max: nat, a: byte, t: byte, command: seq<byte>, eol: byte)
    requires (a == 0x41 || a == 0x61) && (t == 0x54 || t == 0x74) && (eol == CR || eol == LF)
    requires Plain(command) && command != [] && |command| + 2 < max - 1
    ensures Parsed(max, [], [a, t] + command + [eol]) == Outcome([], [CommandLine(command)])
  {
    var line := [a, t] + command;
    assert line[2..] == command;
    ShortLinePending(max, line, eol);
  }

  /** Any other line is none. */
  lemma OtherLineIsIgnored(max: nat, line: seq<byte>, eol: byte)
    requires Plain(line) && |line| < max - 1 && (eol == CR || eol == LF)
    requires |line| <= 2 || !((line[0] == 0x41 || line[0] == 0x61) && (line[1] == 0x54 || line[1] == 0x74))
    ensures Parsed(max, [], line + [eol]) == Outcome([], [])
  {
    ShortLinePending(max, line, eol);
  }

  /** An escape octet ends a line as an error, with the text up to it. */
  lemma EscapeEndsLine(max: nat, line: seq<byte>, escape: byte)
    requires 2 <= max && Plain(line) && |line| < max - 1 && (escape == SUB || escape == ESC)
    ensures Parsed(max, [], line + [escape]) == Outcome([], [Escaped(line + [escape])])
  {
    ShortLinePending(max, line, escape);
  }

  /** A NUL is skipped in front of a line and is part of it anywhere else. */
  lemma NulSkippedInFront(max: nat, line: seq<byte>)
    requires 2 <= max && Plain(line) && |line| < max - 1
    ensures Parsed(max, [], line + [0]) == Outcome(if line == [] then [] else line + [0], [])
  {
    ShortLinePending(max, line, 0);
  }
}
