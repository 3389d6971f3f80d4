/** The two string utilities the AT interpreter relies on (bta/sys/utl.cc), on
    text held in a buffer and closed by a NUL octet. */
module AtText {
  import opened Bytes

  const SPACE: byte := 0x20
  const DIGIT_0: byte := 0x30
  const DIGIT_9: byte := 0x39

  /** The C string that starts a piece of memory: everything before the first NUL. */
  function CString(s: seq<byte>): (r: seq<byte>)
    ensures r <= s
    ensures 0 !in r
    ensures |r| < |s| ==> s[|r|] == 0
  {
    if s == [] || s[0] == 0 then [] else [s[0]] + CString(s[1..])
  }

  function Upper(c: byte): byte {
    if 0x61 <= c <= 0x7A then c - 0x20 else c
  }

  /** `cmd` is a prefix of the C string at the start of `text`, letter case in the text ignored. */
  ghost predicate Matches(cmd: seq<byte>, text: seq<byte>) {
    && |cmd| <= |CString(text)|
    && forall k :: 0 <= k < |cmd| ==> Upper(text[k]) == cmd[k]
  }

  lemma {:induction false} CStringLength(text: seq<byte>, n: nat)
    requires n <= |text|
    ensures n <= |CString(text)| <==> forall k :: 0 <= k < n ==> text[k] != 0
  {
  }

  /** utl_strucmp: true stands for the return value 0, a match. */
  method StrUpperCompare(cmd: seq<byte>, buf: array<byte>, start: nat, end: nat) returns (same: bool)
    requires start <= end < buf.Length && buf[end] == 0
    requires 0 !in cmd
    ensures same <==> Matches(cmd, buf[start..end])
  {
    ghost var text := buf[start..end];
    var k := 0;
    while k < |cmd| && buf[start + k] != 0
      invariant k <= |cmd| && start + k <= end
      invariant forall j :: 0 <= j < k ==> text[j] != 0 && Upper(text[j]) == cmd[j]
    {
      if Upper(buf[start + k]) != cmd[k] {
        assert Upper(text[k]) != cmd[k];
        return false;
      }
      k := k + 1;
    }
    same := k == |cmd|;
    CStringLength(text, k);
    if !same && k < |text| {
      CStringLength(text, k + 1);
    }
  }

  // ----- decimal arguments

  predicate IsDigit(c: byte) { DIGIT_0 <= c <= DIGIT_9 }

  function Decimal(s: seq<byte>): int
    requires forall c :: c in s ==> IsDigit(c)
  {
    if s == [] then 0 else 10 * Decimal(s[..|s| - 1]) + (s[|s| - 1] - DIGIT_0)
  }

  function SkipSpaces(s: seq<byte>): seq<byte> {
    if s != [] && s[0] == SPACE then SkipSpaces(s[1..]) else s
  }

  /** One or more digits worth at most 32767; -1 otherwise. */
  function DigitsValue(digits: seq<byte>): int {
    if digits != [] && (forall c :: c in digits ==> IsDigit(c)) && Decimal(digits) <= 32767
    then Decimal(digits) else -1
  }

  /** What a decimal argument means: blanks, then digits. */
  function ArgumentValue(text: seq<byte>): int {
    DigitsValue(SkipSpaces(CString(text)))
  }

  /** `s` lies in the buffer from `p` on and is closed by a NUL. */
  ghost predicate Holds(buf: array<byte>, p: nat, s: seq<byte>)
    reads buf
  {
    && p + |s| < buf.Length && buf[p + |s|] == 0
    && forall k {:trigger s[k]} :: 0 <= k < |s| ==> s[k] != 0 && buf[p + k] == s[k]
  }

  lemma {:induction false} DecimalGrows(s: seq<byte>, n: nat)
    requires n <= |s|
    requires forall c :: c in s ==> IsDigit(c)
    ensures 0 <= Decimal(s[..n]) <= Decimal(s)
  {
    if s != [] {
      var init := s[..|s| - 1];
      assert s[|s| - 1] in s;
      if n < |s| {
        DecimalGrows(init, n);
        assert init[..n] == s[..n];
      } else {
        DecimalGrows(init, 0);
        assert s[..n] == s;
      }
    }
  }

  /** utl_str2int. The running total is checked after every digit; since totals only grow,
      that equals checking the value of the whole argument once. */
  method StringToInt(buf: array<byte>, start: nat, end: nat) returns (value: int)
    requires start <= end < buf.Length && buf[end] == 0
    ensures value == ArgumentValue(buf[start..end])
    ensures -1 <= value <= 32767
  {
    ghost var text := buf[start..end];
    ghost var s := CString(text);
    assert Holds(buf, start, s);
    var p := start;
    while buf[p] == SPACE
      invariant start <= p <= end && Holds(buf, p, s)
      invariant SkipSpaces(s) == SkipSpaces(CString(text))
      decreases end - p
    {
      assert s != [] && s[0] == SPACE;
      assert forall k :: 0 <= k < |s| - 1 ==> s[1..][k] == s[k + 1];
      p, s := p + 1, s[1..];
    }
    if buf[p] == 0 {
      assert s == [];
      return -1;
    }
    value := DigitsToInt(buf, p, s);
  }

  method DigitsToInt(buf: array<byte>, first: nat, ghost digits: seq<byte>) returns (value: int)
    requires digits != [] && Holds(buf, first, digits)
    ensures value == DigitsValue(digits)
    ensures -1 <= value <= 32767
  {
    var k := 0;
    value := 0;
    while true
      invariant k < |digits|
      invariant forall c :: c in digits[..k] ==> IsDigit(c)
      invariant value == 10 * Decimal(digits[..k]) && value >= 0
      decreases |digits| - k
    {
      assert digits[k] == buf[first + k];
      if buf[first + k] < DIGIT_0 || buf[first + k] > DIGIT_9 {
        assert digits[k] in digits;
        return -1;
      }
      value := value + (buf[first + k] - DIGIT_0);
      assert digits[..k + 1] == digits[..k] + [digits[k]];
      k := k + 1;
      if value > 32767 {
        if forall c :: c in digits ==> IsDigit(c) { DecimalGrows(digits, k); }
        return -1;
      }
      assert k == |digits| || digits[k] != 0;
      if buf[first + k] == 0 {
        assert digits[..k] == digits;
        return value;
      }
      value := value * 10;
    }
  }
}
