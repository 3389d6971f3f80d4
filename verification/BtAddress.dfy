/** Device addresses and how they are printed (BtAddrString in service/logging_helpers.cc). */
module BtAddress {
  import opened Bytes

  /** The six octets of a device address. */
  type Address = a: seq<byte> | |a| == 6 witness [0, 0, 0, 0, 0, 0]

  function HexDigit(n: nat): (c: char)
    requires n < 16
    ensures c != ':'
  {
    "0123456789ABCDEF"[n]
  }

  /** Two upper-case hexadecimal digits per octet, separated by colons. */
  function Octets(a: seq<byte>): string {
    if a == [] then ""
    else if |a| == 1 then Digits(a[0])
    else Digits(a[0]) + ":" + Octets(a[1..])
  }

  function Print(a: Address): string { Octets(a) }

  function Digits(b: byte): (s: string)
    ensures |s| == 2
  {
    [HexDigit(b / 16), HexDigit(b % 16)]
  }

  lemma HexDigitIsInjective(m: nat, n: nat)
    requires m < 16 && n < 16 && HexDigit(m) == HexDigit(n)
    ensures m == n
  {
  }

  lemma DigitsAreInjective(x: byte, y: byte)
    requires Digits(x) == Digits(y)
    ensures x == y
  {
    assert Digits(x)[0] == Digits(y)[0] && Digits(x)[1] == Digits(y)[1];
    HexDigitIsInjective(x / 16, y / 16);
    HexDigitIsInjective(x % 16, y % 16);
  }

  lemma OctetsSplit(a: seq<byte>)
    requires a != []
    ensures |Octets(a)| >= 2 && Octets(a)[..2] == Digits(a[0])
    ensures |a| > 1 ==> |Octets(a)| >= 3 && Octets(a)[3..] == Octets(a[1..])
  {
  }

  lemma {:induction false} OctetsAreInjective(a: seq<byte>, b: seq<byte>)
    requires |a| == |b| && Octets(a) == Octets(b)
    ensures a == b
    decreases |a|
  {
    if a != [] {
      OctetsSplit(a);
      OctetsSplit(b);
      DigitsAreInjective(a[0], b[0]);
      if |a| > 1 { OctetsAreInjective(a[1..], b[1..]); }
      assert a == [a[0]] + a[1..] && b == [b[0]] + b[1..];
    }
  }

  /** Different addresses print differently, so a printed address is as good a key as the address. */
  lemma PrintIsInjective(a: Address, b: Address)
    ensures Print(a) == Print(b) <==> a == b
  {
    if Print(a) == Print(b) { OctetsAreInjective(a, b); }
  }
}
