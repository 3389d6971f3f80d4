/** The AT+BIA handler of bta_ag_at_hfp_cback (bta/ag/bta_ag_cmd.cc): the headset says, indicator by
    indicator, which ones it does not want. */
module IndicatorMask {

  const MAX_INDICATORS: nat := 20

  /** A 32-bit word as its bits, least significant first. */
  type Word = w: seq<bool> | |w| == 32 witness seq(32, k => false)

  // ----- field-wise meaning

  /** The comma-separated fields of a text. */
  function Split(text: string): (fields: seq<string>)
    ensures fields != []
  {
    if text == [] then [[]]
    else
      var rest := Split(text[1..]);
      if text[0] == ',' then [[]] + rest else [[text[0]] + rest[0]] + rest[1..]
  }

  /** Fields with a comma between any two. */
  function Joined(fields: seq<string>): string
    requires fields != []
  {
    if |fields| == 1 then fields[0] else fields[0] + "," + Joined(fields[1..])
  }

  /** Splitting takes out exactly the commas. */
  lemma {:induction false} SplitJoins(text: string)
    ensures Joined(Split(text)) == text && forall k :: 0 <= k < |Split(text)| ==> ',' !in Split(text)[k]
  {
    if text != [] {
      SplitJoins(text[1..]);
      var rest := Split(text[1..]);
      if text[0] == ',' {
        assert Split(text)[1..] == rest;
      } else if |rest| > 1 {
        assert Split(text)[1..] == rest[1..];
        assert [text[0]] + (rest[0] + "," + Joined(rest[1..])) == ([text[0]] + rest[0]) + "," + Joined(rest[1..]);
      }
    }
  }

  /** The fields that count: an empty one at the very end is ignored. */
  function Fields(text: string): seq<string> {
    var all := Split(text);
    if all[|all| - 1] == [] then all[..|all| - 1] else all
  }

  predicate GoodField(f: string) { f == "" || f == "0" || f == "1" }

  predicate Acceptable(fields: seq<string>) {
    |fields| <= MAX_INDICATORS && forall k :: 0 <= k < |fields| ==> GoodField(fields[k])
  }

  /** Field k (from 1) masks indicator k with "0", unmasks it with "1" and keeps it when empty. */
  function Masked(stored: Word, fields: seq<string>): Word {
    seq(32, b requires 0 <= b < 32 =>
      if 1 <= b <= |fields| && fields[b - 1] == "0" then true
      else if 1 <= b <= |fields| && fields[b - 1] == "1" then false
      else stored[b])
  }

  // ----- the handler

  class IndicatorControl {
    var biaMaskedOut: Word

    /** Accepts exactly the acceptable lists, and then applies them field by field; the stored mask
        is untouched otherwise. */
    method OnAtBia(text: string) returns (ok: bool)
      requires '\0' !in text
      modifies this
      ensures ok <==> Acceptable(Fields(text))
      ensures biaMaskedOut == if ok then Masked(old(biaMaskedOut), Fields(text)) else old(biaMaskedOut)
    {
      var mask: Word;
      ok, mask := ParseMask(text, biaMaskedOut);
      if ok { biaMaskedOut := mask; }
    }
  }

  /** Octet `i` of the argument, or the NUL that closes it. */
  function At(text: string, i: nat): char { if i < |text| then text[i] else '\0' }

  lemma SplitComma(text: string)
    requires text != [] && text[0] == ','
    ensures Split(text) == [""] + Split(text[1..])
  {
  }

  lemma SplitDigit(text: string)
    requires text != [] && text[0] != ','
    ensures |text| == 1 ==> Split(text) == [text]
    ensures |text| > 1 && text[1] == ',' ==> Split(text) == [text[..1]] + Split(text[2..])
    ensures |text| > 1 && text[1] != ',' ==> |Split(text)[0]| > 1
    ensures Split(text)[0] != [] && Split(text)[0][0] == text[0]
  {
    if |text| > 1 {
      assert text[1..][1..] == text[2..];
      var rest := Split(text[1..]);
      if text[1] == ',' {
        SplitComma(text[1..]);
        assert [text[0]] + [] == text[..1];
        assert rest[1..] == Split(text[2..]);
      } else {
        assert rest[0] != [];
      }
    } else {
      assert text[1..] == [];
      assert [text[0]] + [] == text;
    }
  }

  /** The fields before position `i` are `done`; the rest of the text is still to be split. */
  ghost predicate Reached(text: string, i: nat, done: seq<string>) {
    i <= |text| && Split(text) == done + Split(text[i..])
  }

  lemma ReachedNext(text: string, i: nat, done: seq<string>)
    requires Reached(text, i, done) && i < |text|
    ensures text[i] == ',' ==> Reached(text, i + 1, done + [""])
    ensures text[i] != ',' && i + 1 < |text| && text[i + 1] == ',' ==> Reached(text, i + 2, done + [text[i..i + 1]])
  {
    var rest := text[i..];
    if text[i] == ',' {
      SplitComma(rest);
      assert rest[1..] == text[i + 1..];
      assert done + ([""] + Split(rest[1..])) == (done + [""]) + Split(rest[1..]);
    } else if i + 1 < |text| && text[i + 1] == ',' {
      SplitDigit(rest);
      assert rest[2..] == text[i + 2..] && rest[..1] == text[i..i + 1];
      assert done + ([rest[..1]] + Split(rest[2..])) == (done + [rest[..1]]) + Split(rest[2..]);
    }
  }

  lemma FieldsLeft(text: string, i: nat, done: seq<string>)
    requires Reached(text, i, done) && i < |text|
    ensures |Fields(text)| > |done|
    ensures Split(text[i..])[0] != [] ==> Fields(text)[|done|] == Split(text[i..])[0]
    ensures |Split(text[i..])| == 1 ==> Fields(text) == done + Split(text[i..])
  {
  }

  lemma MaskedNext(stored: Word, done: seq<string>, f: string)
    requires |done| < 31
    ensures f == "0" ==> Masked(stored, done + [f]) == Masked(stored, done)[|done| + 1 := true]
    ensures f == "1" ==> Masked(stored, done + [f]) == Masked(stored, done)[|done| + 1 := false]
    ensures f == "" ==> Masked(stored, done + [f]) == Masked(stored, done)
  {
  }

  /** What the test after the loop must find: the position is at the end exactly when the list is
      acceptable, and the mask is then complete. */
  ghost predicate Verdict(text: string, stored: Word, i: nat, mask: Word) {
    && (At(text, i) == '\0' <==> Acceptable(Fields(text)))
    && (At(text, i) == '\0' ==> mask == Masked(stored, Fields(text)))
  }

  /** The loop so far: `done` holds the good fields before `i`, and the mask reflects them. */
  ghost predicate SoFar(text: string, stored: Word, i: nat, mask: Word, done: seq<string>) {
    Reached(text, i, done) && Acceptable(done) && mask == Masked(stored, done)
  }

  lemma LoopEnds(text: string, stored: Word, i: nat, mask: Word, done: seq<string>)
    requires '\0' !in text && SoFar(text, stored, i, mask, done) && (i == |text| || |done| == MAX_INDICATORS)
    ensures Verdict(text, stored, i, mask)
  {
  }

  lemma BadField(text: string, stored: Word, i: nat, mask: Word, done: seq<string>, j: nat)
    requires '\0' !in text && Reached(text, i, done) && i < |text| && j < |text|
    requires text[i] != ',' && ((text[i] != '0' && text[i] != '1') || (i + 1 < |text| && text[i + 1] != ','))
    ensures Verdict(text, stored, j, mask)
  {
    FieldsLeft(text, i, done);
    SplitDigit(text[i..]);
    assert !GoodField(Fields(text)[|done|]);
  }

  lemma LastField(text: string, stored: Word, i: nat, mask: Word, done: seq<string>)
    requires SoFar(text, stored, i, mask, done) && |done| < MAX_INDICATORS && i + 1 == |text|
    ensures text[i] == '0' ==> Verdict(text, stored, i + 1, mask[|done| + 1 := true])
    ensures text[i] == '1' ==> Verdict(text, stored, i + 1, mask[|done| + 1 := false])
  {
    if text[i] == '0' || text[i] == '1' {
      FieldsLeft(text, i, done);
      SplitDigit(text[i..]);
      MaskedNext(stored, done, text[i..]);
    }
  }

  lemma FieldDone(text: string, stored: Word, i: nat, mask: Word, done: seq<string>)
    requires SoFar(text, stored, i, mask, done) && |done| < MAX_INDICATORS && i < |text|
    ensures text[i] == ',' ==> SoFar(text, stored, i + 1, mask, done + [""])
    ensures text[i] == '0' && i + 1 < |text| && text[i + 1] == ',' ==>
              SoFar(text, stored, i + 2, mask[|done| + 1 := true], done + ["0"])
    ensures text[i] == '1' && i + 1 < |text| && text[i + 1] == ',' ==>
              SoFar(text, stored, i + 2, mask[|done| + 1 := false], done + ["1"])
  {
    ReachedNext(text, i, done);
    assert text[i..i + 1] == [text[i]];
    MaskedNext(stored, done, "");
    MaskedNext(stored, done, "0");
    MaskedNext(stored, done, "1");
  }

  method ParseMask(text: string, stored: Word) returns (ok: bool, mask: Word)
    requires '\0' !in text
    ensures ok <==> Acceptable(Fields(text))
    ensures ok ==> mask == Masked(stored, Fields(text))
  {
    mask := stored;
    var i, indId := 0, 1;
    ghost var done: seq<string> := [];
    assert text[0..] == text;
    assert Masked(stored, []) == stored;
    while true
      invariant SoFar(text, stored, i, mask, done) && |done| == indId - 1
      decreases |text| - i
    {
      if At(text, i) == '\0' || indId > MAX_INDICATORS {
        LoopEnds(text, stored, i, mask, done);
        break;
      }
      FieldDone(text, stored, i, mask, done);
      if At(text, i) == ',' {
        done := done + [""];
        i, indId := i + 1, indId + 1;
        continue;
      }
      ghost var before := mask;
      if At(text, i) == '0' {
        mask := mask[indId := true];
      } else if At(text, i) == '1' {
        mask := mask[indId := false];
      } else {
        BadField(text, stored, i, mask, done, i);
        break;
      }
      i := i + 1;
      if At(text, i) != ',' {
        if i == |text| { LastField(text, stored, i - 1, before, done); }
        else { BadField(text, stored, i - 1, mask, done, i); }
        break;
      }
      done := done + [[text[i - 1]]];
      i, indId := i + 1, indId + 1;
    }
    ok := At(text, i) == '\0';
  }
}
