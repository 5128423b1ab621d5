/** What makes the decoder of wire/msgtx.go refuse a stream: each error in terms of the
bytes and the numbers that stand for it. */
module WireRefusals {
  import opened Bytes
  import opened VarInts
  import opened TxGrammar
  import opened TxSizes
  import opened WireLayout

  // ---------- Which errors a reader can have ----------

  ghost predicate FailsOnly<T(!new)>(get: Parser<T>, errors: set<WireError>)
  {
    forall b {:trigger get(b)} :: get(b).Err? ==> get(b).error in errors
  }

  lemma {:induction false} ManyFailsOnly<T(!new)>(get: Parser<T>, n: nat, b: seq<byte>, errors: set<WireError>)
    requires FailsOnly(get, errors)
    ensures Many(get, n, b).Err? ==> Many(get, n, b).error in errors
    decreases n
  {
    if n > 0 && get(b).Ok? {
      ManyFailsOnly(get, n - 1, get(b).rest, errors);
    }
  }

  const COUNT_ERRORS := {EOF, UnexpectedEOF, NonCanonicalVarInt}
  const SCRIPT_ERRORS := COUNT_ERRORS + {ScriptTooLarge}
  const WITNESS_ERRORS := SCRIPT_ERRORS + {TooManyWitnessItems}

  lemma ScriptErrors(b: seq<byte>, maxAllowed: nat)
    ensures GetVarInt(b).Err? ==> GetVarInt(b).error in COUNT_ERRORS
    ensures GetScript(b, maxAllowed).Err? ==> GetScript(b, maxAllowed).error in SCRIPT_ERRORS
  {
  }

  lemma ElementErrors()
    ensures FailsOnly(GetTxIn, SCRIPT_ERRORS) && FailsOnly(GetTxOut, SCRIPT_ERRORS)
    ensures FailsOnly(GetWitness, WITNESS_ERRORS)
  {
    hide GetVarInt;
    forall b, maxAllowed
      ensures GetScript(b, maxAllowed).Err? ==> GetScript(b, maxAllowed).error in SCRIPT_ERRORS
    {
      ScriptErrors(b, maxAllowed);
    }
    forall b | GetWitness(b).Err? ensures GetWitness(b).error in WITNESS_ERRORS {
      ScriptErrors(b, 0);
      if GetVarInt(b).Ok? {
        hide GetScript;
        assert FailsOnly(GetWitnessItem, SCRIPT_ERRORS);
        ManyFailsOnly(GetWitnessItem, GetVarInt(b).value, GetVarInt(b).rest, SCRIPT_ERRORS);
      }
    }
  }

  lemma BodyErrors(version: int32, flagged: bool, n: nat, b: seq<byte>)
    ensures DecodeBody(version, flagged, n, b) != Err(BadFlag)
    ensures DecodeBody(version, flagged, n, b) == Err(TooManyInputs) <==> n > 818401
    ensures DecodeBody(version, flagged, n, b) == Err(TooManyOutputs)
       <==> GetTxIns(b, n).Ok? && GetTxOuts(GetTxIns(b, n).rest) == Err(TooManyOutputs)
    ensures GetTxOuts(b) == Err(TooManyOutputs) <==> GetVarInt(b).Ok? && GetVarInt(b).value > 3728271
  {
    hide GetVarInt, GetTxIn, GetTxOut, GetWitness, Many, GetU32, FailsOnly;
    ElementErrors();
    ScriptErrors(b, 0);
    ManyFailsOnly(GetTxIn, n, b, SCRIPT_ERRORS);
    OutsErrors(b);
    if GetTxIns(b, n).Ok? {
      var r := GetTxIns(b, n).rest;
      OutsErrors(r);
      if GetTxOuts(r).Ok? {
        ManyFailsOnly(GetWitness, |GetTxIns(b, n).value|, GetTxOuts(r).rest, WITNESS_ERRORS);
        U32Errors(if flagged then Many(GetWitness, |GetTxIns(b, n).value|, GetTxOuts(r).rest) else Ok([], GetTxOuts(r).rest));
      }
    }
  }

  lemma U32Errors<T>(p: Parsed<T>)
    ensures p.Ok? && GetU32(p.rest).Err? ==> GetU32(p.rest).error in COUNT_ERRORS
  {
  }

  lemma OutsErrors(b: seq<byte>)
    ensures GetTxOuts(b).Err? ==> GetTxOuts(b).error in SCRIPT_ERRORS + {TooManyOutputs}
    ensures GetTxOuts(b) == Err(TooManyOutputs) <==> GetVarInt(b).Ok? && GetVarInt(b).value > 3728271
  {
    hide GetVarInt, Many, FailsOnly;
    ElementErrors();
    ScriptErrors(b, 0);
    if GetVarInt(b).Ok? {
      ManyFailsOnly(GetTxOut, GetVarInt(b).value, GetVarInt(b).rest, SCRIPT_ERRORS);
    }
  }

  // ---------- Counts ----------

  /** A count is read exactly where it stands. */
  lemma CountIsRead(b: seq<byte>, off: nat, v: nat)
    requires off <= |b| && v <= 0xffff_ffff_ffff_ffff
    ensures CountAt(b, off, v) <==> GetVarInt(b[off..]).Ok? && GetVarInt(b[off..]).value == v
    ensures CountAt(b, off, v) ==> off + CountWidth(v) <= |b| && GetVarInt(b[off..]).rest == b[off + CountWidth(v)..]
  {
    hide PutVarInt, GetVarInt, CountAt, CountWidth;
    CountIsVarInt(b, off, v);
    var s, r := PutVarInt(v), b[off..];
    if CountAt(b, off, v) {
      var rest := b[off + |s|..];
      assert r == s + rest;
      VarIntRoundTrip(v, rest);
    }
    if GetVarInt(r).Ok? && GetVarInt(r).value == v {
      VarIntSound(r);
      assert r[..|s|] == s;
      assert b[off..off + |s|] == r[..|s|];
    }
  }

  /** A count is refused for its form exactly when a shorter form could carry it. */
  lemma NonCanonicalExactly(b: seq<byte>)
    ensures GetVarInt(b) == Err(NonCanonicalVarInt)
       <==> || (|b| >= 3 && b[0] == 0xfd && b[2] == 0 && b[1] < 0xfd)
            || (|b| >= 5 && b[0] == 0xfe && b[3] == 0 && b[4] == 0)
            || (|b| >= 9 && b[0] == 0xff && b[5] == b[6] == b[7] == b[8] == 0)
  {
    if |b| >= 1 {
      var r := b[1..];
      if |r| >= 2 {
        FromLEOf2(r[..2]);
      }
      if |r| >= 4 {
        FromLEOf4(r[..4]);
      }
      if |r| >= 8 {
        FromLEOf8(r[..8]);
      }
      hide FromLE;
    }
  }

  lemma FromLEOf2(s: seq<byte>)
    requires |s| == 2
    ensures FromLE(s) == 0x100 * (s[1] as int) + s[0] as int
  {
    assert s[1..][1..] == [];
  }

  lemma FromLEOf4(s: seq<byte>)
    requires |s| == 4
    ensures FromLE(s)
         == 0x100_0000 * (s[3] as int) + 0x1_0000 * (s[2] as int) + 0x100 * (s[1] as int) + s[0] as int
  {
    FromLEOf2(s[2..]);
    assert s[1..][1..] == s[2..];
  }

  lemma FromLEOf8(s: seq<byte>)
    requires |s| == 8
    ensures FromLE(s) < 0x1_0000_0000 <==> s[4] == s[5] == s[6] == s[7] == 0
  {
    FromLEOf4(s[4..]);
    assert s[1..][1..] == s[2..] && s[2..][1..] == s[3..] && s[3..][1..] == s[4..];
    assert FromLE(s[3..]) == s[3] + 256 * FromLE(s[4..]);
    assert FromLE(s[2..]) == s[2] + 256 * FromLE(s[3..]);
  }

  // ---------- What each refusal means ----------

  /** Where the input count is read, with b starting behind the version. */
  function Unflagged(b: seq<byte>, enc: Encoding): seq<byte>
  {
    if enc == WitnessEncoding && |b| >= 2 && b[0] == 0 && b[1] == 1 then b[2..] else b
  }

  lemma InCountCases(b: seq<byte>, enc: Encoding, v: nat)
    requires v > 0
    ensures GetInCount(b, enc) == Err(BadFlag) <==> enc == WitnessEncoding && |b| >= 2 && b[0] == 0 && b[1] != 1
    ensures GetInCount(b, enc).Err? ==> GetInCount(b, enc).error in COUNT_ERRORS + {BadFlag}
    ensures var p, q := GetInCount(b, enc), GetVarInt(Unflagged(b, enc));
            && (p.Ok? && p.value.1 == v <==> q.Ok? && q.value == v)
            && (p.Ok? && p.value.1 == v ==> p.rest == q.rest)
  {
    ScriptErrors(b, 0);
    CountIsZero(b);
    if |b| >= 2 {
      ScriptErrors(b[2..], 0);
      assert b[1..][1..] == b[2..];
    }
    hide GetVarInt;
  }

  lemma CountIsZero(b: seq<byte>)
    ensures GetVarInt(b).Ok? && GetVarInt(b).value == 0 <==> |b| >= 1 && b[0] == 0
    ensures |b| >= 1 && b[0] == 0 ==> GetVarInt(b).rest == b[1..]
  {
  }

  lemma DecodeSteps(b: seq<byte>, enc: Encoding)
    ensures |b| < 4 ==> Decode(b, enc).Err? && Decode(b, enc).error in COUNT_ERRORS
    ensures |b| >= 4 ==>
      match GetInCount(b[4..], enc)
      case Err(e) => Decode(b, enc) == Err(e)
      case Ok(count, rest) => exists version :: Decode(b, enc) == DecodeBody(version, count.0, count.1, rest)
  {
    hide GetInCount, DecodeBody, FromLE;
    if |b| >= 4 && GetInCount(b[4..], enc).Ok? {
      var p := GetInCount(b[4..], enc);
      assert Decode(b, enc) == DecodeBody(ToI32(GetU32(b).value), p.value.0, p.value.1, p.rest);
    }
  }

  /** The flag is refused exactly when the witness encoding finds a zero behind the version
      and anything but a one behind that. */
  lemma BadFlagExactly(b: seq<byte>, enc: Encoding)
    ensures Decode(b, enc) == Err(BadFlag) <==> enc == WitnessEncoding && |b| >= 6 && b[4] == 0 && b[5] != 1
  {
    hide Decode, GetInCount, DecodeBody, Unflagged;
    DecodeSteps(b, enc);
    if |b| >= 4 {
      InCountCases(b[4..], enc, 1);
      if GetInCount(b[4..], enc).Ok? {
        var p := GetInCount(b[4..], enc);
        var version :| Decode(b, enc) == DecodeBody(version, p.value.0, p.value.1, p.rest);
        BodyErrors(version, p.value.0, p.value.1, p.rest);
      }
    }
  }

  lemma CountIsInside(b: seq<byte>, off: nat, v: nat)
    requires CountAt(b, off, v)
    ensures off < |b|
  {
  }

  /** Behind the version, or behind marker and flag. */
  function InCountOffset(b: seq<byte>, enc: Encoding): nat
  {
    if enc == WitnessEncoding && |b| >= 6 && b[4] == 0 && b[5] == 1 then 6 else 4
  }

  /** The inputs are refused as too many exactly when a count above 818401 stands in their
      place. */
  lemma TooManyInputsExactly(b: seq<byte>, enc: Encoding)
    ensures Decode(b, enc) == Err(TooManyInputs)
       <==> exists v :: 818401 < v <= 0xffff_ffff_ffff_ffff && CountAt(b, InCountOffset(b, enc), v)
  {
    hide Decode, GetInCount, DecodeBody, GetVarInt, CountAt;
    DecodeSteps(b, enc);
    forall v | CountAt(b, 4, v) ensures |b| > 4 {
      CountIsInside(b, 4, v);
    }
    if |b| >= 4 {
      var o := InCountOffset(b, enc);
      assert Unflagged(b[4..], enc) == b[o..];
      InCountCases(b[4..], enc, 1);
      if v :| 818401 < v <= 0xffff_ffff_ffff_ffff && CountAt(b, o, v) {
        CountIsRead(b, o, v);
        InCountCases(b[4..], enc, v);
      }
      if GetInCount(b[4..], enc).Ok? {
        var p := GetInCount(b[4..], enc);
        var version :| Decode(b, enc) == DecodeBody(version, p.value.0, p.value.1, p.rest);
        BodyErrors(version, p.value.0, p.value.1, p.rest);
        if p.value.1 > 818401 {
          InCountCases(b[4..], enc, p.value.1);
          VarIntSound(b[o..]);
          CountIsRead(b, o, p.value.1);
        }
      }
    }
  }

  /** The counted inputs from off on are complete and within the limits. */
  predicate InputsStand(b: seq<byte>, off: nat, ins: seq<TxIn>)
  {
    && |ins| <= 818401 && CountAt(b, off, |ins|)
    && AllAt(b, off + CountWidth(|ins|), InputAt, InputWidth, ins)
    && forall i | 0 <= i < |ins| :: |ins[i].script| <= 33554432 && ins[i].stack == []
  }

  function InputsEnd(off: nat, ins: seq<TxIn>): nat { off + CountWidth(|ins|) + Sum(InputWidth, ins) }

  lemma InputsAreRead(b: seq<byte>, off: nat, ins: seq<TxIn>)
    requires off <= |b| && InputsStand(b, off, ins)
    ensures var q := GetVarInt(b[off..]);
            && q.Ok? && q.value == |ins|
            && InputsEnd(off, ins) <= |b| && GetTxIns(q.rest, |ins|) == Ok(ins, b[InputsEnd(off, ins)..])
  {
    hide CountAt, BytesAt, CountWidth, GetVarInt, Sum, PutMany, WrittenAs, StripIns;
    CountIsRead(b, off, |ins|);
    InputsWrittenAs();
    var from, end := off + CountWidth(|ins|), InputsEnd(off, ins);
    AllIsMany(b, from, InputAt, InputWidth, PutTxIn, ins);
    assert BytesAt(b, from, PutMany(PutTxIn, ins));
    FoundAt(b, from, PutMany(PutTxIn, ins));
    Bare(ins);
    InsInvert(ins, b[end..]);
  }

  lemma FoundAt(b: seq<byte>, off: nat, s: seq<byte>)
    requires off <= |b|
    ensures BytesAt(b, off, s) <==> |s| <= |b[off..]| && b[off..] == s + b[off..][|s|..]
    ensures BytesAt(b, off, s) ==> b[off..] == s + b[off + |s|..]
  {
    var r := b[off..];
    if off + |s| <= |b| {
      assert b[off..off + |s|] == r[..|s|];
      assert b[off + |s|..] == r[|s|..];
    }
  }

  lemma Bare(ins: seq<TxIn>)
    requires forall i | 0 <= i < |ins| :: ins[i].stack == []
    ensures StripIns(ins) == ins
  {
  }

  lemma ReadInputsStand(b: seq<byte>, off: nat)
    requires off <= |b| && GetVarInt(b[off..]).Ok?
    requires GetTxIns(GetVarInt(b[off..]).rest, GetVarInt(b[off..]).value).Ok?
    ensures var q := GetVarInt(b[off..]);
            var p := GetTxIns(q.rest, q.value);
            && |p.value| == q.value && InputsStand(b, off, p.value)
            && InputsEnd(off, p.value) <= |b| && p.rest == b[InputsEnd(off, p.value)..]
  {
    hide CountAt, BytesAt, CountWidth, GetVarInt, GetTxIns, Sum, PutMany, WrittenAs;
    var q := GetVarInt(b[off..]);
    VarIntSound(b[off..]);
    CountIsRead(b, off, q.value);
    TxInsSound(q.rest, q.value);
    var p := GetTxIns(q.rest, q.value);
    InputsWrittenAs();
    var from := off + CountWidth(q.value);
    AllIsMany(b, from, InputAt, InputWidth, PutTxIn, p.value);
    var s := PutMany(PutTxIn, p.value);
    assert b[from..] == s + p.rest;
    assert b[from..][|s|..] == p.rest && b[from..][|s|..] == b[from + |s|..];
    FoundAt(b, from, s);
    forall i | 0 <= i < |p.value| ensures |p.value[i].script| <= 33554432 && p.value[i].stack == [] {
      assert BareInCap(p.value[i]);
    }
  }

  /** A zero in place of the input count that is no marker. */
  predicate Misread(b: seq<byte>, enc: Encoding, n: nat)
  {
    enc == WitnessEncoding && n == 0 && InCountOffset(b, enc) == 4
  }

  /** The outputs are refused as too many exactly when the inputs are complete and within
      the limits and a count above 3728271 stands behind them. */
  lemma TooManyOutputsExactly(b: seq<byte>, enc: Encoding)
    ensures Decode(b, enc) == Err(TooManyOutputs)
       <==> exists ins, v ::
              && InputsStand(b, InCountOffset(b, enc), ins) && !Misread(b, enc, |ins|)
              && 3728271 < v <= 0xffff_ffff_ffff_ffff && CountAt(b, InputsEnd(InCountOffset(b, enc), ins), v)
  {
    hide Decode, GetInCount, DecodeBody, GetVarInt, GetTxIns, GetTxOuts, CountAt, InputsStand, InputsEnd;
    DecodeSteps(b, enc);
    forall ins | InputsStand(b, 4, ins) ensures |b| > 4 {
      InputsAreInside(b, 4, ins);
    }
    if |b| >= 4 {
      var o := InCountOffset(b, enc);
      assert Unflagged(b[4..], enc) == b[o..];
      InCountOf(b, enc);
      InCountCases(b[4..], enc, 1);
      if ins, v :| && InputsStand(b, o, ins) && !Misread(b, enc, |ins|)
                   && 3728271 < v <= 0xffff_ffff_ffff_ffff && CountAt(b, InputsEnd(o, ins), v) {
        InputsAreRead(b, o, ins);
        CountIsRead(b, InputsEnd(o, ins), v);
        OutsErrors(b[InputsEnd(o, ins)..]);
      }
      if GetInCount(b[4..], enc).Ok? {
        var p := GetInCount(b[4..], enc);
        var version :| Decode(b, enc) == DecodeBody(version, p.value.0, p.value.1, p.rest);
        BodyErrors(version, p.value.0, p.value.1, p.rest);
        if Decode(b, enc) == Err(TooManyOutputs) {
          ReadInputsStand(b, o);
          var ins := GetTxIns(p.rest, p.value.1).value;
          var e := InputsEnd(o, ins);
          OutsErrors(b[e..]);
          VarIntSound(b[e..]);
          CountIsRead(b, e, GetVarInt(b[e..]).value);
        }
      }
    }
  }

  lemma InputsAreInside(b: seq<byte>, off: nat, ins: seq<TxIn>)
    requires InputsStand(b, off, ins)
    ensures off < |b|
  {
    CountIsInside(b, off, |ins|);
  }

  /** The input count is read where it stands, unless a zero is taken for a marker. */
  lemma InCountOf(b: seq<byte>, enc: Encoding)
    requires |b| >= 4
    ensures var p, q := GetInCount(b[4..], enc), GetVarInt(b[InCountOffset(b, enc)..]);
            && (p.Ok? ==> q.Ok? && p.value.1 == q.value && p.rest == q.rest && !Misread(b, enc, q.value))
            && (q.Ok? && !Misread(b, enc, q.value) ==> p.Ok?)
  {
    CountIsZero(b[4..]);
    hide GetVarInt;
    if |b| >= 6 {
      assert b[4..][1..][1..] == b[6..];
    }
  }

  /** A length above its limit is refused, and nothing else is refused as too large. */
  lemma ScriptTooLargeExactly(b: seq<byte>, off: nat, maxAllowed: nat)
    requires off <= |b|
    ensures GetScript(b[off..], maxAllowed) == Err(ScriptTooLarge)
       <==> exists v :: maxAllowed < v <= 0xffff_ffff_ffff_ffff && CountAt(b, off, v)
  {
    hide GetVarInt, CountAt;
    var q := GetVarInt(b[off..]);
    ScriptErrors(b[off..], 0);
    if v :| maxAllowed < v <= 0xffff_ffff_ffff_ffff && CountAt(b, off, v) {
      CountIsRead(b, off, v);
    }
    if q.Ok? {
      VarIntSound(b[off..]);
      CountIsRead(b, off, q.value);
    }
  }

  /** Scripts may have 32 MiB, witness items 11000 bytes, and stacks 500000 items. */
  lemma ElementsTooLargeExactly(b: seq<byte>)
    ensures GetTxIn(b) == Err(ScriptTooLarge)
       <==> |b| >= 36 && exists v :: 33554432 < v <= 0xffff_ffff_ffff_ffff && CountAt(b, 36, v)
    ensures GetTxOut(b) == Err(ScriptTooLarge)
       <==> |b| >= 8 && exists v :: 33554432 < v <= 0xffff_ffff_ffff_ffff && CountAt(b, 8, v)
    ensures GetWitnessItem(b) == Err(ScriptTooLarge)
       <==> exists v :: 11000 < v <= 0xffff_ffff_ffff_ffff && CountAt(b, 0, v)
    ensures GetWitness(b) == Err(TooManyWitnessItems)
       <==> exists v :: 500000 < v <= 0xffff_ffff_ffff_ffff && CountAt(b, 0, v)
  {
    InputTooLarge(b);
    OutputTooLarge(b);
    StackTooLarge(b);
    assert b[0..] == b;
    ScriptTooLargeExactly(b, 0, 11000);
    hide GetVarInt, CountAt, GetTxIn, GetTxOut, GetWitness, GetScript;
  }

  lemma InputTooLarge(b: seq<byte>)
    ensures GetTxIn(b) == Err(ScriptTooLarge)
       <==> |b| >= 36 && exists v :: 33554432 < v <= 0xffff_ffff_ffff_ffff && CountAt(b, 36, v)
  {
    hide GetVarInt, CountAt, GetScript, FromLE;
    if |b| >= 36 {
      assert b[32..][4..] == b[36..];
      ScriptTooLargeExactly(b, 36, 33554432);
    }
  }

  lemma OutputTooLarge(b: seq<byte>)
    ensures GetTxOut(b) == Err(ScriptTooLarge)
       <==> |b| >= 8 && exists v :: 33554432 < v <= 0xffff_ffff_ffff_ffff && CountAt(b, 8, v)
  {
    hide GetVarInt, CountAt, GetScript, FromLE;
    if |b| >= 8 {
      ScriptTooLargeExactly(b, 8, 33554432);
    }
  }

  lemma StackTooLarge(b: seq<byte>)
    ensures GetWitness(b) == Err(TooManyWitnessItems)
       <==> exists v :: 500000 < v <= 0xffff_ffff_ffff_ffff && CountAt(b, 0, v)
  {
    hide GetVarInt, CountAt, GetScript, Many;
    ScriptErrors(b, 0);
    assert b[0..] == b;
    if v :| 500000 < v <= 0xffff_ffff_ffff_ffff && CountAt(b, 0, v) {
      CountIsRead(b, 0, v);
    }
    if GetVarInt(b).Ok? {
      VarIntSound(b);
      CountIsRead(b, 0, GetVarInt(b).value);
      ItemErrors();
      ManyFailsOnly(GetWitnessItem, GetVarInt(b).value, GetVarInt(b).rest, SCRIPT_ERRORS);
    }
  }

  lemma ItemErrors()
    ensures FailsOnly(GetWitnessItem, SCRIPT_ERRORS)
  {
    forall b | GetWitnessItem(b).Err? ensures GetWitnessItem(b).error in SCRIPT_ERRORS {
      ScriptErrors(b, 11000);
    }
  }
}
