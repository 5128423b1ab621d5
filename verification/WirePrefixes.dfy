/** The decoder of wire/msgtx.go looks no further than it reads: what it makes of a stream
does not change when more arrives, except that a stream that ended too early may go on. */
module WirePrefixes {
  import opened Bytes
  import opened VarInts
  import opened TxGrammar

  /** The stream ended where more was needed. */
  predicate CutShort(e: WireError) { e == EOF || e == UnexpectedEOF }

  /** What p says of a stream still holds when more follows it, as q says. */
  predicate GoesOn<T(==)>(p: Parsed<T>, q: Parsed<T>, more: seq<byte>)
  {
    match p
    case Ok(v, rest) => q == Ok(v, rest + more)
    case Err(e) => CutShort(e) || q == p
  }

  ghost predicate Stable<T(!new)>(get: Parser<T>)
  {
    forall b, more {:trigger get(b), get(b + more)} :: GoesOn(get(b), get(b + more), more)
  }

  lemma TakeGoesOn(n: nat, b: seq<byte>, more: seq<byte>)
    ensures GoesOn(Take(n, b), Take(n, b + more), more)
  {
    if n <= |b| {
      assert (b + more)[..n] == b[..n] && (b + more)[n..] == b[n..] + more;
    }
  }

  lemma GetLEGoesOn(n: nat, b: seq<byte>, more: seq<byte>)
    ensures GoesOn(GetLE(n, b), GetLE(n, b + more), more)
    ensures n == 4 ==> GoesOn(GetU32(b), GetU32(b + more), more)
    ensures n == 8 ==> GoesOn(GetU64(b), GetU64(b + more), more)
  {
    TakeGoesOn(n, b, more);
  }

  lemma VarIntGoesOn(b: seq<byte>, more: seq<byte>)
    ensures GoesOn(GetVarInt(b), GetVarInt(b + more), more)
  {
    TakeGoesOn(1, b, more);
    if b != [] {
      var r := b[1..];
      assert (b + more)[1..] == r + more;
      GetLEGoesOn(2, r, more);
      GetLEGoesOn(4, r, more);
      GetLEGoesOn(8, r, more);
      hide GetLE;
    }
  }

  lemma ScriptGoesOn(b: seq<byte>, more: seq<byte>, maxAllowed: nat)
    ensures GoesOn(GetScript(b, maxAllowed), GetScript(b + more, maxAllowed), more)
  {
    VarIntGoesOn(b, more);
    hide GetVarInt;
    if GetVarInt(b).Ok? {
      TakeGoesOn(GetVarInt(b).value, GetVarInt(b).rest, more);
    }
  }

  lemma TxInGoesOn(b: seq<byte>, more: seq<byte>)
    ensures GoesOn(GetTxIn(b), GetTxIn(b + more), more)
  {
    OutPointGoesOn(b, more);
    hide GetOutPoint, GetScript, GetU32;
    var p := GetOutPoint(b);
    if p.Ok? {
      ScriptGoesOn(p.rest, more, MAX_MESSAGE_PAYLOAD);
      var q := GetScript(p.rest, MAX_MESSAGE_PAYLOAD);
      if q.Ok? {
        GetLEGoesOn(4, q.rest, more);
      }
    }
  }

  lemma OutPointGoesOn(b: seq<byte>, more: seq<byte>)
    ensures GoesOn(GetOutPoint(b), GetOutPoint(b + more), more)
  {
    TakeGoesOn(32, b, more);
    hide GetU32;
    if |b| >= 32 {
      GetLEGoesOn(4, b[32..], more);
      assert (b + more)[32..] == b[32..] + more;
    }
  }

  lemma TxOutGoesOn(b: seq<byte>, more: seq<byte>)
    ensures GoesOn(GetTxOut(b), GetTxOut(b + more), more)
  {
    GetLEGoesOn(8, b, more);
    hide GetScript, GetU64;
    if GetU64(b).Ok? {
      ScriptGoesOn(GetU64(b).rest, more, MAX_MESSAGE_PAYLOAD);
    }
  }

  lemma {:induction false} ManyGoesOn<T(!new)>(get: Parser<T>, n: nat, b: seq<byte>, more: seq<byte>)
    requires Stable(get)
    ensures GoesOn(Many(get, n, b), Many(get, n, b + more), more)
    decreases n
  {
    if n > 0 {
      assert GoesOn(get(b), get(b + more), more);
      if get(b).Ok? {
        ManyGoesOn(get, n - 1, get(b).rest, more);
      }
    }
  }

  lemma WitnessGoesOn(b: seq<byte>, more: seq<byte>)
    ensures GoesOn(GetWitness(b), GetWitness(b + more), more)
  {
    VarIntGoesOn(b, more);
    hide GetVarInt, GetWitnessItem, Many, GetScript;
    if GetVarInt(b).Ok? {
      ItemsAreStable();
      ManyGoesOn(GetWitnessItem, GetVarInt(b).value, GetVarInt(b).rest, more);
    }
  }

  lemma ItemsAreStable()
    ensures Stable(GetWitnessItem)
  {
    forall b, more ensures GoesOn(GetWitnessItem(b), GetWitnessItem(b + more), more) {
      ScriptGoesOn(b, more, MAX_WITNESS_ITEM_SIZE);
    }
  }

  lemma ElementsAreStable()
    ensures Stable(GetTxIn) && Stable(GetTxOut) && Stable(GetWitness)
  {
    hide GetTxIn, GetTxOut, GetWitness;
    forall b, more ensures GoesOn(GetTxIn(b), GetTxIn(b + more), more) { TxInGoesOn(b, more); }
    forall b, more ensures GoesOn(GetTxOut(b), GetTxOut(b + more), more) { TxOutGoesOn(b, more); }
    forall b, more ensures GoesOn(GetWitness(b), GetWitness(b + more), more) { WitnessGoesOn(b, more); }
  }

  lemma InCountGoesOn(b: seq<byte>, more: seq<byte>, enc: Encoding)
    ensures GoesOn(GetInCount(b, enc), GetInCount(b + more, enc), more)
  {
    VarIntGoesOn(b, more);
    hide GetVarInt;
    var p := GetVarInt(b);
    if p.Ok? {
      TakeGoesOn(1, p.rest, more);
      if p.rest != [] {
        assert (p.rest + more)[1..] == p.rest[1..] + more;
        VarIntGoesOn(p.rest[1..], more);
      }
    }
  }

  lemma InsGoOn(b: seq<byte>, more: seq<byte>, n: nat)
    ensures GoesOn(GetTxIns(b, n), GetTxIns(b + more, n), more)
  {
    ElementsAreStable();
    hide Many, GetTxIn;
    ManyGoesOn(GetTxIn, n, b, more);
  }

  lemma OutsGoOn(b: seq<byte>, more: seq<byte>)
    ensures GoesOn(GetTxOuts(b), GetTxOuts(b + more), more)
  {
    VarIntGoesOn(b, more);
    hide GetVarInt, Many, GetTxOut, Stable;
    if GetVarInt(b).Ok? {
      ElementsAreStable();
      ManyGoesOn(GetTxOut, GetVarInt(b).value, GetVarInt(b).rest, more);
    }
  }

  lemma FootGoesOn(version: int32, flagged: bool, ins: seq<TxIn>, outs: seq<TxOut>, b: seq<byte>, more: seq<byte>)
    ensures GoesOn(DecodeFoot(version, flagged, ins, outs, b), DecodeFoot(version, flagged, ins, outs, b + more), more)
  {
    hide Many, GetWitness, GetU32, Stable, Attach;
    ElementsAreStable();
    ManyGoesOn(GetWitness, |ins|, b, more);
    var p := GetStacks(b, flagged, |ins|);
    if p.Ok? {
      GetLEGoesOn(4, p.rest, more);
      StacksCount(b, flagged, |ins|);
      StacksCount(b + more, flagged, |ins|);
    }
  }

  lemma StacksCount(b: seq<byte>, flagged: bool, n: nat)
    ensures GetStacks(b, flagged, n).Ok? ==> |GetStacks(b, flagged, n).value| == n
  {
    ManyCount(GetWitness, n, b);
  }

  lemma BodyGoesOn(version: int32, flagged: bool, n: nat, b: seq<byte>, more: seq<byte>)
    ensures GoesOn(DecodeBody(version, flagged, n, b), DecodeBody(version, flagged, n, b + more), more)
  {
    hide GetTxIns, GetTxOuts, DecodeFoot;
    InsGoOn(b, more, n);
    var p := GetTxIns(b, n);
    if p.Ok? {
      OutsGoOn(p.rest, more);
      var q := GetTxOuts(p.rest);
      if q.Ok? {
        FootGoesOn(version, flagged, p.value, q.value, q.rest, more);
      }
    }
  }

  /** What was decoded stays decoded when more follows, and is followed by it; and so does
      every refusal but that of a stream that ended. */
  lemma DecodeGoesOn(b: seq<byte>, more: seq<byte>, enc: Encoding)
    ensures GoesOn(Decode(b, enc), Decode(b + more, enc), more)
  {
    hide GetU32, GetInCount, DecodeBody;
    GetLEGoesOn(4, b, more);
    var p := GetU32(b);
    if p.Ok? {
      InCountGoesOn(p.rest, more, enc);
      var q := GetInCount(p.rest, enc);
      if q.Ok? {
        BodyGoesOn(ToI32(p.value), q.value.0, q.value.1, q.rest, more);
      }
    }
  }

  /** Of the bytes of a transaction, anything less than all is refused as cut short. */
  lemma CutShortExactly(b: seq<byte>, k: nat, enc: Encoding)
    requires k <= |b| && Decode(b, enc).Ok?
    ensures |Decode(b, enc).rest| <= |b|
    ensures var n := |b| - |Decode(b, enc).rest|;
            if k < n then Decode(b[..k], enc).Err? && CutShort(Decode(b[..k], enc).error)
            else Decode(b[..k], enc) == Ok(Decode(b, enc).value, b[n..k])
  {
    hide Decode, Layout, Flagged, BaseCaps, WitnessCaps, HasWitness;
    DecodeSound(b, enc);
    var tx, n := Decode(b, enc).value, |b| - |Decode(b, enc).rest|;
    assert b == b[..k] + b[k..];
    DecodeGoesOn(b[..k], b[k..], enc);
    if k >= n {
      assert b[..k] == Layout(tx, Flagged(b, enc)) + b[n..k];
      NoWitness(tx);
      LayoutInverts(tx, Flagged(b, enc), enc, b[n..k]);
    }
  }
}
