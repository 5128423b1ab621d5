/** The transaction format as a grammar (wire/msgtx.go): what is written, what is
read, and that the two undo each other. The BIP 144 marker is a zero where the
input count stands, so a transaction without inputs is the one that a
witness-aware reader cannot get back. */
module TxGrammar {
  import opened Bytes
  import opened OutPoints
  import opened VarInts

  const MAX_MESSAGE_PAYLOAD: nat := 1024 * 1024 * 32
  const MIN_TX_IN_PAYLOAD: nat := 9 + HASH_SIZE
  const MAX_TX_IN_PER_MESSAGE: nat := MAX_MESSAGE_PAYLOAD / MIN_TX_IN_PAYLOAD + 1
  const MIN_TX_OUT_PAYLOAD: nat := 9
  const MAX_TX_OUT_PER_MESSAGE: nat := MAX_MESSAGE_PAYLOAD / MIN_TX_OUT_PAYLOAD + 1
  const MAX_WITNESS_ITEMS_PER_INPUT: nat := 500000
  const MAX_WITNESS_ITEM_SIZE: nat := 11000
  const TX_FLAG_MARKER: byte := 0
  const WITNESS_FLAG: byte := 1

  datatype Encoding = BaseEncoding | WitnessEncoding

  datatype TxIn = TxIn(prev: OutPoint, script: seq<byte>, stack: seq<seq<byte>>, sequence: uint32)
  datatype TxOut = TxOut(value: int64, script: seq<byte>)
  datatype MsgTx = MsgTx(version: int32, ins: seq<TxIn>, outs: seq<TxOut>, lockTime: uint32)

  // ---------- Writing ----------

  function PutVarBytes(s: seq<byte>): seq<byte> { PutVarInt(|s|) + s }

  function PutOutPoint(op: OutPoint): seq<byte> { op.hash + LE(4, op.index) }

  /** An input without its witness. */
  function PutTxIn(ti: TxIn): seq<byte>
  {
    PutOutPoint(ti.prev) + (PutVarBytes(ti.script) + LE(4, ti.sequence))
  }

  function PutTxOut(to: TxOut): seq<byte> { LE(8, ToU64(to.value)) + PutVarBytes(to.script) }

  function PutWitness(w: seq<seq<byte>>): seq<byte> { PutVarInt(|w|) + PutMany(PutVarBytes, w) }

  function Witnesses(ins: seq<TxIn>): seq<seq<seq<byte>>>
  {
    seq(|ins|, i requires 0 <= i < |ins| => ins[i].stack)
  }

  predicate HasWitness(tx: MsgTx) { exists i | 0 <= i < |tx.ins| :: tx.ins[i].stack != [] }

  function Head(tx: MsgTx): seq<byte> { LE(4, ToU32(tx.version)) }

  function Flag(flagged: bool): seq<byte> { if flagged then [TX_FLAG_MARKER, WITNESS_FLAG] else [] }

  /** Inputs and outputs, the part both encodings share. */
  function Core(tx: MsgTx): seq<byte>
  {
    PutVarInt(|tx.ins|) + (PutMany(PutTxIn, tx.ins) + (PutVarInt(|tx.outs|) + PutMany(PutTxOut, tx.outs)))
  }

  function Stacks(tx: MsgTx, flagged: bool): seq<byte>
  {
    if flagged then PutMany(PutWitness, Witnesses(tx.ins)) else []
  }

  function Foot(tx: MsgTx): seq<byte> { LE(4, tx.lockTime) }

  /** A transaction laid out with or without the flag and the witness stacks. */
  function Layout(tx: MsgTx, flagged: bool): seq<byte>
  {
    Head(tx) + (Flag(flagged) + (Core(tx) + (Stacks(tx, flagged) + Foot(tx))))
  }

  function Encode(tx: MsgTx, enc: Encoding): seq<byte>
  {
    Layout(tx, enc.WitnessEncoding? && HasWitness(tx))
  }

  // ---------- Reading ----------

  function GetScript(b: seq<byte>, maxAllowed: nat): Parsed<seq<byte>>
  {
    var (n, r) :- GetVarInt(b);
    if n > maxAllowed then Err(ScriptTooLarge) else Take(n, r)
  }

  function GetOutPoint(b: seq<byte>): Parsed<OutPoint>
  {
    var (hash, r) :- Take(HASH_SIZE, b);
    var (index, rest) :- GetU32(r);
    Ok(OutPoint(hash, index), rest)
  }

  function GetTxIn(b: seq<byte>): Parsed<TxIn>
  {
    var (prev, r) :- GetOutPoint(b);
    var (script, r2) :- GetScript(r, MAX_MESSAGE_PAYLOAD);
    var (sequence, rest) :- GetU32(r2);
    Ok(TxIn(prev, script, [], sequence), rest)
  }

  function GetTxOut(b: seq<byte>): Parsed<TxOut>
  {
    var (value, r) :- GetU64(b);
    var (script, rest) :- GetScript(r, MAX_MESSAGE_PAYLOAD);
    Ok(TxOut(ToI64(value), script), rest)
  }

  function GetWitnessItem(b: seq<byte>): Parsed<seq<byte>> { GetScript(b, MAX_WITNESS_ITEM_SIZE) }

  function GetWitness(b: seq<byte>): Parsed<seq<seq<byte>>>
  {
    var (n, r) :- GetVarInt(b);
    if n > MAX_WITNESS_ITEMS_PER_INPUT then Err(TooManyWitnessItems) else Many(GetWitnessItem, n, r)
  }

  /** The input count, and whether a flag stood in front of it. */
  function GetInCount(b: seq<byte>, enc: Encoding): Parsed<(bool, nat)>
  {
    var (count, r) :- GetVarInt(b);
    if count == 0 && enc.WitnessEncoding? then
      var (flag, r2) :- Take(1, r);
      if flag[0] != WITNESS_FLAG then Err(BadFlag)
      else
        var (count2, rest) :- GetVarInt(r2);
        Ok((true, count2), rest)
    else
      Ok((false, count), r)
  }

  function GetTxIns(b: seq<byte>, n: nat): Parsed<seq<TxIn>>
  {
    if n > MAX_TX_IN_PER_MESSAGE then Err(TooManyInputs) else Many(GetTxIn, n, b)
  }

  function GetTxOuts(b: seq<byte>): Parsed<seq<TxOut>>
  {
    var (n, r) :- GetVarInt(b);
    if n > MAX_TX_OUT_PER_MESSAGE then Err(TooManyOutputs) else Many(GetTxOut, n, r)
  }

  function GetStacks(b: seq<byte>, flagged: bool, n: nat): Parsed<seq<seq<seq<byte>>>>
  {
    if flagged then Many(GetWitness, n, b) else Ok(seq(n, _ => []), b)
  }

  function Attach(ins: seq<TxIn>, ws: seq<seq<seq<byte>>>): (r: seq<TxIn>)
    requires |ins| == |ws|
    ensures |r| == |ins|
  {
    seq(|ins|, i requires 0 <= i < |ins| => ins[i].(stack := ws[i]))
  }

  lemma ManyCount<T>(get: Parser<T>, n: nat, b: seq<byte>)
    ensures Many(get, n, b).Ok? ==> |Many(get, n, b).value| == n
  {
  }

  function DecodeFoot(version: int32, flagged: bool, ins: seq<TxIn>, outs: seq<TxOut>, b: seq<byte>): Parsed<MsgTx>
  {
    var (ws, b1) :- GetStacks(b, flagged, |ins|);
    var (lockTime, rest) :- GetU32(b1);
    ManyCount(GetWitness, |ins|, b);
    Ok(MsgTx(version, Attach(ins, ws), outs, lockTime), rest)
  }

  function DecodeBody(version: int32, flagged: bool, n: nat, b: seq<byte>): Parsed<MsgTx>
  {
    var (ins, b1) :- GetTxIns(b, n);
    var (outs, b2) :- GetTxOuts(b1);
    DecodeFoot(version, flagged, ins, outs, b2)
  }

  function Decode(b: seq<byte>, enc: Encoding): Parsed<MsgTx>
  {
    var (version, b1) :- GetU32(b);
    var (count, b2) :- GetInCount(b1, enc);
    DecodeBody(ToI32(version), count.0, count.1, b2)
  }

  /** Whether the reader took the zero after the version for a marker. */
  predicate Flagged(b: seq<byte>, enc: Encoding)
  {
    var p := GetU32(b);
    p.Ok? && var q := GetInCount(p.rest, enc); q.Ok? && q.value.0
  }

  // ---------- What the reader's limits let through ----------

  predicate InCap(ti: TxIn) { |ti.script| <= MAX_MESSAGE_PAYLOAD }

  predicate BareInCap(ti: TxIn) { InCap(ti) && ti.stack == [] }

  predicate OutCap(to: TxOut) { |to.script| <= MAX_MESSAGE_PAYLOAD }

  predicate ItemCap(item: seq<byte>) { |item| <= MAX_WITNESS_ITEM_SIZE }

  predicate WitnessCap(w: seq<seq<byte>>)
  {
    |w| <= MAX_WITNESS_ITEMS_PER_INPUT && forall item :: item in w ==> ItemCap(item)
  }

  predicate BaseCaps(tx: MsgTx)
  {
    && |tx.ins| <= MAX_TX_IN_PER_MESSAGE
    && |tx.outs| <= MAX_TX_OUT_PER_MESSAGE
    && (forall ti :: ti in tx.ins ==> InCap(ti))
    && (forall to :: to in tx.outs ==> OutCap(to))
  }

  predicate WitnessCaps(tx: MsgTx) { forall ti :: ti in tx.ins ==> WitnessCap(ti.stack) }

  function StripIns(ins: seq<TxIn>): seq<TxIn>
  {
    seq(|ins|, i requires 0 <= i < |ins| => ins[i].(stack := []))
  }

  function Strip(tx: MsgTx): MsgTx { tx.(ins := StripIns(tx.ins)) }

  // ---------- The pieces, both ways ----------

  lemma GetU32Inverts(v: uint32, rest: seq<byte>)
    ensures GetU32(LE(4, v) + rest) == Ok(v, rest)
  {
    Pow256Values();
    GetLEInverts(4, v, rest);
  }

  lemma GetU32Sound(b: seq<byte>)
    requires GetU32(b).Ok?
    ensures b == LE(4, GetU32(b).value) + GetU32(b).rest
  {
    GetLESound(4, b);
  }

  lemma ScriptInverts(s: seq<byte>, maxAllowed: nat, rest: seq<byte>)
    requires |s| <= maxAllowed <= MAX_UINT64
    ensures GetScript(PutVarBytes(s) + rest, maxAllowed) == Ok(s, rest)
  {
    assert PutVarBytes(s) + rest == PutVarInt(|s|) + (s + rest);
    VarIntRoundTrip(|s|, s + rest);
    TakeInverts(s, rest);
  }

  lemma ScriptSound(b: seq<byte>, maxAllowed: nat)
    requires GetScript(b, maxAllowed).Ok?
    ensures var p := GetScript(b, maxAllowed);
            |p.value| <= maxAllowed && b == PutVarBytes(p.value) + p.rest
  {
    hide GetVarInt, PutVarInt;
    VarIntSound(b);
    var q := GetVarInt(b);
    assert q.rest == q.rest[..q.value] + q.rest[q.value..];
  }

  lemma TxInInverts()
    ensures Inverts(GetTxIn, PutTxIn, BareInCap)
  {
    forall ti, rest | BareInCap(ti)
      ensures GetTxIn(PutTxIn(ti) + rest) == Ok(ti, rest)
    {
      var t2 := LE(4, ti.sequence) + rest;
      var t1 := PutVarBytes(ti.script) + t2;
      var t0 := LE(4, ti.prev.index) + t1;
      assert PutTxIn(ti) + rest == ti.prev.hash + t0;
      TakeInverts(ti.prev.hash, t0);
      GetU32Inverts(ti.prev.index, t1);
      ScriptInverts(ti.script, MAX_MESSAGE_PAYLOAD, t2);
      GetU32Inverts(ti.sequence, rest);
    }
  }

  lemma OutPointSound(b: seq<byte>)
    requires GetOutPoint(b).Ok?
    ensures b == PutOutPoint(GetOutPoint(b).value) + GetOutPoint(b).rest
  {
    var r := b[HASH_SIZE..];
    assert b == b[..HASH_SIZE] + r;
    GetU32Sound(r);
  }

  lemma OneTxInSound(b: seq<byte>)
    requires GetTxIn(b).Ok?
    ensures BareInCap(GetTxIn(b).value) && b == PutTxIn(GetTxIn(b).value) + GetTxIn(b).rest
  {
    hide GetOutPoint, GetScript, GetU32, PutOutPoint, PutVarBytes;
    var p1 := GetOutPoint(b);
    OutPointSound(b);
    var p2 := GetScript(p1.rest, MAX_MESSAGE_PAYLOAD);
    ScriptSound(p1.rest, MAX_MESSAGE_PAYLOAD);
    GetU32Sound(p2.rest);
  }

  lemma TxInSound()
    ensures Sound(GetTxIn, PutTxIn, BareInCap)
  {
    hide GetTxIn, PutTxIn;
    forall b | GetTxIn(b).Ok?
      ensures BareInCap(GetTxIn(b).value) && b == PutTxIn(GetTxIn(b).value) + GetTxIn(b).rest
    {
      OneTxInSound(b);
    }
  }

  lemma TxOutInverts()
    ensures Inverts(GetTxOut, PutTxOut, OutCap)
  {
    forall to, rest | OutCap(to)
      ensures GetTxOut(PutTxOut(to) + rest) == Ok(to, rest)
    {
      Pow256Values();
      var t := PutVarBytes(to.script) + rest;
      assert PutTxOut(to) + rest == LE(8, ToU64(to.value)) + t;
      GetLEInverts(8, ToU64(to.value), t);
      ScriptInverts(to.script, MAX_MESSAGE_PAYLOAD, rest);
    }
  }

  lemma TxOutSound()
    ensures Sound(GetTxOut, PutTxOut, OutCap)
  {
    forall b | GetTxOut(b).Ok?
      ensures OutCap(GetTxOut(b).value) && b == PutTxOut(GetTxOut(b).value) + GetTxOut(b).rest
    {
      GetLESound(8, b);
      ScriptSound(GetU64(b).rest, MAX_MESSAGE_PAYLOAD);
    }
  }

  lemma ItemInverts()
    ensures Inverts(GetWitnessItem, PutVarBytes, ItemCap)
  {
    forall item, rest | ItemCap(item)
      ensures GetWitnessItem(PutVarBytes(item) + rest) == Ok(item, rest)
    {
      ScriptInverts(item, MAX_WITNESS_ITEM_SIZE, rest);
    }
  }

  lemma ItemSound()
    ensures Sound(GetWitnessItem, PutVarBytes, ItemCap)
  {
    forall b | GetWitnessItem(b).Ok?
      ensures ItemCap(GetWitnessItem(b).value)
      ensures b == PutVarBytes(GetWitnessItem(b).value) + GetWitnessItem(b).rest
    {
      ScriptSound(b, MAX_WITNESS_ITEM_SIZE);
    }
  }

  lemma WitnessInverts()
    ensures Inverts(GetWitness, PutWitness, WitnessCap)
  {
    forall w, rest | WitnessCap(w)
      ensures GetWitness(PutWitness(w) + rest) == Ok(w, rest)
    {
      OneWitnessInverts(w, rest);
    }
  }

  lemma OneWitnessInverts(w: seq<seq<byte>>, rest: seq<byte>)
    requires WitnessCap(w)
    ensures GetWitness(PutWitness(w) + rest) == Ok(w, rest)
  {
    hide GetVarInt, PutVarInt, Many, PutMany, GetWitnessItem, PutVarBytes, ItemCap, Inverts;
    ItemInverts();
    var t := PutMany(PutVarBytes, w) + rest;
    assert PutWitness(w) + rest == PutVarInt(|w|) + t;
    VarIntRoundTrip(|w|, t);
    ManyInverts(GetWitnessItem, PutVarBytes, ItemCap, w, rest);
  }

  lemma WitnessSound()
    ensures Sound(GetWitness, PutWitness, WitnessCap)
  {
    forall b | GetWitness(b).Ok?
      ensures WitnessCap(GetWitness(b).value) && b == PutWitness(GetWitness(b).value) + GetWitness(b).rest
    {
      OneWitnessSound(b);
    }
  }

  lemma OneWitnessSound(b: seq<byte>)
    requires GetWitness(b).Ok?
    ensures WitnessCap(GetWitness(b).value) && b == PutWitness(GetWitness(b).value) + GetWitness(b).rest
  {
    hide GetVarInt, PutVarInt, Many, PutMany, GetWitnessItem, PutVarBytes, ItemCap, Sound;
    ItemSound();
    VarIntSound(b);
    var p := GetVarInt(b);
    ManySound(GetWitnessItem, PutVarBytes, ItemCap, p.value, p.rest);
  }

  lemma StripCaps(ins: seq<TxIn>)
    requires forall ti :: ti in ins ==> InCap(ti)
    ensures forall ti :: ti in StripIns(ins) ==> BareInCap(ti)
  {
    forall ti | ti in StripIns(ins)
      ensures BareInCap(ti)
    {
      var i :| 0 <= i < |ins| && StripIns(ins)[i] == ti;
      assert ins[i] in ins;
    }
  }

  lemma {:induction false} PutStrippedIns(ins: seq<TxIn>)
    ensures PutMany(PutTxIn, StripIns(ins)) == PutMany(PutTxIn, ins)
  {
    if ins != [] {
      assert StripIns(ins)[1..] == StripIns(ins[1..]);
      PutStrippedIns(ins[1..]);
    }
  }

  // ---------- Reading back what was written ----------

  lemma InCountInverts(n: nat, flagged: bool, enc: Encoding, rest: seq<byte>)
    requires n <= MAX_UINT64
    requires if flagged then enc.WitnessEncoding? else n > 0 || enc.BaseEncoding?
    ensures GetInCount(Flag(flagged) + (PutVarInt(n) + rest), enc) == Ok((flagged, n), rest)
  {
    VarIntRoundTrip(n, rest);
    var t := PutVarInt(n) + rest;
    if flagged {
      var t1 := [WITNESS_FLAG] + t;
      assert Flag(true) + t == PutVarInt(0) + t1;
      VarIntRoundTrip(0, t1);
      TakeInverts([WITNESS_FLAG], t);
    } else {
      assert Flag(false) + t == t;
    }
  }

  lemma OutsInvert(outs: seq<TxOut>, rest: seq<byte>)
    requires |outs| <= MAX_TX_OUT_PER_MESSAGE
    requires forall to :: to in outs ==> OutCap(to)
    ensures GetTxOuts(PutVarInt(|outs|) + (PutMany(PutTxOut, outs) + rest)) == Ok(outs, rest)
  {
    VarIntRoundTrip(|outs|, PutMany(PutTxOut, outs) + rest);
    TxOutInverts();
    ManyInverts(GetTxOut, PutTxOut, OutCap, outs, rest);
  }

  lemma InsInvert(ins: seq<TxIn>, rest: seq<byte>)
    requires |ins| <= MAX_TX_IN_PER_MESSAGE
    requires forall ti :: ti in ins ==> InCap(ti)
    ensures GetTxIns(PutMany(PutTxIn, ins) + rest, |ins|) == Ok(StripIns(ins), rest)
  {
    PutStrippedIns(ins);
    StripCaps(ins);
    TxInInverts();
    ManyInverts(GetTxIn, PutTxIn, BareInCap, StripIns(ins), rest);
  }

  lemma StacksInvert(tx: MsgTx, flagged: bool, rest: seq<byte>)
    requires flagged ==> WitnessCaps(tx)
    requires !flagged ==> Strip(tx) == tx
    ensures GetStacks(Stacks(tx, flagged) + rest, flagged, |tx.ins|) == Ok(Witnesses(tx.ins), rest)
  {
    if flagged {
      WitnessInverts();
      ManyInverts(GetWitness, PutWitness, WitnessCap, Witnesses(tx.ins), rest);
    } else {
      assert Stacks(tx, false) + rest == rest;
      assert forall i | 0 <= i < |tx.ins| :: tx.ins[i] == Strip(tx).ins[i];
      assert Witnesses(tx.ins) == seq(|tx.ins|, _ => []);
    }
  }

  lemma FootInverts(tx: MsgTx, flagged: bool, rest: seq<byte>)
    requires if flagged then WitnessCaps(tx) else Strip(tx) == tx
    ensures DecodeFoot(tx.version, flagged, StripIns(tx.ins), tx.outs, Stacks(tx, flagged) + (Foot(tx) + rest))
         == Ok(tx, rest)
  {
    StacksInvert(tx, flagged, Foot(tx) + rest);
    GetU32Inverts(tx.lockTime, rest);
    assert Attach(StripIns(tx.ins), Witnesses(tx.ins)) == tx.ins;
  }

  /** The layout after the flag, one field at a time. */
  function Body(tx: MsgTx, flagged: bool, rest: seq<byte>): seq<byte>
  {
    PutMany(PutTxIn, tx.ins) +
    (PutVarInt(|tx.outs|) + (PutMany(PutTxOut, tx.outs) + (Stacks(tx, flagged) + (Foot(tx) + rest))))
  }

  lemma LayoutFields(tx: MsgTx, flagged: bool, rest: seq<byte>)
    ensures Layout(tx, flagged) + rest
         == Head(tx) + (Flag(flagged) + (PutVarInt(|tx.ins|) + Body(tx, flagged, rest)))
  {
    hide PutMany, PutVarInt, LE;
    var ni, pi := PutVarInt(|tx.ins|), PutMany(PutTxIn, tx.ins);
    var no, po := PutVarInt(|tx.outs|), PutMany(PutTxOut, tx.outs);
    var h, f, s, l := Head(tx), Flag(flagged), Stacks(tx, flagged), Foot(tx);
    assert ni + (pi + (no + po)) + (s + l) + rest == ni + (pi + (no + (po + (s + (l + rest)))));
    assert h + (f + (Core(tx) + (s + l))) + rest == h + (f + (Core(tx) + (s + l) + rest));
  }

  lemma BodyInverts(tx: MsgTx, flagged: bool, rest: seq<byte>)
    requires BaseCaps(tx)
    requires if flagged then WitnessCaps(tx) else Strip(tx) == tx
    ensures DecodeBody(tx.version, flagged, |tx.ins|, Body(tx, flagged, rest)) == Ok(tx, rest)
  {
    var t := Stacks(tx, flagged) + (Foot(tx) + rest);
    InsInvert(tx.ins, PutVarInt(|tx.outs|) + (PutMany(PutTxOut, tx.outs) + t));
    OutsInvert(tx.outs, t);
    FootInverts(tx, flagged, rest);
  }

  lemma LayoutInverts(tx: MsgTx, flagged: bool, enc: Encoding, rest: seq<byte>)
    requires BaseCaps(tx)
    requires if flagged then enc.WitnessEncoding? && WitnessCaps(tx) else Strip(tx) == tx
    requires flagged || |tx.ins| > 0 || enc.BaseEncoding?
    ensures Decode(Layout(tx, flagged) + rest, enc) == Ok(tx, rest)
  {
    hide DecodeBody, Body;
    var body := Body(tx, flagged, rest);
    LayoutFields(tx, flagged, rest);
    GetU32Inverts(ToU32(tx.version), Flag(flagged) + (PutVarInt(|tx.ins|) + body));
    InCountInverts(|tx.ins|, flagged, enc, body);
    BodyInverts(tx, flagged, rest);
  }

  lemma NoWitness(tx: MsgTx)
    ensures HasWitness(tx) <==> Strip(tx) != tx
  {
    if !HasWitness(tx) {
      assert StripIns(tx.ins) == tx.ins;
    } else {
      var i :| 0 <= i < |tx.ins| && tx.ins[i].stack != [];
      assert Strip(tx).ins[i] != tx.ins[i];
    }
  }

  // ---------- Writing back what was read ----------

  lemma InCountSound(b: seq<byte>, enc: Encoding)
    requires GetInCount(b, enc).Ok?
    ensures var p := GetInCount(b, enc);
            b == Flag(p.value.0) + (PutVarInt(p.value.1) + p.rest)
    ensures !GetInCount(b, enc).value.0 && enc.WitnessEncoding? ==> GetInCount(b, enc).value.1 > 0
  {
    VarIntSound(b);
    var r := GetVarInt(b).rest;
    if GetInCount(b, enc).value.0 {
      assert r == [WITNESS_FLAG] + r[1..];
      VarIntSound(r[1..]);
    }
  }

  lemma TxInsSound(b: seq<byte>, n: nat)
    requires GetTxIns(b, n).Ok?
    ensures var p := GetTxIns(b, n);
            && |p.value| == n <= MAX_TX_IN_PER_MESSAGE
            && (forall ti :: ti in p.value ==> BareInCap(ti))
            && b == PutMany(PutTxIn, p.value) + p.rest
  {
    TxInSound();
    ManySound(GetTxIn, PutTxIn, BareInCap, n, b);
  }

  lemma TxOutsSound(b: seq<byte>)
    requires GetTxOuts(b).Ok?
    ensures var p := GetTxOuts(b);
            && |p.value| <= MAX_TX_OUT_PER_MESSAGE
            && (forall to :: to in p.value ==> OutCap(to))
            && b == PutVarInt(|p.value|) + (PutMany(PutTxOut, p.value) + p.rest)
  {
    VarIntSound(b);
    TxOutSound();
    ManySound(GetTxOut, PutTxOut, OutCap, GetVarInt(b).value, GetVarInt(b).rest);
  }

  lemma StacksSound(b: seq<byte>, flagged: bool, n: nat)
    requires GetStacks(b, flagged, n).Ok?
    ensures var p := GetStacks(b, flagged, n);
            && |p.value| == n
            && (forall w :: w in p.value ==> WitnessCap(w) && (!flagged ==> w == []))
            && b == (if flagged then PutMany(PutWitness, p.value) else []) + p.rest
  {
    if flagged {
      WitnessSound();
      ManySound(GetWitness, PutWitness, WitnessCap, n, b);
    } else {
      assert b == [] + b;
    }
  }

  lemma AttachKeeps(ins: seq<TxIn>, ws: seq<seq<seq<byte>>>)
    requires |ins| == |ws|
    requires forall ti :: ti in ins ==> BareInCap(ti)
    ensures Witnesses(Attach(ins, ws)) == ws
    ensures PutMany(PutTxIn, Attach(ins, ws)) == PutMany(PutTxIn, ins)
    ensures forall ti :: ti in Attach(ins, ws) ==> InCap(ti) && ti.stack in ws
  {
    forall i | 0 <= i < |ins|
      ensures StripIns(Attach(ins, ws))[i] == ins[i]
    {
      assert ins[i] in ins;
    }
    assert StripIns(Attach(ins, ws)) == ins;
    PutStrippedIns(Attach(ins, ws));
    forall ti | ti in Attach(ins, ws)
      ensures InCap(ti) && ti.stack in ws
    {
      var i :| 0 <= i < |ins| && Attach(ins, ws)[i] == ti;
      assert ins[i] in ins && ws[i] in ws;
    }
  }

  lemma FootSound(version: int32, flagged: bool, ins: seq<TxIn>, outs: seq<TxOut>, b: seq<byte>)
    requires DecodeFoot(version, flagged, ins, outs, b).Ok?
    requires forall ti :: ti in ins ==> BareInCap(ti)
    ensures var p := DecodeFoot(version, flagged, ins, outs, b);
            && p.value.version == version && p.value.outs == outs && |p.value.ins| == |ins|
            && PutMany(PutTxIn, p.value.ins) == PutMany(PutTxIn, ins)
            && b == Stacks(p.value, flagged) + (Foot(p.value) + p.rest)
            && (forall ti :: ti in p.value.ins ==> InCap(ti) && WitnessCap(ti.stack) && (!flagged ==> ti.stack == []))
  {
    var p := GetStacks(b, flagged, |ins|);
    StacksSound(b, flagged, |ins|);
    GetU32Sound(p.rest);
    AttachKeeps(ins, p.value);
  }

  lemma BodySound(version: int32, flagged: bool, n: nat, b: seq<byte>)
    ensures match DecodeBody(version, flagged, n, b)
            case Err(_) => true
            case Ok(tx, rest) =>
              && tx.version == version && |tx.ins| == n
              && b == Body(tx, flagged, rest)
              && BaseCaps(tx) && WitnessCaps(tx)
              && (!flagged ==> !HasWitness(tx))
  {
    if DecodeBody(version, flagged, n, b).Ok? {
      TxInsSound(b, n);
      var p1 := GetTxIns(b, n);
      TxOutsSound(p1.rest);
      var p2 := GetTxOuts(p1.rest);
      FootSound(version, flagged, p1.value, p2.value, p2.rest);
    }
  }

  lemma NotFlaggedUnderBase(b: seq<byte>, enc: Encoding)
    ensures GetInCount(b, enc).Ok? && GetInCount(b, enc).value.0 ==> enc.WitnessEncoding?
  {
  }

  /** The pieces of a read put together again. */
  lemma PiecesLaidOut(tx: MsgTx, flagged: bool, rest: seq<byte>, b: seq<byte>, r1: seq<byte>, r2: seq<byte>)
    requires b == Head(tx) + r1 && r1 == Flag(flagged) + (PutVarInt(|tx.ins|) + r2) && r2 == Body(tx, flagged, rest)
    ensures b == Layout(tx, flagged) + rest
  {
    hide Head, Flag, PutVarInt, Body, Layout;
    LayoutFields(tx, flagged, rest);
  }

  lemma DecodedPieces(b: seq<byte>, enc: Encoding)
    requires Decode(b, enc).Ok?
    ensures b == Layout(Decode(b, enc).value, Flagged(b, enc)) + Decode(b, enc).rest
    ensures BaseCaps(Decode(b, enc).value) && WitnessCaps(Decode(b, enc).value)
    ensures !Flagged(b, enc) ==> !HasWitness(Decode(b, enc).value)
    ensures !Flagged(b, enc) && enc.WitnessEncoding? ==> |Decode(b, enc).value.ins| > 0
    ensures Flagged(b, enc) ==> enc.WitnessEncoding?
  {
    hide DecodeBody, Body, BaseCaps, WitnessCaps, HasWitness, Layout, GetU32, GetInCount, LE, PutVarInt, Flag;
    GetU32Sound(b);
    var p1 := GetU32(b);
    InCountSound(p1.rest, enc);
    var p2 := GetInCount(p1.rest, enc);
    BodySound(ToI32(p1.value), p2.value.0, p2.value.1, p2.rest);
    var p := Decode(b, enc);
    PiecesLaidOut(p.value, p2.value.0, p.rest, b, p1.rest, p2.rest);
    NotFlaggedUnderBase(p1.rest, enc);
  }

  /** What a successful read consumed, whichever encoding it was told to expect. */
  lemma DecodeSound(b: seq<byte>, enc: Encoding)
    ensures match Decode(b, enc)
            case Err(_) => true
            case Ok(tx, rest) =>
              && b == Layout(tx, Flagged(b, enc)) + rest
              && BaseCaps(tx) && WitnessCaps(tx)
              && (!Flagged(b, enc) ==> !HasWitness(tx))
              && (!Flagged(b, enc) && enc.WitnessEncoding? ==> |tx.ins| > 0)
              && (Flagged(b, enc) ==> enc.WitnessEncoding?)
  {
    hide Decode, Layout, Flagged, BaseCaps, WitnessCaps, HasWitness;
    if Decode(b, enc).Ok? {
      DecodedPieces(b, enc);
    }
  }

  // ---------- The theorems ----------

  lemma StripKeepsCaps(tx: MsgTx)
    requires BaseCaps(Strip(tx))
    ensures BaseCaps(tx)
  {
    forall ti | ti in tx.ins ensures InCap(ti) {
      var i :| 0 <= i < |tx.ins| && tx.ins[i] == ti;
      assert Strip(tx).ins[i] in Strip(tx).ins;
    }
  }

  /** Under the base encoding a transaction comes back without its witnesses exactly when
      it respects the reader's limits; it may have no inputs. */
  lemma BaseRoundTrip(tx: MsgTx, rest: seq<byte>)
    ensures Decode(Encode(tx, BaseEncoding) + rest, BaseEncoding) == Ok(Strip(tx), rest) <==> BaseCaps(tx)
  {
    if BaseCaps(tx) {
      PutStrippedIns(tx.ins);
      StripCaps(tx.ins);
      assert StripIns(StripIns(tx.ins)) == StripIns(tx.ins);
      assert Layout(tx, false) == Layout(Strip(tx), false);
      LayoutInverts(Strip(tx), false, BaseEncoding, rest);
    } else if Decode(Encode(tx, BaseEncoding) + rest, BaseEncoding) == Ok(Strip(tx), rest) {
      hide Encode, Decode, Layout, Flagged, HasWitness, BaseCaps, WitnessCaps, Strip;
      DecodeSound(Encode(tx, BaseEncoding) + rest, BaseEncoding);
      StripKeepsCaps(tx);
    }
  }

  /** A transaction survives the witness encoding exactly when it has an input and
      respects the reader's limits. */
  lemma WitnessRoundTrip(tx: MsgTx, rest: seq<byte>)
    ensures Decode(Encode(tx, WitnessEncoding) + rest, WitnessEncoding) == Ok(tx, rest)
       <==> |tx.ins| > 0 && BaseCaps(tx) && WitnessCaps(tx)
  {
    NoWitness(tx);
    var b := Encode(tx, WitnessEncoding) + rest;
    if |tx.ins| > 0 && BaseCaps(tx) && WitnessCaps(tx) {
      LayoutInverts(tx, HasWitness(tx), WitnessEncoding, rest);
    } else if Decode(b, WitnessEncoding) == Ok(tx, rest) {
      // A marker would have cost two more bytes than were written.
      DecodeSound(b, WitnessEncoding);
      assert false;
    }
  }

  /** Without inputs, the zero count is taken for a marker and the output count behind it
      for the flag. */
  lemma NoInputsAreMisread(version: int32, lockTime: uint32, rest: seq<byte>)
    ensures var tx := MsgTx(version, [], [], lockTime);
            Decode(Encode(tx, WitnessEncoding) + rest, WitnessEncoding) == Err(BadFlag)
  {
    var tx := MsgTx(version, [], [], lockTime);
    var t := [0] + (Foot(tx) + rest);
    assert PutVarInt(0) == [0];
    assert Core(tx) == [0] + [0];
    assert Encode(tx, WitnessEncoding) + rest == Head(tx) + ([0] + t);
    GetU32Inverts(ToU32(version), [0] + t);
    VarIntRoundTrip(0, t);
    TakeInverts([0], Foot(tx) + rest);
    hide LE, GetVarInt, Encode;
  }

  function Zeros(n: nat): seq<byte> { seq(n, _ => 0) }

  lemma {:induction false} EmptyStacks(ins: seq<TxIn>)
    requires forall i | 0 <= i < |ins| :: ins[i].stack == []
    ensures PutMany(PutWitness, Witnesses(ins)) == Zeros(|ins|)
  {
    if ins != [] {
      EmptyStacks(ins[1..]);
      assert Witnesses(ins)[1..] == Witnesses(ins[1..]);
      assert PutWitness([]) == [0];
      assert Zeros(|ins|) == [0] + Zeros(|ins| - 1);
    }
  }

  lemma PlainLayout(tx: MsgTx)
    ensures Layout(tx, false) == Head(tx) + Core(tx) + Foot(tx)
  {
    assert Flag(false) + (Core(tx) + ([] + Foot(tx))) == Core(tx) + Foot(tx);
    assert Head(tx) + (Core(tx) + Foot(tx)) == Head(tx) + Core(tx) + Foot(tx);
  }

  lemma FlaggedLayout(tx: MsgTx, rest: seq<byte>)
    ensures Layout(tx, true) + rest == Head(tx) + Flag(true) + Core(tx) + Stacks(tx, true) + Foot(tx) + rest
  {
    hide PutMany, PutVarInt, LE;
    var h, f, c, s, l := Head(tx), Flag(true), Core(tx), Stacks(tx, true), Foot(tx);
    assert h + (f + (c + (s + l))) == h + f + c + s + l;
  }

  /** Writing back gives the bytes consumed, except when the stream carried the
      flag over nothing but empty stacks: then the flag and one zero an input are
      gone. */
  lemma ReadThenWrite(b: seq<byte>)
    ensures match Decode(b, WitnessEncoding)
            case Err(_) => true
            case Ok(tx, rest) =>
              if Flagged(b, WitnessEncoding) && !HasWitness(tx) then
                && b == Head(tx) + Flag(true) + Core(tx) + Zeros(|tx.ins|) + Foot(tx) + rest
                && Encode(tx, WitnessEncoding) == Head(tx) + Core(tx) + Foot(tx)
              else
                b == Encode(tx, WitnessEncoding) + rest
  {
    hide Decode, Layout, Flagged, HasWitness, Head, Core, Stacks, Foot, BaseCaps, WitnessCaps;
    match Decode(b, WitnessEncoding)
    case Err(_) =>
    case Ok(tx, rest) =>
      DecodeSound(b, WitnessEncoding);
      if Flagged(b, WitnessEncoding) && !HasWitness(tx) {
        NoStacks(tx);
        PlainLayout(tx);
        FlaggedLayout(tx, rest);
      }
  }

  lemma NoStacks(tx: MsgTx)
    requires !HasWitness(tx)
    ensures Stacks(tx, true) == Zeros(|tx.ins|)
  {
    EmptyStacks(tx.ins);
  }
}
