/** Serialized sizes and the encoder (wire/msgtx.go). The sizes are computed by
counting loops that never look at an encoding; what is proved is that they count
exactly the bytes the encoder writes, and that fitting into a message is enough to
respect all of the decoder's limits but the two on witnesses. */
module TxSizes {
  import opened Bytes
  import opened Streams
  import opened VarInts
  import opened TxGrammar

  function TxInSize(ti: TxIn): nat { 40 + VarIntSerializeSize(|ti.script|) + |ti.script| }

  function TxOutSize(to: TxOut): nat { 8 + VarIntSerializeSize(|to.script|) + |to.script| }

  function ItemSize(item: seq<byte>): nat { VarIntSerializeSize(|item|) + |item| }

  function Sum<T>(size: T -> nat, xs: seq<T>): nat
  {
    if xs == [] then 0 else size(xs[0]) + Sum(size, xs[1..])
  }

  function WitnessSize(w: seq<seq<byte>>): nat { VarIntSerializeSize(|w|) + Sum(ItemSize, w) }

  function InputWitnessSize(ti: TxIn): nat { WitnessSize(ti.stack) }

  function BaseSize(tx: MsgTx): nat
  {
    8 + VarIntSerializeSize(|tx.ins|) + VarIntSerializeSize(|tx.outs|)
    + Sum(TxInSize, tx.ins) + Sum(TxOutSize, tx.outs)
  }

  function SerializeSize(tx: MsgTx): nat
  {
    BaseSize(tx) + if HasWitness(tx) then 2 + Sum(InputWitnessSize, tx.ins) else 0
  }

  // ---------- Sums ----------

  lemma {:induction false} SumAppend<T>(size: T -> nat, xs: seq<T>, x: T)
    ensures Sum(size, xs + [x]) == Sum(size, xs) + size(x)
  {
    if xs == [] {
      assert xs + [x] == [x];
    } else {
      SumAppend(size, xs[1..], x);
      assert (xs + [x])[1..] == xs[1..] + [x];
    }
  }

  /** A sum of sizes, each the length of what put writes, is the length of it all. */
  lemma {:induction false} SumIsLength<T(!new)>(size: T -> nat, put: T -> seq<byte>, xs: seq<T>)
    requires forall x :: |put(x)| == size(x)
    ensures |PutMany(put, xs)| == Sum(size, xs)
  {
    if xs != [] {
      SumIsLength(size, put, xs[1..]);
    }
  }

  lemma {:induction false} SumBounds<T(!new)>(size: T -> nat, low: nat, xs: seq<T>)
    requires forall x :: size(x) >= low
    ensures Sum(size, xs) >= low * |xs|
    ensures forall x :: x in xs ==> size(x) <= Sum(size, xs)
  {
    if xs != [] {
      SumBounds(size, low, xs[1..]);
      assert low * |xs| == low + low * (|xs| - 1);
    }
  }

  // ---------- Sizes count bytes ----------

  lemma TxInLength(ti: TxIn)
    ensures |PutTxIn(ti)| == TxInSize(ti)
  {
    hide LE;
    VarIntSize(|ti.script|);
  }

  lemma TxOutLength(to: TxOut)
    ensures |PutTxOut(to)| == TxOutSize(to)
  {
    hide LE;
    VarIntSize(|to.script|);
  }

  lemma WitnessLength(w: seq<seq<byte>>)
    ensures |PutWitness(w)| == WitnessSize(w)
  {
    forall item
      ensures |PutVarBytes(item)| == ItemSize(item)
    {
      VarIntSize(|item|);
    }
    VarIntSize(|w|);
    SumIsLength(ItemSize, PutVarBytes, w);
  }

  lemma {:induction false} StacksLength(ins: seq<TxIn>)
    ensures |PutMany(PutWitness, Witnesses(ins))| == Sum(InputWitnessSize, ins)
  {
    if ins != [] {
      StacksLength(ins[1..]);
      assert Witnesses(ins)[1..] == Witnesses(ins[1..]);
      WitnessLength(ins[0].stack);
    }
  }

  /** The size functions announce exactly the bytes that are written. */
  lemma SizeAgreement(tx: MsgTx)
    ensures |Encode(tx, BaseEncoding)| == BaseSize(tx)
    ensures |Encode(tx, WitnessEncoding)| == SerializeSize(tx)
  {
    hide LE;
    forall ti ensures |PutTxIn(ti)| == TxInSize(ti) { TxInLength(ti); }
    forall to ensures |PutTxOut(to)| == TxOutSize(to) { TxOutLength(to); }
    hide PutTxIn, TxInSize, PutTxOut, TxOutSize, InputWitnessSize, PutWitness;
    SumIsLength(TxInSize, PutTxIn, tx.ins);
    SumIsLength(TxOutSize, PutTxOut, tx.outs);
    VarIntSize(|tx.ins|);
    VarIntSize(|tx.outs|);
    StacksLength(tx.ins);
  }

  // ---------- What fits into a message ----------

  lemma SizeImpliesCaps(tx: MsgTx)
    requires BaseSize(tx) <= MAX_MESSAGE_PAYLOAD
    ensures BaseCaps(tx)
  {
    SumBounds(TxInSize, MIN_TX_IN_PAYLOAD, tx.ins);
    SumBounds(TxOutSize, MIN_TX_OUT_PAYLOAD, tx.outs);
    assert forall ti :: ti in tx.ins ==> |ti.script| <= TxInSize(ti);
    assert forall to :: to in tx.outs ==> |to.script| <= TxOutSize(to);
  }

  /** For a transaction that fits into a message and has an input, only the two
      witness limits stand between it and the round trip. */
  lemma MessageRoundTrip(tx: MsgTx, rest: seq<byte>)
    requires SerializeSize(tx) <= MAX_MESSAGE_PAYLOAD && |tx.ins| > 0
    ensures Decode(Encode(tx, WitnessEncoding) + rest, WitnessEncoding) == Ok(tx, rest) <==> WitnessCaps(tx)
  {
    SizeImpliesCaps(tx);
    WitnessRoundTrip(tx, rest);
  }

  // ---------- The counting loops ----------

  method TxWitnessSerializeSize(w: seq<seq<byte>>) returns (n: nat)
    ensures n == |PutWitness(w)|
  {
    n := VarIntSerializeSize(|w|);
    for i := 0 to |w|
      invariant n == VarIntSerializeSize(|w|) + Sum(ItemSize, w[..i])
    {
      assert w[..i + 1] == w[..i] + [w[i]];
      SumAppend(ItemSize, w[..i], w[i]);
      n := n + VarIntSerializeSize(|w[i]|);
      n := n + |w[i]|;
    }
    assert w[..|w|] == w;
    WitnessLength(w);
  }

  method BaseSizeLoop(tx: MsgTx) returns (n: nat)
    ensures n == BaseSize(tx) == |Encode(tx, BaseEncoding)|
  {
    n := 8 + VarIntSerializeSize(|tx.ins|) + VarIntSerializeSize(|tx.outs|);
    ghost var base := n;
    for i := 0 to |tx.ins|
      invariant n == base + Sum(TxInSize, tx.ins[..i])
    {
      assert tx.ins[..i + 1] == tx.ins[..i] + [tx.ins[i]];
      SumAppend(TxInSize, tx.ins[..i], tx.ins[i]);
      n := n + TxInSize(tx.ins[i]);
    }
    assert tx.ins[..|tx.ins|] == tx.ins;
    base := n;
    for i := 0 to |tx.outs|
      invariant n == base + Sum(TxOutSize, tx.outs[..i])
    {
      assert tx.outs[..i + 1] == tx.outs[..i] + [tx.outs[i]];
      SumAppend(TxOutSize, tx.outs[..i], tx.outs[i]);
      n := n + TxOutSize(tx.outs[i]);
    }
    assert tx.outs[..|tx.outs|] == tx.outs;
    SizeAgreement(tx);
  }

  method HasWitnessLoop(tx: MsgTx) returns (found: bool)
    ensures found == HasWitness(tx)
  {
    for i := 0 to |tx.ins|
      invariant forall j | 0 <= j < i :: tx.ins[j].stack == []
    {
      if |tx.ins[i].stack| != 0 {
        return true;
      }
    }
    found := false;
  }

  method SerializeSizeLoop(tx: MsgTx) returns (n: nat)
    ensures n == |Encode(tx, WitnessEncoding)|
  {
    n := BaseSizeLoop(tx);
    var hasWitness := HasWitnessLoop(tx);
    if hasWitness {
      n := n + 2;
      for i := 0 to |tx.ins|
        invariant n == BaseSize(tx) + 2 + Sum(InputWitnessSize, tx.ins[..i])
      {
        assert tx.ins[..i + 1] == tx.ins[..i] + [tx.ins[i]];
        SumAppend(InputWitnessSize, tx.ins[..i], tx.ins[i]);
        WitnessLength(tx.ins[i].stack);
        var m := TxWitnessSerializeSize(tx.ins[i].stack);
        n := n + m;
      }
      assert tx.ins[..|tx.ins|] == tx.ins;
    }
    SizeAgreement(tx);
  }

  // ---------- The encoder ----------

  method WriteVarBytes(w: Writer, s: seq<byte>)
    modifies w
    ensures w.out == old(w.out) + PutVarBytes(s)
  {
    WriteVarInt(w, |s|);
    w.Write(s);
    assert w.out == old(w.out) + PutVarBytes(s);
  }

  method WriteTxIn(w: Writer, ti: TxIn)
    modifies w
    ensures w.out == old(w.out) + PutTxIn(ti)
  {
    hide PutVarBytes, LE;
    w.Write(ti.prev.hash);
    w.Write(LE(4, ti.prev.index));
    WriteVarBytes(w, ti.script);
    w.Write(LE(4, ti.sequence));
    assert w.out == old(w.out) + PutTxIn(ti);
  }

  method WriteTxOut(w: Writer, to: TxOut)
    modifies w
    ensures w.out == old(w.out) + PutTxOut(to)
  {
    hide PutVarBytes, LE;
    w.Write(LE(8, ToU64(to.value)));
    WriteVarBytes(w, to.script);
    assert w.out == old(w.out) + PutTxOut(to);
  }

  method WriteTxWitness(w: Writer, stack: seq<seq<byte>>)
    modifies w
    ensures w.out == old(w.out) + PutWitness(stack)
  {
    hide PutVarInt, PutVarBytes;
    WriteVarInt(w, |stack|);
    ghost var before := w.out;
    for i := 0 to |stack|
      invariant w.out == before + PutMany(PutVarBytes, stack[..i])
    {
      assert stack[..i + 1] == stack[..i] + [stack[i]];
      PutManyAppend(PutVarBytes, stack[..i], stack[i]);
      WriteVarBytes(w, stack[i]);
    }
    assert stack[..|stack|] == stack;
    assert w.out == old(w.out) + PutWitness(stack);
  }

  method WriteTxIns(w: Writer, ins: seq<TxIn>)
    modifies w
    ensures w.out == old(w.out) + PutVarInt(|ins|) + PutMany(PutTxIn, ins)
  {
    hide PutVarInt, PutTxIn;
    WriteVarInt(w, |ins|);
    ghost var before := w.out;
    for i := 0 to |ins|
      invariant w.out == before + PutMany(PutTxIn, ins[..i])
    {
      assert ins[..i + 1] == ins[..i] + [ins[i]];
      PutManyAppend(PutTxIn, ins[..i], ins[i]);
      WriteTxIn(w, ins[i]);
    }
    assert ins[..|ins|] == ins;
  }

  method WriteTxOuts(w: Writer, outs: seq<TxOut>)
    modifies w
    ensures w.out == old(w.out) + PutVarInt(|outs|) + PutMany(PutTxOut, outs)
  {
    hide PutVarInt, PutTxOut;
    WriteVarInt(w, |outs|);
    ghost var before := w.out;
    for i := 0 to |outs|
      invariant w.out == before + PutMany(PutTxOut, outs[..i])
    {
      assert outs[..i + 1] == outs[..i] + [outs[i]];
      PutManyAppend(PutTxOut, outs[..i], outs[i]);
      WriteTxOut(w, outs[i]);
    }
    assert outs[..|outs|] == outs;
  }

  method WriteStacks(w: Writer, ins: seq<TxIn>)
    modifies w
    ensures w.out == old(w.out) + PutMany(PutWitness, Witnesses(ins))
  {
    hide PutWitness;
    ghost var ws := Witnesses(ins);
    for i := 0 to |ins|
      invariant w.out == old(w.out) + PutMany(PutWitness, ws[..i])
    {
      assert ws[..i + 1] == ws[..i] + [ws[i]];
      PutManyAppend(PutWitness, ws[..i], ws[i]);
      WriteTxWitness(w, ins[i].stack);
    }
    assert ws[..|ins|] == ws;
  }

  lemma LayoutParts(o: seq<byte>, tx: MsgTx, flagged: bool)
    ensures o + Head(tx) + Flag(flagged) + Core(tx) + Stacks(tx, flagged) + Foot(tx) == o + Layout(tx, flagged)
  {
    hide Head, Flag, Core, Stacks, Foot;
  }

  method BtcEncode(tx: MsgTx, w: Writer, enc: Encoding)
    modifies w
    ensures w.out == old(w.out) + Encode(tx, enc)
    ensures |w.out| == |old(w.out)| + if enc.WitnessEncoding? then SerializeSize(tx) else BaseSize(tx)
  {
    hide PutVarInt, PutMany, LE, Layout, SerializeSize, BaseSize;
    ghost var o := w.out;
    w.Write(LE(4, ToU32(tx.version)));
    var hasWitness := HasWitnessLoop(tx);
    var doWitness := enc.WitnessEncoding? && hasWitness;
    if doWitness {
      w.Write([TX_FLAG_MARKER, WITNESS_FLAG]);
    }
    ghost var front := o + Head(tx) + Flag(doWitness);
    assert w.out == front;
    WriteTxIns(w, tx.ins);
    WriteTxOuts(w, tx.outs);
    assert w.out == front + Core(tx);
    if doWitness {
      WriteStacks(w, tx.ins);
    }
    assert w.out == front + Core(tx) + Stacks(tx, doWitness);
    w.Write(LE(4, tx.lockTime));
    LayoutParts(o, tx, doWitness);
    SizeAgreement(tx);
  }
}
