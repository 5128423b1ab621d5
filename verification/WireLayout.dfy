/** The transaction format by position (BIP 144, section "Serialization", over
wire/msgtx.go): which byte of a message stands where, without a writer or a parser. Both
are shown to agree with it. */
module WireLayout {
  import opened Bytes
  import opened OutPoints
  import opened VarInts
  import opened TxGrammar
  import opened TxSizes

  // ---------- What stands at an offset ----------

  predicate BytesAt(b: seq<byte>, off: nat, s: seq<byte>)
  {
    off + |s| <= |b| && b[off..off + |s|] == s
  }

  /** The low n bytes of v, byte k being the one worth 256^k. */
  predicate IntAt(b: seq<byte>, off: nat, n: nat, v: nat)
  {
    off + n <= |b| && forall k | 0 <= k < n :: b[off + k] == v / Pow256(k) % 256
  }

  function CountWidth(v: nat): nat { if v < 0xfd then 1 else if v < 0x1_0000 then 3 else if v < 0x1_0000_0000 then 5 else 9 }

  /** A count: itself, or a tag and 2, 4 or 8 bytes. */
  predicate CountAt(b: seq<byte>, off: nat, v: nat)
  {
    && off < |b|
    && if v < 0xfd then b[off] == v
       else if v < 0x1_0000 then b[off] == 0xfd && IntAt(b, off + 1, 2, v)
       else if v < 0x1_0000_0000 then b[off] == 0xfe && IntAt(b, off + 1, 4, v)
       else b[off] == 0xff && IntAt(b, off + 1, 8, v)
  }

  function ScriptWidth(s: seq<byte>): nat { CountWidth(|s|) + |s| }

  predicate ScriptAt(b: seq<byte>, off: nat, s: seq<byte>)
  {
    CountAt(b, off, |s|) && BytesAt(b, off + CountWidth(|s|), s)
  }

  function InputWidth(ti: TxIn): nat { 40 + ScriptWidth(ti.script) }

  predicate InputAt(b: seq<byte>, off: nat, ti: TxIn)
  {
    && BytesAt(b, off, ti.prev.hash)
    && IntAt(b, off + 32, 4, ti.prev.index)
    && ScriptAt(b, off + 36, ti.script)
    && IntAt(b, off + 36 + ScriptWidth(ti.script), 4, ti.sequence)
  }

  function OutputWidth(to: TxOut): nat { 8 + ScriptWidth(to.script) }

  predicate OutputAt(b: seq<byte>, off: nat, to: TxOut)
  {
    && IntAt(b, off, 8, if to.value < 0 then to.value + 0x1_0000_0000_0000_0000 else to.value)
    && ScriptAt(b, off + 8, to.script)
  }

  /** All of xs side by side from off on. */
  predicate AllAt<T>(b: seq<byte>, off: nat, at: (seq<byte>, nat, T) -> bool, width: T -> nat, xs: seq<T>)
  {
    && off + Sum(width, xs) <= |b|
    && forall i | 0 <= i < |xs| :: at(b, off + Sum(width, xs[..i]), xs[i])
  }

  function StackWidth(ti: TxIn): nat { CountWidth(|ti.stack|) + Sum(ScriptWidth, ti.stack) }

  predicate StackAt(b: seq<byte>, off: nat, ti: TxIn)
  {
    CountAt(b, off, |ti.stack|) && AllAt(b, off + CountWidth(|ti.stack|), ScriptAt, ScriptWidth, ti.stack)
  }

  /** Version, flag, inputs, outputs, stacks and lock time of a whole transaction. */
  predicate LaidOut(b: seq<byte>, tx: MsgTx, flagged: bool)
  {
    var inCount := if flagged then 6 else 4;
    var ins := inCount + CountWidth(|tx.ins|);
    var outCount := ins + Sum(InputWidth, tx.ins);
    var outs := outCount + CountWidth(|tx.outs|);
    var stacks := outs + Sum(OutputWidth, tx.outs);
    var lockTime := stacks + if flagged then Sum(StackWidth, tx.ins) else 0;
    && |b| == lockTime + 4
    && IntAt(b, 0, 4, if tx.version < 0 then tx.version + 0x1_0000_0000 else tx.version)
    && (flagged ==> b[4] == 0 && b[5] == 1)
    && CountAt(b, inCount, |tx.ins|) && AllAt(b, ins, InputAt, InputWidth, tx.ins)
    && CountAt(b, outCount, |tx.outs|) && AllAt(b, outs, OutputAt, OutputWidth, tx.outs)
    && (flagged ==> AllAt(b, stacks, StackAt, StackWidth, tx.ins))
    && IntAt(b, lockTime, 4, tx.lockTime)
  }

  // ---------- Position by position, it is what is written ----------

  lemma DivDiv(v: nat, c: nat)
    requires c > 0
    ensures v / 256 / c == v / (256 * c)
  {
    var q := v / 256;
    var p, t := q / c, q % c;
    assert q == c * p + t;
    assert (256 * c) * p == 256 * (c * p);
    QuotientIs(v, 256 * c, p, 256 * t + v % 256);
  }

  lemma MulKeepsOrder(d: nat, x: nat, y: nat)
    ensures x <= y ==> d * x <= d * y
  {
  }

  lemma QuotientIs(v: nat, d: nat, q: nat, r: nat)
    requires v == d * q + r && r < d
    ensures v / d == q
  {
    var e := v / d;
    MulKeepsOrder(d, e + 1, q);
    MulKeepsOrder(d, q + 1, e);
  }

  /** Byte k of a little-endian integer is the one worth 256^k. */
  lemma {:induction false} LEAt(n: nat, v: nat, k: nat)
    requires k < n
    ensures LE(n, v)[k] == v / Pow256(k) % 256
    decreases n
  {
    if k > 0 {
      LEAt(n - 1, v / 256, k - 1);
      DivDiv(v, Pow256(k - 1));
    }
  }

  lemma IntIsLE(b: seq<byte>, off: nat, n: nat, v: nat)
    ensures IntAt(b, off, n, v) <==> BytesAt(b, off, LE(n, v))
  {
    forall k | 0 <= k < n ensures LE(n, v)[k] == v / Pow256(k) % 256 {
      LEAt(n, v, k);
    }
    hide LE, Pow256;
    if off + n <= |b| {
      var s := b[off..off + n];
      assert forall k | 0 <= k < n :: s[k] == b[off + k];
      if IntAt(b, off, n, v) {
        assert s == LE(n, v);
      }
    }
  }

  lemma BytesSum(b: seq<byte>, off: nat, s: seq<byte>, t: seq<byte>)
    ensures BytesAt(b, off, s + t) <==> BytesAt(b, off, s) && BytesAt(b, off + |s|, t)
  {
    if off + |s| + |t| <= |b| {
      var w := b[off..off + |s| + |t|];
      assert w[..|s|] == b[off..off + |s|] && w[|s|..] == b[off + |s|..off + |s| + |t|];
      assert w == w[..|s|] + w[|s|..];
      assert (s + t)[..|s|] == s && (s + t)[|s|..] == t;
    }
  }

  lemma OneByte(b: seq<byte>, off: nat, x: byte)
    ensures BytesAt(b, off, [x]) <==> off < |b| && b[off] == x
  {
    if off < |b| {
      assert b[off..off + 1] == [b[off]];
    }
  }

  lemma TaggedIsAt(b: seq<byte>, off: nat, tag: byte, n: nat, v: nat)
    ensures BytesAt(b, off, [tag] + LE(n, v)) <==> off < |b| && b[off] == tag && IntAt(b, off + 1, n, v)
  {
    BytesSum(b, off, [tag], LE(n, v));
    OneByte(b, off, tag);
    IntIsLE(b, off + 1, n, v);
  }

  lemma CountIsVarInt(b: seq<byte>, off: nat, v: nat)
    ensures CountAt(b, off, v) <==> BytesAt(b, off, PutVarInt(v))
    ensures CountWidth(v) == |PutVarInt(v)|
  {
    hide LE, IntAt, BytesAt;
    if v < 0xfd {
      OneByte(b, off, v);
    } else if v < 0x1_0000 {
      TaggedIsAt(b, off, 0xfd, 2, v);
    } else if v < 0x1_0000_0000 {
      TaggedIsAt(b, off, 0xfe, 4, v);
    } else {
      TaggedIsAt(b, off, 0xff, 8, v);
    }
  }

  lemma ScriptIsVarBytes(b: seq<byte>, off: nat, s: seq<byte>)
    ensures ScriptAt(b, off, s) <==> BytesAt(b, off, PutVarBytes(s))
    ensures ScriptWidth(s) == |PutVarBytes(s)|
  {
    hide PutVarInt, CountAt, BytesAt, CountWidth;
    CountIsVarInt(b, off, |s|);
    BytesSum(b, off, PutVarInt(|s|), s);
  }

  lemma InputIsTxIn(b: seq<byte>, off: nat, ti: TxIn)
    ensures InputAt(b, off, ti) <==> BytesAt(b, off, PutTxIn(ti))
    ensures InputWidth(ti) == |PutTxIn(ti)|
  {
    hide LE, PutVarBytes, IntAt, ScriptAt, BytesAt, ScriptWidth;
    var h, x, s, q := ti.prev.hash, LE(4, ti.prev.index), PutVarBytes(ti.script), LE(4, ti.sequence);
    BytesSum(b, off, h + x, s + q);
    BytesSum(b, off, h, x);
    BytesSum(b, off + 36, s, q);
    IntIsLE(b, off + 32, 4, ti.prev.index);
    ScriptIsVarBytes(b, off + 36, ti.script);
    IntIsLE(b, off + 36 + |s|, 4, ti.sequence);
  }

  lemma OutputIsTxOut(b: seq<byte>, off: nat, to: TxOut)
    ensures OutputAt(b, off, to) <==> BytesAt(b, off, PutTxOut(to))
    ensures OutputWidth(to) == |PutTxOut(to)|
  {
    hide LE, PutVarBytes, IntAt, ScriptAt, BytesAt, ScriptWidth;
    var v := LE(8, ToU64(to.value));
    BytesSum(b, off, v, PutVarBytes(to.script));
    IntIsLE(b, off, 8, ToU64(to.value));
    ScriptIsVarBytes(b, off + 8, to.script);
  }

  /** If this holds of every element, it holds of all side by side. */
  ghost predicate WrittenAs<T(!new)>(at: (seq<byte>, nat, T) -> bool, width: T -> nat, put: T -> seq<byte>)
  {
    && (forall b, off, x {:trigger at(b, off, x)} :: at(b, off, x) <==> BytesAt(b, off, put(x)))
    && (forall x {:trigger width(x)} {:trigger put(x)} :: width(x) == |put(x)|)
  }

  lemma OneThenAll<T>(
    b: seq<byte>, off: nat, at: (seq<byte>, nat, T) -> bool, width: T -> nat, xs: seq<T>)
    requires xs != []
    ensures AllAt(b, off, at, width, xs)
       <==> at(b, off, xs[0]) && AllAt(b, off + width(xs[0]), at, width, xs[1..])
  {
    assert xs[..0] == [];
    FirstWidth(width, xs);
    hide Sum;
    if AllAt(b, off, at, width, xs) {
      forall i | 0 <= i < |xs| - 1
        ensures at(b, off + width(xs[0]) + Sum(width, xs[1..][..i]), xs[1..][i])
      {
        assert at(b, off + Sum(width, xs[..i + 1]), xs[i + 1]);
      }
    }
  }

  lemma FirstWidth<T>(width: T -> nat, xs: seq<T>)
    requires xs != []
    ensures Sum(width, xs[..0]) == 0
    ensures forall i | 0 < i < |xs| :: Sum(width, xs[..i]) == width(xs[0]) + Sum(width, xs[1..][..i - 1])
  {
    forall i | 0 < i < |xs|
      ensures Sum(width, xs[..i]) == width(xs[0]) + Sum(width, xs[1..][..i - 1])
    {
      assert xs[..i][1..] == xs[1..][..i - 1];
    }
  }

  lemma {:induction false} AllIsMany<T(!new)>(
    b: seq<byte>, off: nat, at: (seq<byte>, nat, T) -> bool, width: T -> nat, put: T -> seq<byte>, xs: seq<T>)
    requires WrittenAs(at, width, put)
    ensures AllAt(b, off, at, width, xs) <==> BytesAt(b, off, PutMany(put, xs))
    ensures Sum(width, xs) == |PutMany(put, xs)|
    decreases |xs|
  {
    hide AllAt, BytesAt;
    if xs != [] {
      AllIsMany(b, off + width(xs[0]), at, width, put, xs[1..]);
      OneThenAll(b, off, at, width, xs);
      BytesSum(b, off, put(xs[0]), PutMany(put, xs[1..]));
    } else {
      NothingAt(b, off, at, width, put);
    }
  }

  lemma NothingAt<T>(b: seq<byte>, off: nat, at: (seq<byte>, nat, T) -> bool, width: T -> nat, put: T -> seq<byte>)
    ensures AllAt(b, off, at, width, []) <==> BytesAt(b, off, PutMany(put, []))
  {
  }

  function PutStack(ti: TxIn): seq<byte> { PutWitness(ti.stack) }

  lemma StackIsWitness(b: seq<byte>, off: nat, ti: TxIn)
    ensures StackAt(b, off, ti) <==> BytesAt(b, off, PutStack(ti))
    ensures StackWidth(ti) == |PutStack(ti)|
  {
    ScriptsWrittenAs();
    hide AllAt, BytesAt, CountAt, CountWidth, PutVarInt, WrittenAs;
    CountIsVarInt(b, off, |ti.stack|);
    AllIsMany(b, off + CountWidth(|ti.stack|), ScriptAt, ScriptWidth, PutVarBytes, ti.stack);
    BytesSum(b, off, PutVarInt(|ti.stack|), PutMany(PutVarBytes, ti.stack));
  }

  lemma ScriptsWrittenAs()
    ensures WrittenAs(ScriptAt, ScriptWidth, PutVarBytes)
  {
    hide ScriptAt, BytesAt, ScriptWidth, PutVarBytes;
    forall b, off, s ensures ScriptAt(b, off, s) <==> BytesAt(b, off, PutVarBytes(s)) { ScriptIsVarBytes(b, off, s); }
    forall s ensures ScriptWidth(s) == |PutVarBytes(s)| { ScriptIsVarBytes([], 0, s); }
  }

  lemma InputsWrittenAs()
    ensures WrittenAs(InputAt, InputWidth, PutTxIn)
  {
    hide InputAt, BytesAt, InputWidth, PutTxIn;
    forall b, off, ti ensures InputAt(b, off, ti) <==> BytesAt(b, off, PutTxIn(ti)) { InputIsTxIn(b, off, ti); }
    forall ti ensures InputWidth(ti) == |PutTxIn(ti)| { InputIsTxIn([], 0, ti); }
  }

  lemma OutputsWrittenAs()
    ensures WrittenAs(OutputAt, OutputWidth, PutTxOut)
  {
    hide OutputAt, BytesAt, OutputWidth, PutTxOut;
    forall b, off, to ensures OutputAt(b, off, to) <==> BytesAt(b, off, PutTxOut(to)) { OutputIsTxOut(b, off, to); }
    forall to ensures OutputWidth(to) == |PutTxOut(to)| { OutputIsTxOut([], 0, to); }
  }

  lemma StacksWrittenAs()
    ensures WrittenAs(StackAt, StackWidth, PutStack)
  {
    hide StackAt, BytesAt, StackWidth, PutStack;
    forall b, off, ti ensures StackAt(b, off, ti) <==> BytesAt(b, off, PutStack(ti)) { StackIsWitness(b, off, ti); }
    forall ti ensures StackWidth(ti) == |PutStack(ti)| { StackIsWitness([], 0, ti); }
  }

  lemma {:induction false} StacksOneByOne(ins: seq<TxIn>)
    ensures PutMany(PutStack, ins) == PutMany(PutWitness, Witnesses(ins))
  {
    if ins != [] {
      StacksOneByOne(ins[1..]);
      assert Witnesses(ins)[1..] == Witnesses(ins[1..]);
    }
  }

  /** Inputs and outputs with their counts. */
  lemma CoreAt(b: seq<byte>, off: nat, tx: MsgTx)
    ensures var ins := off + CountWidth(|tx.ins|);
            var outCount := ins + Sum(InputWidth, tx.ins);
            var outs := outCount + CountWidth(|tx.outs|);
            && (BytesAt(b, off, Core(tx)) <==>
                  && CountAt(b, off, |tx.ins|) && AllAt(b, ins, InputAt, InputWidth, tx.ins)
                  && CountAt(b, outCount, |tx.outs|) && AllAt(b, outs, OutputAt, OutputWidth, tx.outs))
            && off + |Core(tx)| == outs + Sum(OutputWidth, tx.outs)
  {
    InputsWrittenAs();
    OutputsWrittenAs();
    hide AllAt, BytesAt, CountAt, CountWidth, PutVarInt, PutMany, WrittenAs, Sum;
    var ins := off + CountWidth(|tx.ins|);
    CountIsVarInt(b, off, |tx.ins|);
    AllIsMany(b, ins, InputAt, InputWidth, PutTxIn, tx.ins);
    var outCount := ins + Sum(InputWidth, tx.ins);
    var outs := outCount + CountWidth(|tx.outs|);
    CountIsVarInt(b, outCount, |tx.outs|);
    AllIsMany(b, outs, OutputAt, OutputWidth, PutTxOut, tx.outs);
    var ni, pi, no, po := PutVarInt(|tx.ins|), PutMany(PutTxIn, tx.ins), PutVarInt(|tx.outs|), PutMany(PutTxOut, tx.outs);
    BytesSum(b, off, ni, pi + (no + po));
    BytesSum(b, ins, pi, no + po);
    BytesSum(b, outCount, no, po);
  }

  lemma FlagAt(b: seq<byte>, flagged: bool)
    requires |b| >= 6
    ensures BytesAt(b, 4, Flag(flagged)) <==> (flagged ==> b[4] == 0 && b[5] == 1)
  {
    if flagged {
      assert b[4..6] == [b[4], b[5]];
    }
  }

  lemma StacksAt(b: seq<byte>, off: nat, tx: MsgTx, flagged: bool)
    ensures off <= |b| ==>
              (BytesAt(b, off, Stacks(tx, flagged)) <==> (flagged ==> AllAt(b, off, StackAt, StackWidth, tx.ins)))
    ensures |Stacks(tx, flagged)| == if flagged then Sum(StackWidth, tx.ins) else 0
  {
    StacksWrittenAs();
    hide AllAt, WrittenAs, Sum;
    AllIsMany(b, off, StackAt, StackWidth, PutStack, tx.ins);
    StacksOneByOne(tx.ins);
  }

  lemma Whole(b: seq<byte>, s: seq<byte>)
    ensures b == s <==> |b| == |s| && BytesAt(b, 0, s)
  {
    if |b| == |s| {
      assert b[0..|b|] == b;
    }
  }

  /** The layout that is written is the one by position, and no other bytes are. */
  lemma LayoutIsPositional(b: seq<byte>, tx: MsgTx, flagged: bool)
    ensures b == Layout(tx, flagged) <==> LaidOut(b, tx, flagged)
  {
    hide AllAt, BytesAt, CountAt, IntAt, CountWidth, Sum, Core, Stacks, LE, Flag;
    var h, f, c, s, l := Head(tx), Flag(flagged), Core(tx), Stacks(tx, flagged), Foot(tx);
    FlagLength(flagged);
    Whole(b, Layout(tx, flagged));
    CoreAt(b, 4 + |f|, tx);
    StacksAt(b, 4 + |f| + |c|, tx, flagged);
    IntIsLE(b, 0, 4, ToU32(tx.version));
    IntIsLE(b, 4 + |f| + |c| + |s|, 4, tx.lockTime);
    BytesSum(b, 0, h, f + (c + (s + l)));
    BytesSum(b, 4, f, c + (s + l));
    BytesSum(b, 4 + |f|, c, s + l);
    BytesSum(b, 4 + |f| + |c|, s, l);
    if |b| == |Layout(tx, flagged)| {
      FlagAt(b, flagged);
    }
  }

  lemma FlagLength(flagged: bool)
    ensures |Flag(flagged)| == if flagged then 2 else 0
  {
  }

  // ---------- What the encoder writes and the decoder accepts ----------

  /** Any input with a witness makes the witness encoding carry marker, flag and stacks. */
  lemma EncodedByPosition(tx: MsgTx, enc: Encoding)
    ensures LaidOut(Encode(tx, enc), tx, enc == WitnessEncoding && exists i :: 0 <= i < |tx.ins| && tx.ins[i].stack != [])
  {
    hide LaidOut, Layout;
    LayoutIsPositional(Encode(tx, enc), tx, enc.WitnessEncoding? && HasWitness(tx));
  }

  /** The limits in numbers: what can fit into a message of 32 MiB at 41 bytes an input and
      9 an output, and the script sizes. */
  predicate WithinLimits(tx: MsgTx)
  {
    && |tx.ins| <= 818401 && |tx.outs| <= 3728271
    && (forall i | 0 <= i < |tx.ins| :: |tx.ins[i].script| <= 33554432)
    && (forall i | 0 <= i < |tx.outs| :: |tx.outs[i].script| <= 33554432)
  }

  predicate WitnessesWithinLimits(tx: MsgTx)
  {
    forall i | 0 <= i < |tx.ins| ::
      && |tx.ins[i].stack| <= 500000
      && forall j | 0 <= j < |tx.ins[i].stack| :: |tx.ins[i].stack[j]| <= 11000
  }

  predicate NoStack(tx: MsgTx) { forall i | 0 <= i < |tx.ins| :: tx.ins[i].stack == [] }

  lemma LimitsAreCaps(tx: MsgTx)
    ensures BaseCaps(tx) <==> WithinLimits(tx)
    ensures WitnessCaps(tx) <==> WitnessesWithinLimits(tx)
    ensures !HasWitness(tx) <==> NoStack(tx)
  {
    if BaseCaps(tx) {
      forall i | 0 <= i < |tx.ins| ensures |tx.ins[i].script| <= 33554432 { assert InCap(tx.ins[i]); }
      forall i | 0 <= i < |tx.outs| ensures |tx.outs[i].script| <= 33554432 { assert OutCap(tx.outs[i]); }
    }
    if WitnessCaps(tx) {
      forall i, j | 0 <= i < |tx.ins| && 0 <= j < |tx.ins[i].stack| ensures |tx.ins[i].stack[j]| <= 11000 {
        assert WitnessCap(tx.ins[i].stack) && ItemCap(tx.ins[i].stack[j]);
      }
    }
  }

  lemma CountIsNotZero(b: seq<byte>, off: nat, v: nat)
    requires CountAt(b, off, v)
    ensures b[off] == 0 <==> v == 0
  {
  }

  /** Where the marker would be, the reader finds it exactly if it is there. */
  lemma MarkerIsZero(b: seq<byte>, enc: Encoding)
    requires Decode(b, enc).Ok?
    ensures |Decode(b, enc).rest| <= |b| - 10
    ensures Flagged(b, enc) <==> enc.WitnessEncoding? && b[4] == 0
  {
    hide Decode, Flagged, BaseCaps, WitnessCaps, HasWitness, Layout, AllAt, IntAt, CountAt, CountWidth, Sum;
    DecodeSound(b, enc);
    var tx, flagged := Decode(b, enc).value, Flagged(b, enc);
    var s := Layout(tx, flagged);
    LayoutIsPositional(s, tx, flagged);
    WidthIsPositive(|tx.ins|);
    WidthIsPositive(|tx.outs|);
    assert b[4] == s[4];
    if !flagged {
      CountIsNotZero(s, 4, |tx.ins|);
    }
  }

  lemma WidthIsPositive(v: nat)
    ensures CountWidth(v) >= 1
  {
  }

  /** The decoder takes the first n bytes for tx exactly when they are laid out as tx, with
      the flag exactly if a zero stands behind the version under the witness encoding, and
      tx is within the limits. */
  lemma DecodesExactly(b: seq<byte>, enc: Encoding, tx: MsgTx, n: nat)
    requires n <= |b|
    ensures var flagged := enc == WitnessEncoding && n > 4 && b[4] == 0;
            (Decode(b, enc) == Ok(tx, b[n..])
             <==> && LaidOut(b[..n], tx, flagged) && WithinLimits(tx)
                  && if flagged then WitnessesWithinLimits(tx) else NoStack(tx))
  {
    hide Decode, Flagged, BaseCaps, WitnessCaps, HasWitness, Layout, LaidOut, WithinLimits, WitnessesWithinLimits, NoStack;
    LimitsAreCaps(tx);
    var flagged := enc == WitnessEncoding && n > 4 && b[4] == 0;
    assert b == b[..n] + b[n..];
    LayoutIsPositional(b[..n], tx, flagged);
    if Decode(b, enc) == Ok(tx, b[n..]) {
      DecodeSound(b, enc);
      MarkerIsZero(b, enc);
      assert b == Layout(tx, flagged) + b[n..];
      assert b[..n] == Layout(tx, flagged);
    }
    if b[..n] == Layout(tx, flagged) && BaseCaps(tx) && (if flagged then WitnessCaps(tx) else !HasWitness(tx)) {
      NoWitness(tx);
      UnflaggedHasInputs(b[..n], tx, flagged, enc);
      LayoutInverts(tx, flagged, enc, b[n..]);
    }
  }

  lemma UnflaggedHasInputs(b: seq<byte>, tx: MsgTx, flagged: bool, enc: Encoding)
    requires LaidOut(b, tx, flagged) && (flagged <==> enc == WitnessEncoding && |b| > 4 && b[4] == 0)
    ensures flagged || |tx.ins| > 0 || enc.BaseEncoding?
  {
    hide AllAt, IntAt, CountAt, CountWidth, Sum;
    if !flagged {
      WidthIsPositive(|tx.ins|);
      CountIsNotZero(b, 4, |tx.ins|);
    }
  }
}
