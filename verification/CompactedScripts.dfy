/** What the single script buffer of a decoded transaction looks like: the scripts, in
the order in which they were gathered, lie in it side by side from end to end. */
module CompactedScripts {
  import opened Bytes
  import opened TxGrammar
  import opened ScriptPools
  import opened TxDecoder

  /** The slices of a message in the order of the gathering loops. */
  function InSlices(ins: seq<InRec>): seq<Slice>
  {
    if ins == [] then [] else [ins[0].script] + ins[0].stack + InSlices(ins[1..])
  }

  function OutSlices(outs: seq<OutRec>): seq<Slice>
  {
    if outs == [] then [] else [outs[0].script] + OutSlices(outs[1..])
  }

  /** The scripts of a transaction in the same order. */
  function InScriptList(ins: seq<TxIn>): seq<seq<byte>>
  {
    if ins == [] then [] else [ins[0].script] + ins[0].stack + InScriptList(ins[1..])
  }

  function OutScriptList(outs: seq<TxOut>): seq<seq<byte>>
  {
    if outs == [] then [] else [outs[0].script] + OutScriptList(outs[1..])
  }

  function Concat(vs: seq<seq<byte>>): seq<byte> { PutMany(Identity, vs) }

  lemma {:induction false} ConcatSum(a: seq<seq<byte>>, b: seq<seq<byte>>)
    ensures Concat(a + b) == Concat(a) + Concat(b)
  {
    assert (a + b)[..|a|] == a && (a + b)[|a|..] == b;
    PutManySplit(Identity, a + b, |a|);
  }

  lemma RunSum(ss: seq<Slice>, vs: seq<seq<byte>>, ss': seq<Slice>, vs': seq<seq<byte>>, buf: Buffer, off: nat)
    requires StackPlaced(ss, vs, buf, off) && StackPlaced(ss', vs', buf, off + |Concat(vs)|)
    ensures StackPlaced(ss + ss', vs + vs', buf, off)
  {
    forall k | 0 <= k < |ss + ss'|
      ensures (ss + ss')[k] == Window(buf, off + |Concat((vs + vs')[..k])|, (vs + vs')[k])
    {
      if k < |ss| {
        assert (vs + vs')[..k] == vs[..k];
      } else {
        assert (vs + vs')[..k] == vs + vs'[..k - |ss|];
        ConcatSum(vs, vs'[..k - |ss|]);
      }
    }
  }

  lemma RunOne(s: Slice, v: seq<byte>, buf: Buffer, off: nat)
    requires s == Window(buf, off, v)
    ensures StackPlaced([s], [v], buf, off) && Concat([v]) == v
  {
    assert [v][..0] == [] && [v][..1] == [v];
    PutManyNone(Identity);
    PutManyNext(Identity, [v], 0);
  }

  lemma InsPlacedSplit(ins: seq<InRec>, tis: seq<TxIn>, buf: Buffer, off: nat)
    requires |ins| == |tis| > 0 && InsPlaced(ins, tis, buf, off)
    ensures InPlaced(ins[0], tis[0], buf, off)
    ensures InsPlaced(ins[1..], tis[1..], buf, off + |InScripts(tis[0])|)
  {
    hide InPlaced, InScripts;
    assert tis[..0] == [];
    assert InPlaced(ins[0], tis[0], buf, off + |PutMany(InScripts, tis[..0])|);
    forall k | 0 <= k < |ins| - 1
      ensures InPlaced(ins[1..][k], tis[1..][k], buf,
                       off + |InScripts(tis[0])| + |PutMany(InScripts, tis[1..][..k])|)
    {
      assert tis[..k + 1][1..] == tis[1..][..k];
      assert InPlaced(ins[k + 1], tis[k + 1], buf, off + |PutMany(InScripts, tis[..k + 1])|);
    }
  }

  lemma InRun(rec: InRec, ti: TxIn, buf: Buffer, off: nat)
    requires InPlaced(rec, ti, buf, off)
    ensures StackPlaced([rec.script] + rec.stack, [ti.script] + ti.stack, buf, off)
    ensures Concat([ti.script] + ti.stack) == InScripts(ti)
  {
    RunOne(rec.script, ti.script, buf, off);
    hide StackPlaced;
    RunSum([rec.script], [ti.script], rec.stack, ti.stack, buf, off);
    ConcatSum([ti.script], ti.stack);
  }

  lemma {:induction false} InsRun(ins: seq<InRec>, tis: seq<TxIn>, buf: Buffer, off: nat)
    requires |ins| == |tis| && InsPlaced(ins, tis, buf, off)
    ensures StackPlaced(InSlices(ins), InScriptList(tis), buf, off)
    ensures Concat(InScriptList(tis)) == PutMany(InScripts, tis)
  {
    if ins != [] {
      hide InsPlaced, InPlaced, StackPlaced, Concat, InScripts;
      var rec, ti := ins[0], tis[0];
      InsPlacedSplit(ins, tis, buf, off);
      InRun(rec, ti, buf, off);
      InsRun(ins[1..], tis[1..], buf, off + |InScripts(ti)|);
      RunSum([rec.script] + rec.stack, [ti.script] + ti.stack, InSlices(ins[1..]), InScriptList(tis[1..]), buf, off);
      ConcatSum([ti.script] + ti.stack, InScriptList(tis[1..]));
    }
  }

  lemma {:induction false} OutsRun(outs: seq<OutRec>, tos: seq<TxOut>, buf: Buffer, off: nat)
    requires |outs| == |tos| && OutsPlaced(outs, tos, buf, off)
    ensures StackPlaced(OutSlices(outs), OutScriptList(tos), buf, off)
    ensures Concat(OutScriptList(tos)) == PutMany(OutScript, tos)
  {
    if outs != [] {
      var mid := off + |OutScript(tos[0])|;
      assert tos[..0] == [];
      assert OutPlaced(outs[0], tos[0], buf, off);
      forall k | 0 <= k < |outs| - 1
        ensures OutPlaced(outs[1..][k], tos[1..][k], buf, mid + |PutMany(OutScript, tos[1..][..k])|)
      {
        assert tos[..k + 1][1..] == tos[1..][..k];
        assert OutPlaced(outs[k + 1], tos[k + 1], buf, off + |PutMany(OutScript, tos[..k + 1])|);
      }
      OutsRun(outs[1..], tos[1..], buf, mid);
      RunOne(outs[0].script, tos[0].script, buf, off);
      RunSum([outs[0].script], [tos[0].script], OutSlices(outs[1..]), OutScriptList(tos[1..]), buf, off);
      ConcatSum([tos[0].script], OutScriptList(tos[1..]));
    }
  }

  /** A run shows what it should, in bounds, and no two of its slices overlap. */
  lemma RunShows(ss: seq<Slice>, vs: seq<seq<byte>>, buf: Buffer)
    requires StackPlaced(ss, vs, buf, 0) && buf[..] == Concat(vs)
    ensures forall k | 0 <= k < |ss| ::
              && ss[k].Slice? && ss[k].arr == buf && ss[k].off + ss[k].len <= buf.Length && ss[k].cap == ss[k].len
              && buf[ss[k].off..ss[k].off + ss[k].len] == vs[k]
    ensures forall k, l | 0 <= k < l < |ss| :: ss[k].off + ss[k].len <= ss[l].off
  {
    forall k | 0 <= k < |ss|
      ensures ss[k].off + ss[k].len <= buf.Length && buf[ss[k].off..ss[k].off + ss[k].len] == vs[k]
    {
      PutManyNext(Identity, vs, k);
      PutManySplit(Identity, vs, k + 1);
      var a, b := ss[k].off, ss[k].off + ss[k].len;
      assert buf[..b] == buf[..][..b] == Concat(vs[..k + 1]);
      assert buf[a..b] == buf[..b][a..];
    }
    forall k, l | 0 <= k < l < |ss|
      ensures ss[k].off + ss[k].len <= ss[l].off
    {
      PutManyNext(Identity, vs, k);
      PutManySplit(Identity, vs[..l], k + 1);
      assert vs[..l][..k + 1] == vs[..k + 1];
    }
  }

  /** Side by side from end to end: the first starts the buffer, each starts where the
      one before it ends, and the last ends the buffer. */
  lemma RunTiles(ss: seq<Slice>, vs: seq<seq<byte>>, buf: Buffer)
    requires StackPlaced(ss, vs, buf, 0) && buf[..] == Concat(vs)
    ensures if ss == [] then buf.Length == 0
            else ss[0].off == 0 && ss[|ss| - 1].off + ss[|ss| - 1].len == buf.Length
    ensures forall k | 0 < k < |ss| :: ss[k].off == ss[k - 1].off + ss[k - 1].len
  {
    forall k | 0 <= k < |ss|
      ensures ss[k].off + ss[k].len == |Concat(vs[..k + 1])|
    {
      PutManyNext(Identity, vs, k);
    }
    assert vs[..|vs|] == vs && vs[..0] == [];
  }

  lemma DecodedRun(ins: seq<InRec>, outs: seq<OutRec>, buf: Buffer, tx: MsgTx)
    requires Represents(ins, outs, buf, tx)
    ensures var vs := InScriptList(tx.ins) + OutScriptList(tx.outs);
            StackPlaced(InSlices(ins) + OutSlices(outs), vs, buf, 0) && buf[..] == Concat(vs)
  {
    InsRun(ins, tx.ins, buf, 0);
    var mid := |PutMany(InScripts, tx.ins)|;
    OutsRun(outs, tx.outs, buf, mid);
    var a, b := InScriptList(tx.ins), OutScriptList(tx.outs);
    RunSum(InSlices(ins), a, OutSlices(outs), b, buf, 0);
    ConcatSum(a, b);
  }

  /** A decoded message: every script keeps its bytes, the slices are in bounds, pairwise
      disjoint, and fill the buffer. */
  lemma DecodedScripts(ins: seq<InRec>, outs: seq<OutRec>, buf: Buffer, tx: MsgTx)
    requires Represents(ins, outs, buf, tx)
    ensures var ss := InSlices(ins) + OutSlices(outs);
            var vs := InScriptList(tx.ins) + OutScriptList(tx.outs);
            && |ss| == |vs|
            && (forall k | 0 <= k < |ss| ::
                  && ss[k].Slice? && ss[k].arr == buf && ss[k].off + ss[k].len <= buf.Length && ss[k].cap == ss[k].len
                  && buf[ss[k].off..ss[k].off + ss[k].len] == vs[k])
            && (forall k, l | 0 <= k < l < |ss| :: ss[k].off + ss[k].len <= ss[l].off)
            && (forall k | 0 < k < |ss| :: ss[k].off == ss[k - 1].off + ss[k - 1].len)
            && (if ss == [] then buf.Length == 0
                else ss[0].off == 0 && ss[|ss| - 1].off + ss[|ss| - 1].len == buf.Length)
  {
    hide Represents, InSlices, OutSlices, InScriptList, OutScriptList, Concat;
    DecodedRun(ins, outs, buf, tx);
    var ss, vs := InSlices(ins) + OutSlices(outs), InScriptList(tx.ins) + OutScriptList(tx.outs);
    RunShows(ss, vs, buf);
    RunTiles(ss, vs, buf);
    assert |ss| == |vs|;
    hide StackPlaced;
  }
}
