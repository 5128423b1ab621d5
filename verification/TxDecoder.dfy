/** The decoder of wire/msgtx.go on the heap: scripts are read into pooled buffers,
gathered into one allocation, and the buffers handed back on every way out. It is
shown to do what the grammar says. */
module TxDecoder {
  import opened Bytes
  import opened OutPoints
  import opened Streams
  import opened VarInts
  import opened TxGrammar
  import opened ScriptPools
  import opened TxSizes

  /** The structs the decoder fills in place. */
  datatype InRec = InRec(prev: OutPoint, script: Slice, stack: seq<Slice>, sequence: uint32)
  datatype OutRec = OutRec(value: int64, script: Slice)

  const NO_HASH: Hash := seq(HASH_SIZE, _ => 0)
  const EMPTY_IN: InRec := InRec(OutPoint(NO_HASH, 0), Nil, [], 0)
  const EMPTY_OUT: OutRec := OutRec(0, Nil)

  // ---------- Which buffers a record holds ----------

  ghost function Total<T>(f: T -> multiset<Buffer>, xs: seq<T>): multiset<Buffer>
  {
    if xs == [] then multiset{} else f(xs[0]) + Total(f, xs[1..])
  }

  ghost function InBuffers(rec: InRec): multiset<Buffer> { BufferOf(rec.script) + Total(BufferOf, rec.stack) }

  ghost function OutBuffers(rec: OutRec): multiset<Buffer> { BufferOf(rec.script) }

  lemma {:induction false} TotalMember<T>(f: T -> multiset<Buffer>, xs: seq<T>, k: nat)
    requires k < |xs|
    ensures f(xs[k]) <= Total(f, xs)
  {
    if k > 0 {
      TotalMember(f, xs[1..], k - 1);
    }
  }

  lemma {:induction false} TotalUpdate<T>(f: T -> multiset<Buffer>, xs: seq<T>, k: nat, x: T)
    requires k < |xs|
    ensures Total(f, xs[k := x]) + f(xs[k]) == Total(f, xs) + f(x)
  {
    if k > 0 {
      TotalUpdate(f, xs[1..], k - 1, x);
      assert xs[k := x][1..] == xs[1..][k - 1 := x];
      var t, u := Total(f, xs[1..]), Total(f, xs[1..][k - 1 := x]);
      assert f(xs[0]) + u + f(xs[k]) == f(xs[0]) + (u + f(xs[k]));
      assert f(xs[0]) + t + f(x) == f(xs[0]) + (t + f(x));
    } else {
      assert xs[0 := x][1..] == xs[1..];
      var t := Total(f, xs[1..]);
      assert f(x) + t + f(xs[0]) == f(xs[0]) + t + f(x);
    }
  }

  lemma {:induction false} TotalNone<T>(f: T -> multiset<Buffer>, xs: seq<T>)
    requires forall x | x in xs :: f(x) == multiset{}
    ensures Total(f, xs) == multiset{}
  {
    if xs != [] {
      TotalNone(f, xs[1..]);
    }
  }

  lemma {:induction false} SumUpdate<T>(size: T -> nat, xs: seq<T>, k: nat, x: T)
    requires k < |xs|
    ensures Sum(size, xs[k := x]) + size(xs[k]) == Sum(size, xs) + size(x)
  {
    if k > 0 {
      SumUpdate(size, xs[1..], k - 1, x);
      assert xs[k := x][1..] == xs[1..][k - 1 := x];
    } else {
      assert xs[0 := x][1..] == xs[1..];
    }
  }

  function SliceLen(s: Slice): nat { if s.Nil? then 0 else s.len }

  function InLen(rec: InRec): nat { SliceLen(rec.script) + Sum(SliceLen, rec.stack) }

  function OutLen(rec: OutRec): nat { SliceLen(rec.script) }

  lemma {:induction false} SumNone<T>(size: T -> nat, xs: seq<T>)
    requires forall x | x in xs :: size(x) == 0
    ensures Sum(size, xs) == 0
  {
    if xs != [] {
      SumNone(size, xs[1..]);
    }
  }

  predicate WholeIn(rec: InRec) { Whole(rec.script) && forall s | s in rec.stack :: Whole(s) }

  // ---------- What the buffers of a record hold ----------

  ghost predicate StackHolds(stack: seq<Slice>, items: seq<seq<byte>>)
    reads set a | a in Total(BufferOf, stack)
  {
    |stack| == |items| && forall j | 0 <= j < |stack| :: TotalMember(BufferOf, stack, j); Holds(stack[j], items[j])
  }

  ghost predicate InHolds(rec: InRec, ti: TxIn)
    reads set a | a in InBuffers(rec)
  {
    && rec.prev == ti.prev && rec.sequence == ti.sequence
    && Holds(rec.script, ti.script) && StackHolds(rec.stack, ti.stack)
  }

  ghost predicate OutHolds(rec: OutRec, to: TxOut)
    reads set a | a in OutBuffers(rec)
  {
    rec.value == to.value && Holds(rec.script, to.script)
  }

  lemma EmptyHoldsNothing()
    ensures InBuffers(EMPTY_IN) == multiset{} && InLen(EMPTY_IN) == 0
    ensures OutBuffers(EMPTY_OUT) == multiset{} && OutLen(EMPTY_OUT) == 0 && Whole(EMPTY_OUT.script)
  {
  }

  /** A record gives way to one that holds some more buffers. */
  lemma Extended<T>(f: T -> multiset<Buffer>, recs: seq<T>, i: nat, rec: T, more: multiset<Buffer>,
                    base: multiset<Buffer>)
    requires i < |recs| && f(rec) == f(recs[i]) + more
    ensures base + Total(f, recs[i := rec]) == base + Total(f, recs) + more
  {
    TotalUpdate(f, recs, i, rec);
    var t, u, before := Total(f, recs), Total(f, recs[i := rec]), f(recs[i]);
    assert u == (u + before) - before;
    assert t + more == (t + (before + more)) - before;
    assert base + t + more == base + (t + more);
  }

  lemma BareLength(rec: InRec)
    requires rec.stack == []
    ensures InLen(rec) == SliceLen(rec.script)
  {
  }

  lemma StackAdds(rec: InRec, stack: seq<Slice>)
    requires rec.stack == []
    ensures InBuffers(rec.(stack := stack)) == InBuffers(rec) + Total(BufferOf, stack)
    ensures InLen(rec.(stack := stack)) == InLen(rec) + Sum(SliceLen, stack)
  {
  }

  // ---------- Reading into buffers ----------

  method ReadTxIn(pool: ScriptPool, r: Reader) returns (res: Result<()>, rec: InRec)
    requires pool.Valid()
    modifies pool, r, Pooled(pool)
    ensures pool.Valid() && PoolGrowsFresh(pool) && NoStrangers(pool)
    ensures pool.lent == old(pool.lent) + InBuffers(rec)
    ensures rec.stack == [] && WholeIn(rec)
    ensures match GetTxIn(old(r.unread))
            case Ok(ti, rest) => res == Success(()) && r.unread == rest && InHolds(rec, ti)
            case Err(e) => res == Failure(e)
  {
    hide GetScript, GetU32, Holds, ScriptPool.Valid;
    rec := EMPTY_IN;
    var hash := r.ReadFull(HASH_SIZE);
    if hash.Failure? {
      return Failure(hash.error), rec;
    }
    var index := r.ReadU32();
    if index.Failure? {
      return Failure(index.error), rec;
    }
    rec := rec.(prev := OutPoint(hash.value, index.value));
    var script;
    res, script := ReadScript(pool, r, MAX_MESSAGE_PAYLOAD);
    rec := rec.(script := script);
    if res.Failure? {
      return;
    }
    var sequence := r.ReadU32();
    if sequence.Failure? {
      return Failure(sequence.error), rec;
    }
    rec := rec.(sequence := sequence.value);
  }

  method ReadTxOut(pool: ScriptPool, r: Reader) returns (res: Result<()>, rec: OutRec)
    requires pool.Valid()
    modifies pool, r, Pooled(pool)
    ensures pool.Valid() && PoolGrowsFresh(pool) && NoStrangers(pool)
    ensures pool.lent == old(pool.lent) + OutBuffers(rec) && Whole(rec.script)
    ensures match GetTxOut(old(r.unread))
            case Ok(to, rest) => res == Success(()) && r.unread == rest && OutHolds(rec, to)
            case Err(e) => res == Failure(e)
  {
    hide GetScript, GetU64;
    rec := EMPTY_OUT;
    var value := r.ReadU64();
    if value.Failure? {
      return Failure(value.error), rec;
    }
    rec := rec.(value := ToI64(value.value));
    var script;
    res, script := ReadScript(pool, r, MAX_MESSAGE_PAYLOAD);
    rec := rec.(script := script);
  }

  /** The inputs read so far hold their bytes; the others are untouched. */
  ghost predicate InsRead(ins: array<InRec>, done: seq<TxIn>)
    reads ins, set k, a | 0 <= k < |done| && k < ins.Length && a in InBuffers(ins[k]) :: a
  {
    && |done| <= ins.Length
    && (forall k | 0 <= k < |done| :: InHolds(ins[k], done[k]) && ins[k].stack == [])
    && (forall k | |done| <= k < ins.Length :: ins[k] == EMPTY_IN)
    && (forall k | 0 <= k < ins.Length :: WholeIn(ins[k]))
  }

  /** One turn of the input loop: the record is filled in place and the buffers of
      the earlier ones are left alone. */
  method ReadTxInAt(pool: ScriptPool, r: Reader, ins: array<InRec>, i: nat,
                    ghost done: seq<TxIn>, ghost base: multiset<Buffer>)
    returns (res: Result<()>)
    requires pool.Valid()
    requires i == |done| < ins.Length && InsRead(ins, done)
    requires pool.lent == base + Total(InBuffers, ins[..])
    modifies pool, r, ins, Pooled(pool)
    ensures pool.Valid() && PoolGrowsFresh(pool) && NoStrangers(pool)
    ensures pool.lent == base + Total(InBuffers, ins[..])
    ensures Sum(InLen, ins[..]) == Sum(InLen, old(ins[..])) + SliceLen(ins[i].script)
    ensures forall k | 0 <= k < ins.Length :: WholeIn(ins[k])
    ensures match GetTxIn(old(r.unread))
            case Ok(ti, rest) => res == Success(()) && r.unread == rest && InsRead(ins, done + [ti])
            case Err(e) => res == Failure(e)
  {
    hide GetTxIn, InHolds, InBuffers, InLen, WholeIn, Total, Sum, SliceLen;
    EmptyHoldsNothing();
    ghost var recs := ins[..];
    forall k | 0 <= k < i
      ensures InBuffers(ins[k]) <= pool.lent
    {
      TotalMember(InBuffers, recs, k);
    }
    var rec;
    res, rec := ReadTxIn(pool, r);
    ins[i] := rec;
    assert ins[..] == recs[i := rec];
    Extended(InBuffers, recs, i, rec, InBuffers(rec), base);
    SumUpdate(InLen, recs, i, rec);
    BareLength(rec);
  }

  lemma AllInsRead(ins: array<InRec>, done: seq<TxIn>)
    requires InsRead(ins, done) && |done| == ins.Length
    ensures forall k | 0 <= k < ins.Length :: InHolds(ins[k], done[k]) && ins[k].stack == [] && WholeIn(ins[k])
  {
  }

  lemma NoInsRead(ins: array<InRec>)
    requires forall k | 0 <= k < ins.Length :: ins[k] == EMPTY_IN
    ensures InsRead(ins, []) && Total(InBuffers, ins[..]) == multiset{} && Sum(InLen, ins[..]) == 0
  {
    EmptyHoldsNothing();
    TotalNone(InBuffers, ins[..]);
    SumNone(InLen, ins[..]);
  }

  method ReadTxIns(pool: ScriptPool, r: Reader, ins: array<InRec>) returns (res: Result<()>, total: nat)
    requires pool.Valid()
    requires forall k | 0 <= k < ins.Length :: ins[k] == EMPTY_IN
    modifies pool, r, ins, Pooled(pool)
    ensures pool.Valid() && PoolGrowsFresh(pool) && NoStrangers(pool)
    ensures pool.lent == old(pool.lent) + Total(InBuffers, ins[..])
    ensures forall k | 0 <= k < ins.Length :: WholeIn(ins[k])
    ensures match Many(GetTxIn, ins.Length, old(r.unread))
            case Ok(xs, rest) =>
              && res == Success(()) && r.unread == rest && |xs| == ins.Length
              && InsRead(ins, xs)
              && total == Sum(InLen, ins[..])
            case Err(e) => res == Failure(e)
  {
    hide GetTxIn, InHolds, InBuffers, WholeIn, InsRead, Total, Sum, InLen, SliceLen, ScriptPool.Valid;
    ghost var b, done := r.unread, [];
    PrependNone(Many(GetTxIn, ins.Length, b));
    NoInsRead(ins);
    var i := 0;
    total := 0;
    while i < ins.Length
      invariant 0 <= i <= ins.Length && |done| == i
      invariant pool.Valid() && PoolGrowsFresh(pool) && NoStrangers(pool)
      invariant pool.lent == old(pool.lent) + Total(InBuffers, ins[..])
      invariant Many(GetTxIn, ins.Length, b) == Prepend(done, Many(GetTxIn, ins.Length - i, r.unread))
      invariant InsRead(ins, done)
      invariant total == Sum(InLen, ins[..])
    {
      ManyStep(GetTxIn, ins.Length - i, r.unread, done);
      ghost var p := GetTxIn(r.unread);
      res := ReadTxInAt(pool, r, ins, i, done, old(pool.lent));
      if res.Failure? {
        return;
      }
      done := done + [p.value];
      total := total + SliceLen(ins[i].script);
      i := i + 1;
    }
    assert done + [] == done;
    AllInsRead(ins, done);
    res := Success(());
  }

  /** The same for outputs. */
  ghost predicate OutsRead(outs: array<OutRec>, done: seq<TxOut>)
    reads outs, set k, a | 0 <= k < |done| && k < outs.Length && a in OutBuffers(outs[k]) :: a
  {
    && |done| <= outs.Length
    && (forall k | 0 <= k < |done| :: OutHolds(outs[k], done[k]))
    && (forall k | |done| <= k < outs.Length :: outs[k] == EMPTY_OUT)
    && (forall k | 0 <= k < outs.Length :: Whole(outs[k].script))
  }

  method ReadTxOutAt(pool: ScriptPool, r: Reader, outs: array<OutRec>, i: nat,
                     ghost done: seq<TxOut>, ghost base: multiset<Buffer>)
    returns (res: Result<()>)
    requires pool.Valid()
    requires i == |done| < outs.Length && OutsRead(outs, done)
    requires pool.lent == base + Total(OutBuffers, outs[..])
    modifies pool, r, outs, Pooled(pool)
    ensures pool.Valid() && PoolGrowsFresh(pool) && NoStrangers(pool)
    ensures pool.lent == base + Total(OutBuffers, outs[..])
    ensures Sum(OutLen, outs[..]) == Sum(OutLen, old(outs[..])) + SliceLen(outs[i].script)
    ensures forall k | 0 <= k < outs.Length :: Whole(outs[k].script)
    ensures match GetTxOut(old(r.unread))
            case Ok(to, rest) => res == Success(()) && r.unread == rest && OutsRead(outs, done + [to])
            case Err(e) => res == Failure(e)
  {
    hide GetTxOut, OutHolds, OutBuffers, Whole, Total, Sum;
    EmptyHoldsNothing();
    ghost var recs := outs[..];
    forall k | 0 <= k < i
      ensures OutBuffers(outs[k]) <= pool.lent
    {
      TotalMember(OutBuffers, recs, k);
    }
    var rec;
    res, rec := ReadTxOut(pool, r);
    outs[i] := rec;
    assert outs[..] == recs[i := rec];
    Extended(OutBuffers, recs, i, rec, OutBuffers(rec), base);
    SumUpdate(OutLen, recs, i, rec);
  }

  lemma AllOutsRead(outs: array<OutRec>, done: seq<TxOut>)
    requires OutsRead(outs, done) && |done| == outs.Length
    ensures forall k | 0 <= k < outs.Length :: OutHolds(outs[k], done[k]) && Whole(outs[k].script)
  {
  }

  lemma NoOutsRead(outs: array<OutRec>)
    requires forall k | 0 <= k < outs.Length :: outs[k] == EMPTY_OUT
    ensures OutsRead(outs, []) && Total(OutBuffers, outs[..]) == multiset{} && Sum(OutLen, outs[..]) == 0
  {
    EmptyHoldsNothing();
    TotalNone(OutBuffers, outs[..]);
    SumNone(OutLen, outs[..]);
  }

  method ReadTxOuts(pool: ScriptPool, r: Reader, outs: array<OutRec>) returns (res: Result<()>, total: nat)
    requires pool.Valid()
    requires forall k | 0 <= k < outs.Length :: outs[k] == EMPTY_OUT
    modifies pool, r, outs, Pooled(pool)
    ensures pool.Valid() && PoolGrowsFresh(pool) && NoStrangers(pool)
    ensures pool.lent == old(pool.lent) + Total(OutBuffers, outs[..])
    ensures forall k | 0 <= k < outs.Length :: Whole(outs[k].script)
    ensures match Many(GetTxOut, outs.Length, old(r.unread))
            case Ok(xs, rest) =>
              && res == Success(()) && r.unread == rest && |xs| == outs.Length
              && OutsRead(outs, xs)
              && total == Sum(OutLen, outs[..])
            case Err(e) => res == Failure(e)
  {
    hide GetTxOut, OutHolds, OutBuffers, OutLen, SliceLen, Whole, OutsRead, Total, Sum, ScriptPool.Valid;
    ghost var b, done := r.unread, [];
    PrependNone(Many(GetTxOut, outs.Length, b));
    NoOutsRead(outs);
    var i := 0;
    total := 0;
    while i < outs.Length
      invariant 0 <= i <= outs.Length && |done| == i
      invariant pool.Valid() && PoolGrowsFresh(pool) && NoStrangers(pool)
      invariant pool.lent == old(pool.lent) + Total(OutBuffers, outs[..])
      invariant Many(GetTxOut, outs.Length, b) == Prepend(done, Many(GetTxOut, outs.Length - i, r.unread))
      invariant OutsRead(outs, done)
      invariant total == Sum(OutLen, outs[..])
    {
      ManyStep(GetTxOut, outs.Length - i, r.unread, done);
      ghost var p := GetTxOut(r.unread);
      res := ReadTxOutAt(pool, r, outs, i, done, old(pool.lent));
      if res.Failure? {
        return;
      }
      done := done + [p.value];
      total := total + SliceLen(outs[i].script);
      i := i + 1;
    }
    assert done + [] == done;
    AllOutsRead(outs, done);
    res := Success(());
  }

  method ReadItems(pool: ScriptPool, r: Reader, n: nat) returns (res: Result<()>, stack: seq<Slice>, total: nat)
    requires pool.Valid()
    modifies pool, r, Pooled(pool)
    ensures pool.Valid() && PoolGrowsFresh(pool) && NoStrangers(pool)
    ensures pool.lent == old(pool.lent) + Total(BufferOf, stack)
    ensures forall s | s in stack :: Whole(s)
    ensures match Many(GetWitnessItem, n, old(r.unread))
            case Ok(w, rest) =>
              res == Success(()) && r.unread == rest && StackHolds(stack, w) && total == Sum(SliceLen, stack)
            case Err(e) => res == Failure(e)
  {
    hide GetWitnessItem, Holds, Total, Sum, SliceLen, BufferOf, ScriptPool.Valid;
    ghost var b, done := r.unread, [];
    PrependNone(Many(GetWitnessItem, n, b));
    NilHoldsNothing();
    stack, total := seq(n, _ => Nil), 0;
    TotalNone(BufferOf, stack);
    SumNone(SliceLen, stack);
    var j := 0;
    while j < n
      invariant 0 <= j <= n == |stack| && |done| == j
      invariant pool.Valid() && PoolGrowsFresh(pool) && NoStrangers(pool)
      invariant pool.lent == old(pool.lent) + Total(BufferOf, stack)
      invariant Many(GetWitnessItem, n, b) == Prepend(done, Many(GetWitnessItem, n - j, r.unread))
      invariant forall k | 0 <= k < j :: Holds(stack[k], done[k])
      invariant forall k | j <= k < n :: stack[k] == Nil
      invariant forall k | 0 <= k < n :: Whole(stack[k])
      invariant total == Sum(SliceLen, stack)
    {
      ManyStep(GetWitnessItem, n - j, r.unread, done);
      ghost var p := GetWitnessItem(r.unread);
      var item;
      res, item := ReadItem(pool, r, stack, j, done);
      Extended(BufferOf, stack, j, item, BufferOf(item), old(pool.lent));
      SumUpdate(SliceLen, stack, j, item);
      stack := stack[j := item];
      if res.Failure? {
        return;
      }
      done := done + [p.value];
      total := total + SliceLen(item);
      j := j + 1;
    }
    res := Success(());
  }

  lemma NilHoldsNothing()
    ensures BufferOf(Nil) == multiset{} && SliceLen(Nil) == 0
  {
  }

  /** One item of a witness stack; the items before it keep their bytes. */
  method ReadItem(pool: ScriptPool, r: Reader, ghost stack: seq<Slice>, ghost j: nat, ghost done: seq<seq<byte>>)
    returns (res: Result<()>, item: Slice)
    requires pool.Valid() && Total(BufferOf, stack) <= pool.lent
    requires j < |stack| && |done| == j && forall k | 0 <= k < j :: Holds(stack[k], done[k])
    modifies pool, r, Pooled(pool)
    ensures pool.Valid() && PoolGrowsFresh(pool) && NoStrangers(pool)
    ensures pool.lent == old(pool.lent) + BufferOf(item) && Whole(item)
    ensures forall k | 0 <= k < j :: Holds(stack[k], done[k])
    ensures match GetWitnessItem(old(r.unread))
            case Ok(v, rest) => res == Success(()) && r.unread == rest && Holds(item, v)
            case Err(e) => res == Failure(e)
  {
    hide GetScript, Total;
    StackApart(pool, stack);
    res, item := ReadScript(pool, r, MAX_WITNESS_ITEM_SIZE);
  }

  /** One witness stack. */
  method ReadWitness(pool: ScriptPool, r: Reader) returns (res: Result<()>, stack: seq<Slice>, total: nat)
    requires pool.Valid()
    modifies pool, r, Pooled(pool)
    ensures pool.Valid() && PoolGrowsFresh(pool) && NoStrangers(pool)
    ensures pool.lent == old(pool.lent) + Total(BufferOf, stack)
    ensures forall s | s in stack :: Whole(s)
    ensures match GetWitness(old(r.unread))
            case Ok(w, rest) =>
              res == Success(()) && r.unread == rest && StackHolds(stack, w) && total == Sum(SliceLen, stack)
            case Err(e) => res == Failure(e)
  {
    hide GetVarInt, Many, StackHolds;
    stack, total := [], 0;
    var count := ReadVarInt(r);
    if count.Failure? {
      return Failure(count.error), stack, total;
    }
    if count.value > MAX_WITNESS_ITEMS_PER_INPUT {
      return Failure(TooManyWitnessItems), stack, total;
    }
    res, stack, total := ReadItems(pool, r, count.value);
  }

  /** Lent buffers are not in the pool. */
  lemma StackApart(pool: ScriptPool, stack: seq<Slice>)
    requires pool.Valid() && Total(BufferOf, stack) <= pool.lent
    ensures forall k | 0 <= k < |stack| && stack[k].Slice? :: stack[k].arr !in Pooled(pool)
  {
    forall k | 0 <= k < |stack| && stack[k].Slice?
      ensures stack[k].arr !in Pooled(pool)
    {
      TotalMember(BufferOf, stack, k);
      assert stack[k].arr in BufferOf(stack[k]);
    }
  }

  /** An input once the stacks read so far have been attached. */
  function SoFar(bare: seq<TxIn>, done: seq<seq<seq<byte>>>, k: nat): TxIn
    requires k < |bare|
  {
    if k < |done| then bare[k].(stack := done[k]) else bare[k]
  }

  /** Every input holds its bytes, with its stack if that has been read. */
  ghost predicate StacksRead(ins: array<InRec>, bare: seq<TxIn>, done: seq<seq<seq<byte>>>)
    reads ins, set k, a | 0 <= k < ins.Length && a in InBuffers(ins[k]) :: a
  {
    && |done| <= ins.Length == |bare|
    && (forall k | 0 <= k < ins.Length :: InHolds(ins[k], SoFar(bare, done, k)))
    && (forall k | |done| <= k < ins.Length :: ins[k].stack == [])
    && (forall k | 0 <= k < ins.Length :: WholeIn(ins[k]))
  }

  method ReadStackAt(pool: ScriptPool, r: Reader, ins: array<InRec>, i: nat,
                     ghost bare: seq<TxIn>, ghost done: seq<seq<seq<byte>>>, ghost base: multiset<Buffer>)
    returns (res: Result<()>, total: nat)
    requires pool.Valid()
    requires i == |done| < ins.Length && StacksRead(ins, bare, done)
    requires pool.lent == base + Total(InBuffers, ins[..])
    modifies pool, r, ins, Pooled(pool)
    ensures pool.Valid() && PoolGrowsFresh(pool) && NoStrangers(pool)
    ensures pool.lent == base + Total(InBuffers, ins[..])
    ensures forall k | 0 <= k < ins.Length :: WholeIn(ins[k])
    ensures match GetWitness(old(r.unread))
            case Ok(w, rest) =>
              && res == Success(()) && r.unread == rest && StacksRead(ins, bare, done + [w])
              && Sum(InLen, ins[..]) == Sum(InLen, old(ins[..])) + total
            case Err(e) => res == Failure(e)
  {
    hide GetWitness, Total, Sum, InBuffers, InLen, InHolds, StackHolds, WholeIn, Whole;
    ghost var recs := ins[..];
    forall k | 0 <= k < ins.Length
      ensures InBuffers(ins[k]) <= pool.lent
    {
      TotalMember(InBuffers, recs, k);
    }
    var stack;
    res, stack, total := ReadWitness(pool, r);
    var rec := ins[i].(stack := stack);
    StackAdds(recs[i], stack);
    StackIsWhole(recs[i], stack);
    if res.Success? {
      StackJoins(recs[i], bare[i], stack, GetWitness(old(r.unread)).value);
    }
    ins[i] := rec;
    assert ins[..] == recs[i := rec];
    Extended(InBuffers, recs, i, rec, Total(BufferOf, stack), base);
    SumUpdate(InLen, recs, i, rec);
  }

  lemma StackIsWhole(rec: InRec, stack: seq<Slice>)
    requires WholeIn(rec) && forall s | s in stack :: Whole(s)
    ensures WholeIn(rec.(stack := stack))
  {
  }

  lemma StackJoins(rec: InRec, ti: TxIn, stack: seq<Slice>, w: seq<seq<byte>>)
    requires InHolds(rec, ti) && StackHolds(stack, w)
    ensures InHolds(rec.(stack := stack), ti.(stack := w))
  {
  }

  lemma AllStacksRead(ins: array<InRec>, bare: seq<TxIn>, done: seq<seq<seq<byte>>>)
    requires StacksRead(ins, bare, done) && |done| == ins.Length
    ensures forall k | 0 <= k < ins.Length :: InHolds(ins[k], Attach(bare, done)[k]) && WholeIn(ins[k])
  {
  }

  lemma NoStacksRead(ins: array<InRec>, bare: seq<TxIn>)
    requires |bare| == ins.Length
    requires forall k | 0 <= k < ins.Length :: InHolds(ins[k], bare[k]) && ins[k].stack == [] && WholeIn(ins[k])
    ensures StacksRead(ins, bare, [])
  {
  }

  method ReadStacks(pool: ScriptPool, r: Reader, ins: array<InRec>,
                    ghost bare: seq<TxIn>, ghost base: multiset<Buffer>)
    returns (res: Result<()>, total: nat)
    requires pool.Valid()
    requires |bare| == ins.Length
    requires pool.lent == base + Total(InBuffers, ins[..])
    requires forall k | 0 <= k < ins.Length :: InHolds(ins[k], bare[k]) && ins[k].stack == [] && WholeIn(ins[k])
    modifies pool, r, ins, Pooled(pool)
    ensures pool.Valid() && PoolGrowsFresh(pool) && NoStrangers(pool)
    ensures pool.lent == base + Total(InBuffers, ins[..])
    ensures forall k | 0 <= k < ins.Length :: WholeIn(ins[k])
    ensures match Many(GetWitness, ins.Length, old(r.unread))
            case Ok(ws, rest) =>
              && res == Success(()) && r.unread == rest && |ws| == ins.Length
              && (forall k | 0 <= k < ins.Length :: InHolds(ins[k], Attach(bare, ws)[k]))
              && Sum(InLen, ins[..]) == Sum(InLen, old(ins[..])) + total
            case Err(e) => res == Failure(e)
  {
    hide GetWitness, InHolds, InBuffers, InLen, StacksRead, Total, Sum, WholeIn, ScriptPool.Valid;
    ghost var b, done := r.unread, [];
    PrependNone(Many(GetWitness, ins.Length, b));
    NoStacksRead(ins, bare);
    var i := 0;
    total := 0;
    while i < ins.Length
      invariant 0 <= i <= ins.Length && |done| == i
      invariant pool.Valid() && PoolGrowsFresh(pool) && NoStrangers(pool)
      invariant pool.lent == base + Total(InBuffers, ins[..])
      invariant Many(GetWitness, ins.Length, b) == Prepend(done, Many(GetWitness, ins.Length - i, r.unread))
      invariant StacksRead(ins, bare, done)
      invariant Sum(InLen, ins[..]) == Sum(InLen, old(ins[..])) + total
    {
      ManyStep(GetWitness, ins.Length - i, r.unread, done);
      ghost var p := GetWitness(r.unread);
      var m;
      res, m := ReadStackAt(pool, r, ins, i, bare, done, base);
      if res.Failure? {
        return;
      }
      done := done + [p.value];
      total := total + m;
      i := i + 1;
    }
    AllStacksRead(ins, bare, done);
    res := Success(());
  }

  // ---------- Handing buffers back ----------

  method ReturnAll(pool: ScriptPool, ss: seq<Slice>, ghost base: multiset<Buffer>)
    requires pool.Valid() && pool.lent == base + Total(BufferOf, ss)
    requires forall s | s in ss :: Whole(s)
    modifies pool
    ensures pool.Valid() && pool.lent == base && NoStrangers(pool)
  {
    hide Total;
    var i := 0;
    assert ss[0..] == ss;
    while i < |ss|
      invariant 0 <= i <= |ss|
      invariant pool.Valid() && pool.lent == base + Total(BufferOf, ss[i..]) && NoStrangers(pool)
    {
      TotalHead(BufferOf, ss[i..]);
      assert ss[i..][1..] == ss[i + 1..];
      assert base + (BufferOf(ss[i]) + Total(BufferOf, ss[i + 1..]))
          == base + Total(BufferOf, ss[i + 1..]) + BufferOf(ss[i]);
      assert ss[i] in ss;
      if ss[i].Slice? {
        pool.Return(ss[i]);
      }
      i := i + 1;
    }
    assert ss[i..] == [];
    TotalEmpty(BufferOf);
  }

  lemma TotalHead<T>(f: T -> multiset<Buffer>, xs: seq<T>)
    requires xs != []
    ensures Total(f, xs) == f(xs[0]) + Total(f, xs[1..])
  {
  }

  lemma TotalEmpty<T>(f: T -> multiset<Buffer>)
    ensures Total(f, []) == multiset{}
  {
  }

  /** The cleanup closure: every buffer that a record holds goes back. */
  method ReturnScriptBuffers(pool: ScriptPool, ins: array<InRec>, outs: array<OutRec>, ghost base: multiset<Buffer>)
    requires pool.Valid() && pool.lent == base + Total(InBuffers, ins[..]) + Total(OutBuffers, outs[..])
    requires forall k | 0 <= k < ins.Length :: WholeIn(ins[k])
    requires forall k | 0 <= k < outs.Length :: Whole(outs[k].script)
    modifies pool
    ensures pool.Valid() && pool.lent == base && NoStrangers(pool)
  {
    hide Total, BufferOf, ScriptPool.Valid;
    ghost var xs, ys := ins[..], outs[..];
    var i := 0;
    assert xs[0..] == xs && ys[0..] == ys;
    while i < ins.Length
      invariant 0 <= i <= ins.Length
      invariant pool.Valid() && NoStrangers(pool)
      invariant pool.lent == base + Total(InBuffers, xs[i..]) + Total(OutBuffers, ys)
    {
      TotalHead(InBuffers, xs[i..]);
      assert xs[i..][1..] == xs[i + 1..];
      ghost var rest := base + Total(InBuffers, xs[i + 1..]) + Total(OutBuffers, ys);
      TotalPair(ins[i].script, ins[i].stack);
      assert pool.lent == rest + Total(BufferOf, [ins[i].script] + ins[i].stack);
      ReturnAll(pool, [ins[i].script] + ins[i].stack, rest);
      i := i + 1;
    }
    assert xs[i..] == [];
    TotalEmpty(InBuffers);
    assert base + multiset{} + Total(OutBuffers, ys) == base + Total(OutBuffers, ys);
    i := 0;
    while i < outs.Length
      invariant 0 <= i <= outs.Length
      invariant pool.Valid() && NoStrangers(pool)
      invariant pool.lent == base + Total(OutBuffers, ys[i..])
    {
      TotalHead(OutBuffers, ys[i..]);
      assert ys[i..][1..] == ys[i + 1..];
      ghost var rest := base + Total(OutBuffers, ys[i + 1..]);
      TotalPair(outs[i].script, []);
      TotalEmpty(BufferOf);
      assert pool.lent == rest + Total(BufferOf, [outs[i].script] + []);
      ReturnAll(pool, [outs[i].script] + [], rest);
      i := i + 1;
    }
    assert ys[i..] == [];
    TotalEmpty(OutBuffers);
  }

  lemma TotalPair(s: Slice, stack: seq<Slice>)
    ensures Total(BufferOf, [s] + stack) == BufferOf(s) + Total(BufferOf, stack)
  {
    assert ([s] + stack)[1..] == stack;
  }

  // ---------- Gathering the scripts ----------

  function Identity(item: seq<byte>): seq<byte> { item }

  function InScripts(ti: TxIn): seq<byte> { ti.script + PutMany(Identity, ti.stack) }

  function OutScript(to: TxOut): seq<byte> { to.script }

  /** All scripts of a transaction in the order in which they are gathered. */
  function Scripts(tx: MsgTx): seq<byte> { PutMany(InScripts, tx.ins) + PutMany(OutScript, tx.outs) }

  /** The window on buf that starts at off and shows v; nothing can be appended to it. */
  function Window(buf: Buffer, off: nat, v: seq<byte>): Slice { Slice(buf, off, |v|, |v|) }

  predicate StackPlaced(stack: seq<Slice>, items: seq<seq<byte>>, buf: Buffer, off: nat)
  {
    && |stack| == |items|
    && forall j | 0 <= j < |stack| :: stack[j] == Window(buf, off + |PutMany(Identity, items[..j])|, items[j])
  }

  predicate InPlaced(rec: InRec, ti: TxIn, buf: Buffer, off: nat)
  {
    && rec.prev == ti.prev && rec.sequence == ti.sequence
    && rec.script == Window(buf, off, ti.script)
    && StackPlaced(rec.stack, ti.stack, buf, off + |ti.script|)
  }

  predicate OutPlaced(rec: OutRec, to: TxOut, buf: Buffer, off: nat)
  {
    rec.value == to.value && rec.script == Window(buf, off, to.script)
  }

  predicate InsPlaced(ins: seq<InRec>, tis: seq<TxIn>, buf: Buffer, off: nat)
    requires |ins| <= |tis|
  {
    forall k | 0 <= k < |ins| :: InPlaced(ins[k], tis[k], buf, off + |PutMany(InScripts, tis[..k])|)
  }

  predicate OutsPlaced(outs: seq<OutRec>, tos: seq<TxOut>, buf: Buffer, off: nat)
    requires |outs| <= |tos|
  {
    forall k | 0 <= k < |outs| :: OutPlaced(outs[k], tos[k], buf, off + |PutMany(OutScript, tos[..k])|)
  }

  /** The front of buf shows w. */
  ghost predicate Shows(buf: Buffer, w: seq<byte>)
    reads buf
  {
    |w| <= buf.Length && buf[..|w|] == w
  }

  method Copy(buf: Buffer, off: nat, s: Slice, ghost v: seq<byte>, ghost w: seq<byte>)
    requires Holds(s, v) && buf != s.arr && off == |w| && off + |v| <= buf.Length && Shows(buf, w)
    modifies buf
    ensures Shows(buf, w + v)
  {
    var i := 0;
    while i < s.len
      invariant 0 <= i <= s.len
      invariant buf[..off] == w
      invariant buf[off..off + i] == v[..i]
    {
      buf[off + i] := s.arr[i];
      assert s.arr[i] == s.arr[..s.len][i];
      i := i + 1;
    }
    assert buf[..off + |v|] == buf[..off] + buf[off..off + |v|];
  }

  /** Copies a borrowed script behind what is already in buf and hands its buffer back. */
  method Gather(pool: ScriptPool, s: Slice, buf: Buffer, off: nat,
                ghost v: seq<byte>, ghost w: seq<byte>, ghost base: multiset<Buffer>)
    returns (t: Slice, end: nat)
    requires pool.Valid() && Holds(s, v) && pool.lent == base + BufferOf(s)
    requires buf !in Known(pool) && off == |w| && off + |v| <= buf.Length && Shows(buf, w)
    modifies pool, buf
    ensures pool.Valid() && pool.lent == base && Known(pool) <= old(Known(pool))
    ensures t == Window(buf, off, v) && end == off + |v| && Shows(buf, w + v)
  {
    assert s.arr in pool.lent;
    Copy(buf, off, s, v, w);
    end := off + s.len;
    t := Slice(buf, off, s.len, s.len);
    pool.Return(s);
    assert base + multiset{s.arr} - multiset{s.arr} == base;
  }

  /** A buffer that is not lent is none of those that the records hold. */
  lemma LentIsNot<T>(pool: ScriptPool, f: T -> multiset<Buffer>, recs: seq<T>, buf: Buffer)
    requires Total(f, recs) <= pool.lent && buf !in Known(pool)
    ensures forall k | 0 <= k < |recs| :: buf !in f(recs[k])
  {
    forall k | 0 <= k < |recs|
      ensures buf !in f(recs[k])
    {
      TotalMember(f, recs, k);
    }
  }

  /** The buffers of the records from i on. */
  ghost function TotalFrom<T>(f: T -> multiset<Buffer>, recs: seq<T>, i: nat): multiset<Buffer>
    requires i <= |recs|
  {
    Total(f, recs[i..])
  }

  /** What the buffer shows before piece k: w and the pieces before k. */
  ghost function Front<T>(put: T -> seq<byte>, xs: seq<T>, k: nat, w: seq<byte>): seq<byte>
    requires k <= |xs|
  {
    w + PutMany(put, xs[..k])
  }

  lemma FrontEnds<T>(put: T -> seq<byte>, xs: seq<T>, w: seq<byte>)
    ensures Front(put, xs, 0, w) == w && Front(put, xs, |xs|, w) == w + PutMany(put, xs)
    ensures forall k | 0 <= k <= |xs| :: |Front(put, xs, k, w)| == |w| + |PutMany(put, xs[..k])|
  {
    assert xs[..0] == [] && xs[..|xs|] == xs;
  }

  /** One piece more, and one record's buffers fewer. */
  lemma GatherStep<T, U>(f: T -> multiset<Buffer>, recs: seq<T>, put: U -> seq<byte>, xs: seq<U>, i: nat,
                         base: multiset<Buffer>, w: seq<byte>)
    requires i < |recs| == |xs|
    ensures base + TotalFrom(f, recs, i) == base + TotalFrom(f, recs, i + 1) + f(recs[i])
    ensures Front(put, xs, i, w) + put(xs[i]) == Front(put, xs, i + 1, w)
    ensures |Front(put, xs, i + 1, w)| <= |w| + |PutMany(put, xs)|
  {
    TotalHead(f, recs[i..]);
    assert recs[i..][1..] == recs[i + 1..];
    PutManyNext(put, xs, i);
    assert w + PutMany(put, xs[..i]) + put(xs[i]) == w + (PutMany(put, xs[..i]) + put(xs[i]));
  }

  lemma TotalEnds<T>(f: T -> multiset<Buffer>, recs: seq<T>, base: multiset<Buffer>)
    ensures base + Total(f, recs) == base + TotalFrom(f, recs, 0)
    ensures base + TotalFrom(f, recs, |recs|) == base
  {
    assert recs[0..] == recs && recs[|recs|..] == [];
  }

  /** The first j items are where they belong. */
  ghost predicate PlacedUpTo(placed: seq<Slice>, items: seq<seq<byte>>, buf: Buffer, w: seq<byte>, j: nat)
  {
    && j <= |placed| == |items|
    && forall k | 0 <= k < j :: placed[k] == Window(buf, |Front(Identity, items, k, w)|, items[k])
  }

  lemma PlacedStart(placed: seq<Slice>, items: seq<seq<byte>>, buf: Buffer, w: seq<byte>)
    requires |placed| == |items|
    ensures PlacedUpTo(placed, items, buf, w, 0)
  {
  }

  lemma PlacedStep(placed: seq<Slice>, items: seq<seq<byte>>, buf: Buffer, w: seq<byte>, j: nat, t: Slice)
    requires PlacedUpTo(placed, items, buf, w, j) && j < |items|
    requires t == Window(buf, |Front(Identity, items, j, w)|, items[j])
    ensures PlacedUpTo(placed[j := t], items, buf, w, j + 1)
  {
  }

  lemma PlacedEnd(placed: seq<Slice>, items: seq<seq<byte>>, buf: Buffer, w: seq<byte>)
    requires PlacedUpTo(placed, items, buf, w, |items|)
    ensures StackPlaced(placed, items, buf, |w|)
  {
    FrontEnds(Identity, items, w);
  }

  lemma StackIsNot(pool: ScriptPool, stack: seq<Slice>, buf: Buffer)
    requires Total(BufferOf, stack) <= pool.lent && buf !in Known(pool)
    ensures forall k | 0 <= k < |stack| && stack[k].Slice? :: stack[k].arr != buf
  {
    LentIsNot(pool, BufferOf, stack, buf);
    assert forall k | 0 <= k < |stack| && stack[k].Slice? :: stack[k].arr in BufferOf(stack[k]);
  }

  lemma ItemIsItself(item: seq<byte>)
    ensures Identity(item) == item
  {
  }

  /** Items before j are placed, the others still hold their buffers. */
  ghost predicate StackGathered(stack: seq<Slice>, placed: seq<Slice>, items: seq<seq<byte>>,
                                buf: Buffer, w: seq<byte>, j: nat)
    requires |stack| == |items|
    reads set k | 0 <= k < |stack| && stack[k].Slice? :: stack[k].arr
  {
    && |placed| == |stack| && PlacedUpTo(placed, items, buf, w, j)
    && forall k | j <= k < |stack| :: Holds(stack[k], items[k])
  }

  method GatherItemAt(pool: ScriptPool, stack: seq<Slice>, before: seq<Slice>, j: nat, buf: Buffer, off: nat,
                      ghost items: seq<seq<byte>>, ghost w: seq<byte>, ghost base: multiset<Buffer>)
    returns (placed: seq<Slice>, end: nat)
    requires j < |stack| == |items| && StackGathered(stack, before, items, buf, w, j)
    requires pool.Valid() && pool.lent == base + TotalFrom(BufferOf, stack, j)
    requires forall k | 0 <= k < |stack| && stack[k].Slice? :: stack[k].arr != buf
    requires buf !in Known(pool) && |w| + |PutMany(Identity, items)| <= buf.Length
    requires off == |Front(Identity, items, j, w)| && Shows(buf, Front(Identity, items, j, w))
    modifies pool, buf
    ensures pool.Valid() && pool.lent == base + TotalFrom(BufferOf, stack, j + 1) && Known(pool) <= old(Known(pool))
    ensures StackGathered(stack, placed, items, buf, w, j + 1)
    ensures end == |Front(Identity, items, j + 1, w)| && Shows(buf, Front(Identity, items, j + 1, w))
  {
    hide Known, Total, TotalFrom, PutMany, Front, Identity, Window, BufferOf, Holds, Shows, PlacedUpTo,
         ScriptPool.Valid;
    GatherStep(BufferOf, stack, Identity, items, j, base, w);
    ItemIsItself(items[j]);
    var t;
    t, end := Gather(pool, stack[j], buf, off, items[j], Front(Identity, items, j, w),
                     base + TotalFrom(BufferOf, stack, j + 1));
    PlacedStep(before, items, buf, w, j, t);
    placed := before[j := t];
  }

  method GatherStack(pool: ScriptPool, stack: seq<Slice>, buf: Buffer, off: nat,
                     ghost items: seq<seq<byte>>, ghost w: seq<byte>, ghost base: multiset<Buffer>)
    returns (placed: seq<Slice>, end: nat)
    requires pool.Valid() && pool.lent == base + Total(BufferOf, stack)
    requires |stack| == |items| && forall k | 0 <= k < |stack| :: Holds(stack[k], items[k])
    requires buf !in Known(pool) && off == |w| && off + |PutMany(Identity, items)| <= buf.Length && Shows(buf, w)
    modifies pool, buf
    ensures pool.Valid() && pool.lent == base && Known(pool) <= old(Known(pool))
    ensures StackPlaced(placed, items, buf, off) && end == off + |PutMany(Identity, items)|
    ensures Shows(buf, w + PutMany(Identity, items))
  {
    StackIsNot(pool, stack, buf);
    hide Known, Total, TotalFrom, PutMany, Front, BufferOf, Shows, PlacedUpTo, StackPlaced, ScriptPool.Valid;
    PlacedStart(stack, items, buf, w);
    TotalEnds(BufferOf, stack, base);
    FrontEnds(Identity, items, w);
    placed, end := stack, off;
    assert StackGathered(stack, placed, items, buf, w, 0);
    hide StackGathered, Holds;
    var j := 0;
    while j < |stack|
      invariant 0 <= j <= |stack|
      invariant pool.Valid() && Known(pool) <= old(Known(pool))
      invariant pool.lent == base + TotalFrom(BufferOf, stack, j)
      invariant StackGathered(stack, placed, items, buf, w, j)
      invariant end == |Front(Identity, items, j, w)| && Shows(buf, Front(Identity, items, j, w))
    {
      placed, end := GatherItemAt(pool, stack, placed, j, buf, end, items, w, base);
      j := j + 1;
    }
    PlacedAll(stack, placed, items, buf, w);
  }

  lemma PlacedAll(stack: seq<Slice>, placed: seq<Slice>, items: seq<seq<byte>>, buf: Buffer, w: seq<byte>)
    requires |stack| == |items| && StackGathered(stack, placed, items, buf, w, |items|)
    ensures StackPlaced(placed, items, buf, |w|)
  {
    PlacedEnd(placed, items, buf, w);
  }

  method GatherIn(pool: ScriptPool, rec: InRec, buf: Buffer, off: nat,
                  ghost ti: TxIn, ghost w: seq<byte>, ghost base: multiset<Buffer>)
    returns (placed: InRec, end: nat)
    requires pool.Valid() && InHolds(rec, ti) && pool.lent == base + InBuffers(rec)
    requires buf !in Known(pool) && off == |w| && off + |InScripts(ti)| <= buf.Length && Shows(buf, w)
    modifies pool, buf
    ensures pool.Valid() && pool.lent == base && Known(pool) <= old(Known(pool))
    ensures InPlaced(placed, ti, buf, off) && end == off + |InScripts(ti)|
    ensures Shows(buf, w + InScripts(ti))
  {
    hide Total, PutMany, StackPlaced, Shows, ScriptPool.Valid;
    LentIsNot(pool, BufferOf, rec.stack, buf);
    ghost var rest := base + Total(BufferOf, rec.stack);
    assert base + InBuffers(rec) == rest + BufferOf(rec.script);
    var script, stack;
    script, end := Gather(pool, rec.script, buf, off, ti.script, w, rest);
    stack, end := GatherStack(pool, rec.stack, buf, end, ti.stack, w + ti.script, base);
    placed := rec.(script := script, stack := stack);
    assert w + ti.script + PutMany(Identity, ti.stack) == w + InScripts(ti);
  }

  /** The records before i are placed, the others still hold their buffers. */
  ghost predicate InsGathered(ins: array<InRec>, recs: seq<InRec>, tis: seq<TxIn>, buf: Buffer, w: seq<byte>, i: nat)
    requires i <= |recs| == ins.Length == |tis|
    reads ins, set k, a | i <= k < |recs| && a in InBuffers(recs[k]) :: a
  {
    && (forall k | 0 <= k < i :: InPlaced(ins[k], tis[k], buf, |Front(InScripts, tis, k, w)|))
    && (forall k | i <= k < |recs| :: ins[k] == recs[k] && InHolds(recs[k], tis[k]))
  }

  method GatherInAt(pool: ScriptPool, ins: array<InRec>, i: nat, buf: Buffer, off: nat,
                    ghost recs: seq<InRec>, ghost tis: seq<TxIn>, ghost w: seq<byte>, ghost base: multiset<Buffer>)
    returns (end: nat)
    requires i < |recs| == ins.Length == |tis| && InsGathered(ins, recs, tis, buf, w, i)
    requires pool.Valid() && pool.lent == base + TotalFrom(InBuffers, recs, i)
    requires forall k | 0 <= k < |recs| :: buf !in InBuffers(recs[k])
    requires buf !in Known(pool) && |w| + |PutMany(InScripts, tis)| <= buf.Length
    requires off == |Front(InScripts, tis, i, w)| && Shows(buf, Front(InScripts, tis, i, w))
    modifies pool, buf, ins
    ensures pool.Valid() && pool.lent == base + TotalFrom(InBuffers, recs, i + 1) && Known(pool) <= old(Known(pool))
    ensures InsGathered(ins, recs, tis, buf, w, i + 1)
    ensures end == |Front(InScripts, tis, i + 1, w)| && Shows(buf, Front(InScripts, tis, i + 1, w))
  {
    hide Known, Total, TotalFrom, PutMany, Front, InBuffers, InHolds, InPlaced, InScripts, Shows, ScriptPool.Valid;
    GatherStep(InBuffers, recs, InScripts, tis, i, base, w);
    var placed;
    placed, end := GatherIn(pool, ins[i], buf, off, tis[i], Front(InScripts, tis, i, w),
                            base + TotalFrom(InBuffers, recs, i + 1));
    ins[i] := placed;
  }

  method GatherIns(pool: ScriptPool, ins: array<InRec>, buf: Buffer, off: nat,
                   ghost tis: seq<TxIn>, ghost w: seq<byte>, ghost base: multiset<Buffer>)
    returns (end: nat)
    requires pool.Valid() && pool.lent == base + Total(InBuffers, ins[..])
    requires |tis| == ins.Length && forall k | 0 <= k < ins.Length :: InHolds(ins[k], tis[k])
    requires buf !in Known(pool) && off == |w| && off + |PutMany(InScripts, tis)| <= buf.Length && Shows(buf, w)
    modifies pool, buf, ins
    ensures pool.Valid() && pool.lent == base && Known(pool) <= old(Known(pool))
    ensures InsPlaced(ins[..], tis, buf, off) && end == off + |PutMany(InScripts, tis)|
    ensures Shows(buf, w + PutMany(InScripts, tis))
  {
    hide Known, Total, TotalFrom, PutMany, Front, InBuffers, InHolds, InPlaced, InScripts, Shows, ScriptPool.Valid;
    ghost var recs := ins[..];
    LentIsNot(pool, InBuffers, recs, buf);
    TotalEnds(InBuffers, recs, base);
    FrontEnds(InScripts, tis, w);
    end := off;
    for i := 0 to ins.Length
      invariant pool.Valid() && Known(pool) <= old(Known(pool))
      invariant pool.lent == base + TotalFrom(InBuffers, recs, i)
      invariant InsGathered(ins, recs, tis, buf, w, i)
      invariant end == |Front(InScripts, tis, i, w)| && Shows(buf, Front(InScripts, tis, i, w))
    {
      end := GatherInAt(pool, ins, i, buf, end, recs, tis, w, base);
    }
  }

  method GatherOut(pool: ScriptPool, rec: OutRec, buf: Buffer, off: nat,
                   ghost to: TxOut, ghost w: seq<byte>, ghost base: multiset<Buffer>)
    returns (placed: OutRec, end: nat)
    requires pool.Valid() && OutHolds(rec, to) && pool.lent == base + OutBuffers(rec)
    requires buf !in Known(pool) && off == |w| && off + |OutScript(to)| <= buf.Length && Shows(buf, w)
    modifies pool, buf
    ensures pool.Valid() && pool.lent == base && Known(pool) <= old(Known(pool))
    ensures OutPlaced(placed, to, buf, off) && end == off + |OutScript(to)|
    ensures Shows(buf, w + OutScript(to))
  {
    hide Shows, ScriptPool.Valid;
    var script;
    script, end := Gather(pool, rec.script, buf, off, to.script, w, base);
    placed := rec.(script := script);
  }

  /** The records before i are placed, the others still hold their buffers. */
  ghost predicate OutsGathered(outs: array<OutRec>, recs: seq<OutRec>, tos: seq<TxOut>,
                               buf: Buffer, w: seq<byte>, i: nat)
    requires i <= |recs| == outs.Length == |tos|
    reads outs, set k, a | i <= k < |recs| && a in OutBuffers(recs[k]) :: a
  {
    && (forall k | 0 <= k < i :: OutPlaced(outs[k], tos[k], buf, |Front(OutScript, tos, k, w)|))
    && (forall k | i <= k < |recs| :: outs[k] == recs[k] && OutHolds(recs[k], tos[k]))
  }

  method GatherOutAt(pool: ScriptPool, outs: array<OutRec>, i: nat, buf: Buffer, off: nat,
                    ghost recs: seq<OutRec>, ghost tos: seq<TxOut>, ghost w: seq<byte>, ghost base: multiset<Buffer>)
    returns (end: nat)
    requires i < |recs| == outs.Length == |tos| && OutsGathered(outs, recs, tos, buf, w, i)
    requires pool.Valid() && pool.lent == base + TotalFrom(OutBuffers, recs, i)
    requires forall k | 0 <= k < |recs| :: buf !in OutBuffers(recs[k])
    requires buf !in Known(pool) && |w| + |PutMany(OutScript, tos)| <= buf.Length
    requires off == |Front(OutScript, tos, i, w)| && Shows(buf, Front(OutScript, tos, i, w))
    modifies pool, buf, outs
    ensures pool.Valid() && pool.lent == base + TotalFrom(OutBuffers, recs, i + 1) && Known(pool) <= old(Known(pool))
    ensures OutsGathered(outs, recs, tos, buf, w, i + 1)
    ensures end == |Front(OutScript, tos, i + 1, w)| && Shows(buf, Front(OutScript, tos, i + 1, w))
  {
    hide Known, Total, TotalFrom, PutMany, Front, OutBuffers, OutHolds, OutPlaced, OutScript, Shows, ScriptPool.Valid;
    GatherStep(OutBuffers, recs, OutScript, tos, i, base, w);
    var placed;
    placed, end := GatherOut(pool, outs[i], buf, off, tos[i], Front(OutScript, tos, i, w),
                            base + TotalFrom(OutBuffers, recs, i + 1));
    outs[i] := placed;
  }

  method GatherOuts(pool: ScriptPool, outs: array<OutRec>, buf: Buffer, off: nat,
                   ghost tos: seq<TxOut>, ghost w: seq<byte>, ghost base: multiset<Buffer>)
    returns (end: nat)
    requires pool.Valid() && pool.lent == base + Total(OutBuffers, outs[..])
    requires |tos| == outs.Length && forall k | 0 <= k < outs.Length :: OutHolds(outs[k], tos[k])
    requires buf !in Known(pool) && off == |w| && off + |PutMany(OutScript, tos)| <= buf.Length && Shows(buf, w)
    modifies pool, buf, outs
    ensures pool.Valid() && pool.lent == base && Known(pool) <= old(Known(pool))
    ensures OutsPlaced(outs[..], tos, buf, off) && end == off + |PutMany(OutScript, tos)|
    ensures Shows(buf, w + PutMany(OutScript, tos))
  {
    hide Known, Total, TotalFrom, PutMany, Front, OutBuffers, OutHolds, OutPlaced, OutScript, Shows, ScriptPool.Valid;
    ghost var recs := outs[..];
    LentIsNot(pool, OutBuffers, recs, buf);
    TotalEnds(OutBuffers, recs, base);
    FrontEnds(OutScript, tos, w);
    end := off;
    for i := 0 to outs.Length
      invariant pool.Valid() && Known(pool) <= old(Known(pool))
      invariant pool.lent == base + TotalFrom(OutBuffers, recs, i)
      invariant OutsGathered(outs, recs, tos, buf, w, i)
      invariant end == |Front(OutScript, tos, i, w)| && Shows(buf, Front(OutScript, tos, i, w))
    {
      end := GatherOutAt(pool, outs, i, buf, end, recs, tos, w, base);
    }
  }

  // ---------- The whole decoder ----------

  /** The zero that stands where the count should be announces a flag. */
  method ReadInCount(r: Reader, enc: Encoding) returns (res: Result<(bool, nat)>)
    modifies r
    ensures Follows(res, GetInCount(old(r.unread), enc), r.unread)
  {
    hide GetVarInt;
    var count :- ReadVarInt(r);
    if count == 0 && enc.WitnessEncoding? {
      var flag :- r.ReadFull(1);
      if flag[0] != WITNESS_FLAG {
        return Failure(BadFlag);
      }
      count :- ReadVarInt(r);
      return Success((true, count));
    }
    res := Success((false, count));
  }

  /** Lent buffers are not in the pool, so reading on leaves them alone. */
  lemma LentApart<T>(pool: ScriptPool, f: T -> multiset<Buffer>, recs: seq<T>)
    requires pool.Valid() && Total(f, recs) <= pool.lent
    ensures forall k, a | 0 <= k < |recs| && a in f(recs[k]) :: a !in Pooled(pool)
  {
    forall k, a | 0 <= k < |recs| && a in f(recs[k])
      ensures a !in Pooled(pool)
    {
      TotalMember(f, recs, k);
    }
  }

  lemma {:induction false} StackLengths(stack: seq<Slice>, items: seq<seq<byte>>)
    requires |stack| == |items| && forall j | 0 <= j < |stack| :: Holds(stack[j], items[j])
    ensures Sum(SliceLen, stack) == |PutMany(Identity, items)|
  {
    if stack != [] {
      StackLengths(stack[1..], items[1..]);
    }
  }

  lemma {:induction false} InLengths(ins: seq<InRec>, tis: seq<TxIn>)
    requires |ins| == |tis| && forall k | 0 <= k < |ins| :: InHolds(ins[k], tis[k])
    ensures Sum(InLen, ins) == |PutMany(InScripts, tis)|
  {
    if ins != [] {
      InLengths(ins[1..], tis[1..]);
      StackLengths(ins[0].stack, tis[0].stack);
    }
  }

  lemma {:induction false} OutLengths(outs: seq<OutRec>, tos: seq<TxOut>)
    requires |outs| == |tos| && forall k | 0 <= k < |outs| :: OutHolds(outs[k], tos[k])
    ensures Sum(OutLen, outs) == |PutMany(OutScript, tos)|
  {
    if outs != [] {
      OutLengths(outs[1..], tos[1..]);
    }
  }

  method GatherAll(pool: ScriptPool, ins: array<InRec>, outs: array<OutRec>, buf: Buffer,
                   ghost tis: seq<TxIn>, ghost tos: seq<TxOut>, ghost base: multiset<Buffer>)
    requires pool.Valid() && pool.lent == base + Total(InBuffers, ins[..]) + Total(OutBuffers, outs[..])
    requires |tis| == ins.Length && forall k | 0 <= k < ins.Length :: InHolds(ins[k], tis[k])
    requires |tos| == outs.Length && forall k | 0 <= k < outs.Length :: OutHolds(outs[k], tos[k])
    requires buf !in Known(pool) && Shows(buf, [])
    requires buf.Length == |PutMany(InScripts, tis)| + |PutMany(OutScript, tos)|
    modifies pool, buf, ins, outs
    ensures pool.Valid() && pool.lent == base && Known(pool) <= old(Known(pool))
    ensures InsPlaced(ins[..], tis, buf, 0)
    ensures OutsPlaced(outs[..], tos, buf, |PutMany(InScripts, tis)|)
    ensures Shows(buf, PutMany(InScripts, tis) + PutMany(OutScript, tos))
  {
    hide InHolds, OutHolds, InBuffers, OutBuffers, InsPlaced, OutsPlaced, PutMany, Total, Known, Shows,
         ScriptPool.Valid;
    ghost var rest, front := base + Total(OutBuffers, outs[..]), PutMany(InScripts, tis);
    assert base + Total(InBuffers, ins[..]) + Total(OutBuffers, outs[..]) == rest + Total(InBuffers, ins[..]);
    LentIsNot(pool, OutBuffers, outs[..], buf);
    var end := GatherIns(pool, ins, buf, 0, tis, [], rest);
    assert [] + front == front;
    end := GatherOuts(pool, outs, buf, end, tos, front, base);
  }

  /** Moves all scripts into one allocation of exactly the size added up while reading. */
  method Compact(pool: ScriptPool, ins: array<InRec>, outs: array<OutRec>, total: nat,
                 ghost tis: seq<TxIn>, ghost tos: seq<TxOut>, ghost base: multiset<Buffer>)
    returns (scripts: Buffer)
    requires pool.Valid() && pool.lent == base + Total(InBuffers, ins[..]) + Total(OutBuffers, outs[..])
    requires |tis| == ins.Length && forall k | 0 <= k < ins.Length :: InHolds(ins[k], tis[k])
    requires |tos| == outs.Length && forall k | 0 <= k < outs.Length :: OutHolds(outs[k], tos[k])
    requires total == |PutMany(InScripts, tis)| + |PutMany(OutScript, tos)|
    modifies pool, ins, outs
    ensures pool.Valid() && pool.lent == base && Known(pool) <= old(Known(pool))
    ensures fresh(scripts) && scripts !in Known(pool)
    ensures InsPlaced(ins[..], tis, scripts, 0)
    ensures OutsPlaced(outs[..], tos, scripts, |PutMany(InScripts, tis)|)
    ensures scripts[..] == PutMany(InScripts, tis) + PutMany(OutScript, tos)
  {
    hide InHolds, OutHolds, InBuffers, OutBuffers, InsPlaced, OutsPlaced, PutMany, Total, Known, ScriptPool.Valid;
    scripts := new byte[total](_ => 0);
    NewIsUnknown(pool, scripts);
    LentIsNot(pool, InBuffers, ins[..], scripts);
    LentIsNot(pool, OutBuffers, outs[..], scripts);
    GatherAll(pool, ins, outs, scripts, tis, tos, base);
    assert scripts[..total] == scripts[..];
  }

  twostate lemma NewIsUnknown(pool: ScriptPool, new buf: Buffer)
    requires fresh(buf) && unchanged(pool)
    ensures buf !in Known(pool)
  {
  }

  /** The stacks, when a flag announced them; inputs without one keep an empty stack. */
  method ReadStacksIf(pool: ScriptPool, r: Reader, flagged: bool, ins: array<InRec>,
                      ghost bare: seq<TxIn>, ghost base: multiset<Buffer>)
    returns (res: Result<()>, total: nat)
    requires pool.Valid()
    requires |bare| == ins.Length
    requires pool.lent == base + Total(InBuffers, ins[..])
    requires forall k | 0 <= k < ins.Length :: InHolds(ins[k], bare[k]) && ins[k].stack == [] && WholeIn(ins[k])
    modifies pool, r, ins, Pooled(pool)
    ensures pool.Valid() && PoolGrowsFresh(pool) && NoStrangers(pool)
    ensures pool.lent == base + Total(InBuffers, ins[..])
    ensures forall k | 0 <= k < ins.Length :: WholeIn(ins[k])
    ensures match GetStacks(old(r.unread), flagged, ins.Length)
            case Ok(ws, rest) =>
              && res == Success(()) && r.unread == rest && |ws| == ins.Length
              && (forall k | 0 <= k < ins.Length :: InHolds(ins[k], Attach(bare, ws)[k]))
              && Sum(InLen, ins[..]) == Sum(InLen, old(ins[..])) + total
            case Err(e) => res == Failure(e)
  {
    hide InBuffers, WholeIn, Total, Sum, InLen, Many, ScriptPool.Valid;
    if flagged {
      res, total := ReadStacks(pool, r, ins, bare, base);
    } else {
      res, total := Success(()), 0;
      ghost var ws := GetStacks(r.unread, false, ins.Length).value;
      assert forall k | 0 <= k < ins.Length :: Attach(bare, ws)[k] == bare[k];
    }
  }

  lemma HeldLengths(ins: seq<InRec>, outs: seq<OutRec>, tis: seq<TxIn>, tos: seq<TxOut>)
    requires |ins| == |tis| && forall k | 0 <= k < |ins| :: InHolds(ins[k], tis[k])
    requires |outs| == |tos| && forall k | 0 <= k < |outs| :: OutHolds(outs[k], tos[k])
    ensures Sum(InLen, ins) + Sum(OutLen, outs) == |PutMany(InScripts, tis)| + |PutMany(OutScript, tos)|
  {
    InLengths(ins, tis);
    OutLengths(outs, tos);
  }

  /** What the fields of a decoded message say, its scripts all living in buf. */
  ghost predicate Represents(ins: seq<InRec>, outs: seq<OutRec>, buf: Buffer, tx: MsgTx)
    reads buf
  {
    && |ins| == |tx.ins| && |outs| == |tx.outs|
    && InsPlaced(ins, tx.ins, buf, 0)
    && OutsPlaced(outs, tx.outs, buf, |PutMany(InScripts, tx.ins)|)
    && buf[..] == Scripts(tx)
  }

  method ReadOutCount(r: Reader) returns (count: Result<nat>)
    modifies r
    ensures match GetVarInt(old(r.unread))
            case Err(e) => count == Failure(e)
            case Ok(n, rest) =>
              if n > MAX_TX_OUT_PER_MESSAGE then count == Failure(TooManyOutputs)
              else count == Success(n) && r.unread == rest
  {
    var n := ReadVarInt(r);
    if n.Failure? {
      return Failure(n.error);
    }
    if n.value > MAX_TX_OUT_PER_MESSAGE {
      return Failure(TooManyOutputs);
    }
    count := Success(n.value);
  }

  class TxMessage {
    var version: int32
    var ins: array<InRec>
    var outs: array<OutRec>
    var lockTime: uint32

    constructor ()
      ensures Fresh() && fresh(ins) && fresh(outs)
    {
      version, lockTime := 0, 0;
      ins := new InRec[0];
      outs := new OutRec[0];
    }

    predicate Fresh()
      reads this
    {
      ins.Length == 0 && outs.Length == 0
    }

    /** After the outputs: the stacks, the lock time, and the move into one buffer. */
    method ReadFoot(pool: ScriptPool, r: Reader, flagged: bool, total: nat,
                      ghost bare: seq<TxIn>, ghost tos: seq<TxOut>, ghost base: multiset<Buffer>)
      returns (res: Result<()>, ghost scripts: array?<byte>)
      requires pool.Valid() && pool.lent == base + Total(InBuffers, ins[..]) + Total(OutBuffers, outs[..])
      requires |bare| == ins.Length && |tos| == outs.Length
      requires InsRead(ins, bare) && OutsRead(outs, tos)
      requires total == Sum(InLen, ins[..]) + Sum(OutLen, outs[..])
      modifies this`lockTime, ins, outs, pool, r, Pooled(pool)
      ensures pool.Valid() && pool.lent == base && NoStrangers(pool)
      ensures match DecodeFoot(version, flagged, bare, tos, old(r.unread))
              case Ok(tx, rest) =>
                && res == Success(()) && r.unread == rest && lockTime == tx.lockTime
                && scripts != null && fresh(scripts) && scripts !in Known(pool)
                && Represents(ins[..], outs[..], scripts, tx)
              case Err(e) => res == Failure(e)
    {
      hide InHolds, OutHolds, InBuffers, OutBuffers, WholeIn, Total, Sum, InLen, OutLen, GetU32, GetStacks,
           Attach, InsPlaced, OutsPlaced, PutMany, Known, InsRead, OutsRead, ScriptPool.Valid;
      scripts := null;
      AllInsRead(ins, bare);
      AllOutsRead(outs, tos);
      ghost var b := r.unread;
      ghost var outBase := base + Total(OutBuffers, outs[..]);
      assert base + Total(InBuffers, ins[..]) + Total(OutBuffers, outs[..]) == outBase + Total(InBuffers, ins[..]);
      LentApart(pool, OutBuffers, outs[..]);
      var more;
      res, more := ReadStacksIf(pool, r, flagged, ins, bare, outBase);
      assert outBase + Total(InBuffers, ins[..]) == base + Total(InBuffers, ins[..]) + Total(OutBuffers, outs[..]);
      if res.Failure? {
        ReturnScriptBuffers(pool, ins, outs, base);
        return;
      }
      var lock := r.ReadU32();
      if lock.Failure? {
        ReturnScriptBuffers(pool, ins, outs, base);
        return Failure(lock.error), null;
      }
      lockTime := lock.value;
      ghost var view := Attach(bare, GetStacks(b, flagged, ins.Length).value);
      HeldLengths(ins[..], outs[..], view, tos);
      scripts := Compact(pool, ins, outs, total + more, view, tos, base);
      res := Success(());
    }

    /** The outputs and everything after them, the inputs having been read. */
    method ReadOuts(pool: ScriptPool, r: Reader, flagged: bool, total: nat,
                    ghost bare: seq<TxIn>, ghost base: multiset<Buffer>)
      returns (res: Result<()>, ghost scripts: array?<byte>)
      requires pool.Valid() && pool.lent == base + Total(InBuffers, ins[..])
      requires |bare| == ins.Length && outs.Length == 0
      requires InsRead(ins, bare)
      requires total == Sum(InLen, ins[..])
      modifies this`lockTime, this`outs, ins, pool, r, Pooled(pool)
      ensures pool.Valid() && pool.lent == base && NoStrangers(pool)
      ensures match GetTxOuts(old(r.unread))
              case Ok(tos, mid) =>
                (match DecodeFoot(version, flagged, bare, tos, mid)
                 case Ok(tx, rest) =>
                   && res == Success(()) && r.unread == rest && lockTime == tx.lockTime
                   && scripts != null && fresh(scripts) && scripts !in Known(pool)
                   && Represents(ins[..], outs[..], scripts, tx)
                 case Err(e) => res == Failure(e))
              case Err(e) => res == Failure(e)
    {
      hide InHolds, OutHolds, InBuffers, OutBuffers, WholeIn, Total, Sum, InLen, OutLen, GetVarInt, Many,
           DecodeFoot, Represents, Known, InsRead, OutsRead, ScriptPool.Valid;
      scripts := null;
      AllInsRead(ins, bare);
      TotalEmpty(OutBuffers);
      assert outs[..] == [];
      assert base + Total(InBuffers, ins[..]) + multiset{} == base + Total(InBuffers, ins[..]);
      LentApart(pool, InBuffers, ins[..]);
      var count := ReadOutCount(r);
      if count.Failure? {
        ReturnScriptBuffers(pool, ins, outs, base);
        return Failure(count.error), null;
      }
      outs := new OutRec[count.value](_ => EMPTY_OUT);
      ghost var b := r.unread;
      var more;
      res, more := ReadTxOuts(pool, r, outs);
      if res.Failure? {
        ReturnScriptBuffers(pool, ins, outs, base);
        return;
      }
      res, scripts := ReadFoot(pool, r, flagged, total + more, bare, Many(GetTxOut, outs.Length, b).value, base);
    }

    /** The inputs and everything after them. */
    method ReadBody(pool: ScriptPool, r: Reader, flagged: bool, n: nat)
      returns (res: Result<()>, ghost scripts: array?<byte>)
      requires pool.Valid() && Fresh()
      modifies this, pool, r, Pooled(pool)
      ensures pool.Valid() && pool.lent == old(pool.lent) && NoStrangers(pool)
      ensures version == old(version)
      ensures match DecodeBody(version, flagged, n, old(r.unread))
              case Ok(tx, rest) =>
                && res == Success(()) && r.unread == rest && lockTime == tx.lockTime
                && scripts != null && fresh(scripts) && scripts !in Known(pool)
                && Represents(ins[..], outs[..], scripts, tx)
              case Err(e) => res == Failure(e)
    {
      hide InHolds, InBuffers, OutBuffers, WholeIn, Total, Sum, InLen, Many,
           GetTxOuts, DecodeFoot, Represents, Known, InsRead, ScriptPool.Valid;
      scripts := null;
      if n > MAX_TX_IN_PER_MESSAGE {
        return Failure(TooManyInputs), null;
      }
      ghost var b, base := r.unread, pool.lent;
      ins := new InRec[n](_ => EMPTY_IN);
      var total;
      res, total := ReadTxIns(pool, r, ins);
      if res.Failure? {
        TotalEmpty(OutBuffers);
        assert outs[..] == [];
        assert base + Total(InBuffers, ins[..]) + multiset{} == base + Total(InBuffers, ins[..]);
        ReturnScriptBuffers(pool, ins, outs, base);
        return;
      }
      res, scripts := ReadOuts(pool, r, flagged, total, Many(GetTxIn, n, b).value, base);
    }

    /** Decodes one transaction into a fresh receiver. What comes out is what the
        grammar says of the same bytes; on every way out all borrowed buffers have been
        handed back, exactly once each; and on success the scripts live in a buffer of
        their own, which the pool does not know. */
    method BtcDecode(pool: ScriptPool, r: Reader, enc: Encoding)
      returns (res: Result<()>, ghost scripts: array?<byte>)
      requires pool.Valid() && Fresh()
      modifies this, pool, r, Pooled(pool)
      ensures pool.Valid() && pool.lent == old(pool.lent) && PoolGrowsFresh(pool)
      ensures match Decode(old(r.unread), enc)
              case Ok(tx, rest) =>
                && res == Success(()) && r.unread == rest
                && version == tx.version && lockTime == tx.lockTime
                && scripts != null && fresh(scripts) && scripts !in Known(pool)
                && Represents(ins[..], outs[..], scripts, tx)
              case Err(e) => res == Failure(e)
    {
      hide GetU32, GetInCount, GetTxIns, GetTxOuts, DecodeFoot, Represents, Known, ScriptPool.Valid;
      scripts := null;
      var v := r.ReadU32();
      if v.Failure? {
        return Failure(v.error), null;
      }
      version := ToI32(v.value);
      var count := ReadInCount(r, enc);
      if count.Failure? {
        return Failure(count.error), null;
      }
      DecodeBodyVersion(version, count.value.0, count.value.1, r.unread);
      res, scripts := ReadBody(pool, r, count.value.0, count.value.1);
      OnlyOwnBuffers(pool);
    }
  }

  lemma DecodeBodyVersion(version: int32, flagged: bool, n: nat, b: seq<byte>)
    ensures DecodeBody(version, flagged, n, b).Ok? ==> DecodeBody(version, flagged, n, b).value.version == version
  {
  }
}
