/** The free list of script buffers and the slices that point into byte arrays
(wire/msgtx.go). The ghost ledger `lent` is what has been borrowed and not yet
handed back. */
module ScriptPools {
  import opened Bytes
  import opened Streams
  import opened VarInts
  import opened TxGrammar

  const FREE_LIST_MAX_ITEMS: nat := 12500
  const FREE_LIST_MAX_SCRIPT_SIZE: nat := 512

  type Buffer = array<byte>

  /** A Go slice: a window on an array, with the capacity that Return looks at. */
  datatype Slice = Nil | Slice(arr: Buffer, off: nat, len: nat, cap: nat)

  /** A buffer as Borrow hands it out, holding v. */
  ghost predicate Holds(s: Slice, v: seq<byte>)
    reads if s.Slice? then {s.arr} else {}
  {
    s.Slice? && s.off == 0 && s.len == |v| && s.len <= s.cap == s.arr.Length && s.arr[..s.len] == v
  }

  /** A slice that starts its array and has all of it as capacity, as every borrowed
      one does. */
  predicate Whole(s: Slice) { s.Slice? ==> s.off == 0 && s.len <= s.cap == s.arr.Length }

  ghost function BufferOf(s: Slice): multiset<Buffer>
  {
    if s.Nil? then multiset{} else multiset{s.arr}
  }

  class ScriptPool {
    var free: seq<Buffer>
    ghost var lent: multiset<Buffer>

    /** No buffer twice in the pool, none both pooled and lent, none lent twice, and
        every pooled one of the standard size. */
    ghost predicate Valid()
      reads this
    {
      && |free| <= FREE_LIST_MAX_ITEMS
      && (forall i, j | 0 <= i < j < |free| :: free[i] != free[j])
      && (forall a | a in free :: a.Length == FREE_LIST_MAX_SCRIPT_SIZE && a !in lent)
      && (forall a | a in lent :: lent[a] == 1)
    }

    constructor ()
      ensures Valid() && free == [] && lent == multiset{}
    {
      free, lent := [], multiset{};
    }

    method Borrow(size: nat) returns (s: Slice)
      requires Valid()
      modifies this
      ensures Valid()
      ensures s.Slice? && s.off == 0 && s.len == size && s.len <= s.cap == s.arr.Length
      ensures s.arr !in old(lent) && lent == old(lent) + multiset{s.arr}
      ensures s.cap == if size > 512 then size else 512
      ensures if size > 512 || old(free) == [] then fresh(s.arr) && free == old(free)
              else s.arr == old(free)[0] && free == old(free)[1..]
    {
      var buf: Buffer;
      if size > FREE_LIST_MAX_SCRIPT_SIZE {
        buf := new byte[size](_ => 0);
      } else if |free| > 0 {
        buf := free[0];
        free := free[1..];
      } else {
        buf := new byte[FREE_LIST_MAX_SCRIPT_SIZE](_ => 0);
      }
      lent := lent + multiset{buf};
      s := Slice(buf, 0, size, buf.Length);
    }

    /** Keeps a buffer of the standard size when there is room, and lets go of any other. */
    method Return(s: Slice)
      requires Valid() && s.Slice? && s.arr in lent && s.cap == s.arr.Length
      modifies this
      ensures Valid()
      ensures lent == old(lent) - multiset{s.arr}
      ensures free == if s.cap == 512 && |old(free)| < 12500 then old(free) + [s.arr] else old(free)
    {
      lent := lent - multiset{s.arr};
      if s.cap != FREE_LIST_MAX_SCRIPT_SIZE {
        return;
      }
      if |free| < FREE_LIST_MAX_ITEMS {
        free := free + [s.arr];
      }
    }
  }

  ghost function Pooled(pool: ScriptPool): set<Buffer>
    reads pool
  {
    set a | a in pool.free
  }

  /** Whatever is pooled after a call was pooled before it or is new. */
  twostate predicate PoolGrowsFresh(pool: ScriptPool)
    reads pool
  {
    forall a | a in Pooled(pool) :: a in old(Pooled(pool)) || fresh(a)
  }

  ghost function Known(pool: ScriptPool): set<Buffer>
    reads pool
  {
    Pooled(pool) + (set a | a in pool.lent)
  }

  /** Whatever is pooled or lent after a call was so before it or is new. */
  twostate predicate NoStrangers(pool: ScriptPool)
    reads pool
  {
    forall a | a in Known(pool) :: a in old(Known(pool)) || fresh(a)
  }

  /** When everything borrowed has been handed back, nobody else's array has found its
      way into the pool. */
  twostate lemma OnlyOwnBuffers(pool: ScriptPool)
    requires pool.Valid() && pool.lent == old(pool.lent) && NoStrangers(pool)
    ensures PoolGrowsFresh(pool)
  {
    forall a | a in Pooled(pool)
      ensures a in old(Pooled(pool)) || fresh(a)
    {
      assert a in Known(pool) && a !in pool.lent;
    }
  }

  method ReadScript(pool: ScriptPool, r: Reader, maxAllowed: nat) returns (res: Result<()>, s: Slice)
    requires pool.Valid()
    modifies pool, r, Pooled(pool)
    ensures pool.Valid() && pool.lent == old(pool.lent) + BufferOf(s)
    ensures PoolGrowsFresh(pool) && NoStrangers(pool) && Whole(s)
    ensures match GetScript(old(r.unread), maxAllowed)
            case Ok(v, rest) => res == Success(()) && r.unread == rest && Holds(s, v)
            case Err(e) => res == Failure(e) && s == Nil
  {
    hide GetVarInt;
    var count := ReadVarInt(r);
    if count.Failure? {
      return Failure(count.error), Nil;
    }
    if count.value > maxAllowed {
      return Failure(ScriptTooLarge), Nil;
    }
    s := pool.Borrow(count.value);
    res := r.ReadInto(s.arr, count.value);
    if res.Failure? {
      pool.Return(s);
      s := Nil;
    }
  }

  /** ReadVarBytes: the same bytes, into memory of their own. */
  method ReadVarBytes(r: Reader, maxAllowed: nat) returns (res: Result<seq<byte>>)
    modifies r
    ensures Follows(res, GetScript(old(r.unread), maxAllowed), r.unread)
  {
    hide GetVarInt;
    var count :- ReadVarInt(r);
    if count > maxAllowed {
      return Failure(ScriptTooLarge);
    }
    res := r.ReadFull(count);
  }
}
