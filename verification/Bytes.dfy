/** Bytes, little-endian integers, and parsers over a byte stream.

A parser takes the unread part of a stream and either yields a value with
what it left unread or fails. `Many` and `PutMany` are the counted loops of the
wire format; `Inverts` and `Sound` are the two directions of a round trip. */
module Bytes {

  type byte = x: int | 0 <= x < 256
  type uint32 = x: int | 0 <= x < 0x1_0000_0000
  type int32 = x: int | -0x8000_0000 <= x < 0x8000_0000
  type uint64 = x: int | 0 <= x < 0x1_0000_0000_0000_0000
  type int64 = x: int | -0x8000_0000_0000_0000 <= x < 0x8000_0000_0000_0000

  /** Everything that can go wrong while reading a transaction. */
  datatype WireError =
    | EOF
    | UnexpectedEOF
    | NonCanonicalVarInt
    | ScriptTooLarge
    | BadFlag
    | TooManyInputs
    | TooManyOutputs
    | TooManyWitnessItems

  datatype Parsed<+T> = Ok(value: T, rest: seq<byte>) | Err(error: WireError)
  {
    predicate IsFailure() { Err? }

    function PropagateFailure<U>(): Parsed<U>
      requires Err?
    {
      Err(error)
    }

    function Extract(): (T, seq<byte>)
      requires Ok?
    {
      (value, rest)
    }
  }

  // ---------- Two's complement ----------

  function ToU32(v: int32): uint32 { if v < 0 then v + 0x1_0000_0000 else v }

  function ToI32(u: uint32): int32 { if u < 0x8000_0000 then u else u - 0x1_0000_0000 }

  function ToU64(v: int64): uint64 { if v < 0 then v + 0x1_0000_0000_0000_0000 else v }

  function ToI64(u: uint64): int64 { if u < 0x8000_0000_0000_0000 then u else u - 0x1_0000_0000_0000_0000 }

  // ---------- Little-endian integers ----------

  function Pow256(n: nat): (p: nat)
    ensures p > 0
  {
    if n == 0 then 1 else 256 * Pow256(n - 1)
  }

  /** The low n bytes of v, least significant first. */
  function LE(n: nat, v: nat): (b: seq<byte>)
    ensures |b| == n
    decreases n, v
  {
    if n == 0 then [] else [v % 256] + LE(n - 1, v / 256)
  }

  function FromLE(b: seq<byte>): (v: nat)
    ensures v < Pow256(|b|)
  {
    if b == [] then 0 else b[0] + 256 * FromLE(b[1..])
  }

  lemma {:induction false} FromLEInvertsLE(n: nat, v: nat)
    requires v < Pow256(n)
    ensures FromLE(LE(n, v)) == v
  {
    if n > 0 {
      assert LE(n, v)[1..] == LE(n - 1, v / 256);
      FromLEInvertsLE(n - 1, v / 256);
    }
  }

  lemma {:induction false} LEInvertsFromLE(b: seq<byte>)
    ensures LE(|b|, FromLE(b)) == b
  {
    if b != [] {
      LEInvertsFromLE(b[1..]);
      var v := FromLE(b);
      assert v % 256 == b[0] && v / 256 == FromLE(b[1..]);
    }
  }

  lemma Pow256Values()
    ensures Pow256(2) == 0x1_0000
    ensures Pow256(4) == 0x1_0000_0000
    ensures Pow256(8) == 0x1_0000_0000_0000_0000
  {
    assert Pow256(1) == 256;
    assert Pow256(3) == 0x100_0000;
    assert Pow256(5) == 256 * Pow256(4);
    assert Pow256(6) == 256 * Pow256(5);
    assert Pow256(7) == 256 * Pow256(6);
  }

  // ---------- Parsers ----------

  /** Reading exactly n bytes; a stream that ends part-way is told apart from one
      that had already ended. */
  function Take(n: nat, b: seq<byte>): Parsed<seq<byte>>
  {
    if n <= |b| then Ok(b[..n], b[n..])
    else if b == [] then Err(EOF)
    else Err(UnexpectedEOF)
  }

  function GetLE(n: nat, b: seq<byte>): Parsed<nat>
  {
    var (raw, rest) :- Take(n, b);
    Ok(FromLE(raw), rest)
  }

  function GetU32(b: seq<byte>): Parsed<uint32>
  {
    var (v, rest) :- GetLE(4, b);
    Pow256Values();
    Ok(v, rest)
  }

  function GetU64(b: seq<byte>): Parsed<uint64>
  {
    var (v, rest) :- GetLE(8, b);
    Pow256Values();
    Ok(v, rest)
  }

  lemma TakeInverts(x: seq<byte>, rest: seq<byte>)
    ensures Take(|x|, x + rest) == Ok(x, rest)
  {
    assert (x + rest)[..|x|] == x;
    assert (x + rest)[|x|..] == rest;
  }

  lemma GetLEInverts(n: nat, v: nat, rest: seq<byte>)
    requires v < Pow256(n)
    ensures GetLE(n, LE(n, v) + rest) == Ok(v, rest)
  {
    TakeInverts(LE(n, v), rest);
    FromLEInvertsLE(n, v);
  }

  lemma GetLESound(n: nat, b: seq<byte>)
    requires GetLE(n, b).Ok?
    ensures b == LE(n, GetLE(n, b).value) + GetLE(n, b).rest
    ensures GetLE(n, b).value < Pow256(n)
  {
    LEInvertsFromLE(b[..n]);
    assert b == b[..n] + b[n..];
  }

  // ---------- Counted repetition ----------

  type Parser<!T> = seq<byte> -> Parsed<T>

  function Many<T>(get: Parser<T>, n: nat, b: seq<byte>): Parsed<seq<T>>
  {
    if n == 0 then Ok([], b)
    else
      var (x, b1) :- get(b);
      var (xs, b2) :- Many(get, n - 1, b1);
      Ok([x] + xs, b2)
  }

  function PutMany<T>(put: T -> seq<byte>, xs: seq<T>): seq<byte>
  {
    if xs == [] then [] else put(xs[0]) + PutMany(put, xs[1..])
  }

  /** Reading back what was written, whatever follows it in the stream. */
  ghost predicate Inverts<T(!new)>(get: Parser<T>, put: T -> seq<byte>, ok: T -> bool)
  {
    forall x, rest :: ok(x) ==> get(put(x) + rest) == Ok(x, rest)
  }

  /** Whatever is read is well formed and writes back to the bytes consumed. */
  ghost predicate Sound<T(!new)>(get: Parser<T>, put: T -> seq<byte>, ok: T -> bool)
  {
    forall b {:trigger get(b)} :: get(b).Ok? ==> ok(get(b).value) && b == put(get(b).value) + get(b).rest
  }

  lemma {:induction false} ManyInverts<T(!new)>(get: Parser<T>, put: T -> seq<byte>, ok: T -> bool,
                                                xs: seq<T>, rest: seq<byte>)
    requires Inverts(get, put, ok)
    requires forall x :: x in xs ==> ok(x)
    ensures Many(get, |xs|, PutMany(put, xs) + rest) == Ok(xs, rest)
  {
    if xs == [] {
      assert PutMany(put, xs) + rest == rest;
    } else {
      var tail := PutMany(put, xs[1..]) + rest;
      assert PutMany(put, xs) + rest == put(xs[0]) + tail;
      ManyInverts(get, put, ok, xs[1..], rest);
      assert xs == [xs[0]] + xs[1..];
    }
  }

  lemma {:induction false} ManySound<T(!new)>(get: Parser<T>, put: T -> seq<byte>, ok: T -> bool,
                                              n: nat, b: seq<byte>)
    requires Sound(get, put, ok)
    requires Many(get, n, b).Ok?
    ensures var xs := Many(get, n, b).value;
            |xs| == n && (forall x :: x in xs ==> ok(x)) && b == PutMany(put, xs) + Many(get, n, b).rest
  {
    if n > 0 {
      var p := get(b);
      ManySound(get, put, ok, n - 1, p.rest);
      var q := Many(get, n - 1, p.rest);
      var xs := [p.value] + q.value;
      assert xs[1..] == q.value;
      assert PutMany(put, xs) == put(p.value) + PutMany(put, q.value);
      assert b == put(p.value) + (PutMany(put, q.value) + q.rest);
    }
  }

  /** A loop that has already read xs continues with p. */
  function Prepend<T>(xs: seq<T>, p: Parsed<seq<T>>): Parsed<seq<T>>
  {
    match p
    case Ok(ys, rest) => Ok(xs + ys, rest)
    case Err(e) => Err(e)
  }

  lemma PrependNone<T>(p: Parsed<seq<T>>)
    ensures Prepend([], p) == p
  {
    if p.Ok? {
      assert [] + p.value == p.value;
    }
  }

  /** One turn of a reading loop. */
  lemma ManyStep<T>(get: Parser<T>, n: nat, b: seq<byte>, done: seq<T>)
    requires n > 0
    ensures get(b).Err? ==> Prepend(done, Many(get, n, b)) == Err(get(b).error)
    ensures get(b).Ok? ==>
              Prepend(done, Many(get, n, b)) == Prepend(done + [get(b).value], Many(get, n - 1, get(b).rest))
  {
    if get(b).Ok? {
      var q := Many(get, n - 1, get(b).rest);
      if q.Ok? {
        assert done + ([get(b).value] + q.value) == done + [get(b).value] + q.value;
      }
    }
  }

  lemma {:induction false} PutManySplit<T>(put: T -> seq<byte>, xs: seq<T>, k: nat)
    requires k <= |xs|
    ensures PutMany(put, xs) == PutMany(put, xs[..k]) + PutMany(put, xs[k..])
  {
    if k == 0 {
      assert xs[..0] == [] && xs[0..] == xs;
      assert PutMany(put, xs) == [] + PutMany(put, xs);
    } else {
      PutManySplit(put, xs[1..], k - 1);
      assert xs[..k][1..] == xs[1..][..k - 1];
      assert xs[k..] == xs[1..][k - 1..];
      assert put(xs[0]) + (PutMany(put, xs[1..][..k - 1]) + PutMany(put, xs[k..]))
          == put(xs[0]) + PutMany(put, xs[1..][..k - 1]) + PutMany(put, xs[k..]);
    }
  }

  lemma PutManyNone<T>(put: T -> seq<byte>)
    ensures PutMany(put, []) == []
  {
  }

  /** The first k + 1 pieces end with piece k, and never run past the whole. */
  lemma PutManyNext<T>(put: T -> seq<byte>, xs: seq<T>, k: nat)
    requires k < |xs|
    ensures PutMany(put, xs[..k + 1]) == PutMany(put, xs[..k]) + put(xs[k])
    ensures |PutMany(put, xs[..k + 1])| <= |PutMany(put, xs)|
  {
    assert xs[..k + 1] == xs[..k] + [xs[k]];
    PutManyAppend(put, xs[..k], xs[k]);
    PutManySplit(put, xs, k + 1);
  }

  /** One turn of a writing loop. */
  lemma {:induction false} PutManyAppend<T>(put: T -> seq<byte>, xs: seq<T>, x: T)
    ensures PutMany(put, xs + [x]) == PutMany(put, xs) + put(x)
  {
    if xs == [] {
      assert xs + [x] == [x];
      assert PutMany(put, [x]) == put(x) + PutMany(put, []);
    } else {
      PutManyAppend(put, xs[1..], x);
      assert (xs + [x])[1..] == xs[1..] + [x];
      assert PutMany(put, xs + [x]) == put(xs[0]) + (PutMany(put, xs[1..]) + put(x));
    }
  }
}
