/** Canonical variable-length integers (wire/common.go). */
module VarInts {
  import opened Bytes
  import opened Streams

  const MAX_UINT64: nat := 0xffff_ffff_ffff_ffff

  function PutVarInt(v: nat): seq<byte>
  {
    if v < 0xfd then [v]
    else if v <= 0xffff then [0xfd] + LE(2, v)
    else if v <= 0xffff_ffff then [0xfe] + LE(4, v)
    else [0xff] + LE(8, v)
  }

  /** A value that a shorter form could have carried is refused. */
  function GetVarInt(b: seq<byte>): Parsed<nat>
  {
    var (d, r) :- Take(1, b);
    if d[0] == 0xff then
      var (v, rest) :- GetLE(8, r);
      if v < 0x1_0000_0000 then Err(NonCanonicalVarInt) else Ok(v, rest)
    else if d[0] == 0xfe then
      var (v, rest) :- GetLE(4, r);
      if v < 0x1_0000 then Err(NonCanonicalVarInt) else Ok(v, rest)
    else if d[0] == 0xfd then
      var (v, rest) :- GetLE(2, r);
      if v < 0xfd then Err(NonCanonicalVarInt) else Ok(v, rest)
    else
      Ok(d[0], r)
  }

  function VarIntSerializeSize(v: nat): (n: nat)
    ensures 1 <= n <= 9
  {
    if v < 0xfd then 1
    else if v <= 0xffff then 3
    else if v <= 0xffff_ffff then 5
    else 9
  }

  lemma VarIntSize(v: nat)
    ensures |PutVarInt(v)| == VarIntSerializeSize(v)
  {
  }

  lemma TaggedInverts(tag: byte, n: nat, v: nat, rest: seq<byte>)
    requires v < Pow256(n)
    ensures Take(1, [tag] + LE(n, v) + rest) == Ok([tag], LE(n, v) + rest)
    ensures GetLE(n, LE(n, v) + rest) == Ok(v, rest)
  {
    TakeInverts([tag], LE(n, v) + rest);
    assert [tag] + LE(n, v) + rest == [tag] + (LE(n, v) + rest);
    GetLEInverts(n, v, rest);
  }

  /** Reading back any uint64. */
  lemma VarIntRoundTrip(v: nat, rest: seq<byte>)
    requires v <= MAX_UINT64
    ensures GetVarInt(PutVarInt(v) + rest) == Ok(v, rest)
  {
    Pow256Values();
    if v < 0xfd {
      TakeInverts([v], rest);
    } else if v <= 0xffff {
      TaggedInverts(0xfd, 2, v, rest);
    } else if v <= 0xffff_ffff {
      TaggedInverts(0xfe, 4, v, rest);
    } else {
      TaggedInverts(0xff, 8, v, rest);
    }
  }

  /** Only the canonical bytes of a uint64 are ever accepted. */
  lemma VarIntSound(b: seq<byte>)
    requires GetVarInt(b).Ok?
    ensures GetVarInt(b).value <= MAX_UINT64
    ensures b == PutVarInt(GetVarInt(b).value) + GetVarInt(b).rest
  {
    Pow256Values();
    var r := b[1..];
    assert b == [b[0]] + r;
    if b[0] >= 0xfd {
      GetLESound(if b[0] == 0xff then 8 else if b[0] == 0xfe then 4 else 2, r);
    }
  }

  /** The accepted strings are exactly the written ones followed by anything. */
  lemma VarIntAccepts(b: seq<byte>)
    ensures GetVarInt(b).Ok? <==> exists v: nat, rest :: v <= MAX_UINT64 && b == PutVarInt(v) + rest
  {
    if GetVarInt(b).Ok? {
      VarIntSound(b);
    }
    forall v: nat, rest | v <= MAX_UINT64 && b == PutVarInt(v) + rest
      ensures GetVarInt(b).Ok?
    {
      VarIntRoundTrip(v, rest);
    }
  }

  method ReadVarInt(r: Reader) returns (res: Result<nat>)
    modifies r
    ensures Follows(res, GetVarInt(old(r.unread)), r.unread)
    ensures res.Success? ==> res.value <= MAX_UINT64
  {
    ghost var b := r.unread;
    var d :- r.ReadFull(1);
    var v, min;
    match d[0] {
      case 0xff =>
        v :- r.ReadLE(8);
        min := 0x1_0000_0000;
      case 0xfe =>
        v :- r.ReadLE(4);
        min := 0x1_0000;
      case 0xfd =>
        v :- r.ReadLE(2);
        min := 0xfd;
      case x =>
        v, min := x, 0;
    }
    if v < min {
      return Failure(NonCanonicalVarInt);
    }
    VarIntSound(b);
    res := Success(v);
  }

  method WriteVarInt(w: Writer, v: nat)
    modifies w
    ensures w.out == old(w.out) + PutVarInt(v)
    ensures |w.out| == |old(w.out)| + VarIntSerializeSize(v)
  {
    hide LE;
    VarIntSize(v);
    if v < 0xfd {
      w.Write([v]);
    } else if v <= 0xffff {
      w.Write([0xfd]);
      w.Write(LE(2, v));
    } else if v <= 0xffff_ffff {
      w.Write([0xfe]);
      w.Write(LE(4, v));
    } else {
      w.Write([0xff]);
      w.Write(LE(8, v));
    }
    assert w.out == old(w.out) + PutVarInt(v);
  }
}
