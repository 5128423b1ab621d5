/** The reader and the writer that the wire code works through. */
module Streams {
  import opened Bytes

  datatype Result<+T> = Success(value: T) | Failure(error: WireError)
  {
    predicate IsFailure() { Failure? }

    function PropagateFailure<U>(): Result<U>
      requires Failure?
    {
      Failure(error)
    }

    function Extract(): T
      requires Success?
    {
      value
    }
  }

  /** A read that did what the parse p of the same bytes says. */
  ghost predicate Follows<T>(res: Result<T>, p: Parsed<T>, unread: seq<byte>)
  {
    match p
    case Ok(v, rest) => res == Success(v) && unread == rest
    case Err(e) => res == Failure(e)
  }

  class Reader {
    var unread: seq<byte>

    constructor (data: seq<byte>)
      ensures unread == data
    {
      unread := data;
    }

    /** Reads exactly n bytes; a short stream is used up. */
    method ReadFull(n: nat) returns (res: Result<seq<byte>>)
      modifies this
      ensures Follows(res, Take(n, old(unread)), unread)
      ensures res.Failure? ==> unread == []
      ensures res == Failure(EOF) <==> n > 0 && old(unread) == []
      ensures res == Failure(UnexpectedEOF) <==> 0 < |old(unread)| < n
    {
      if n <= |unread| {
        res := Success(unread[..n]);
        unread := unread[n..];
      } else {
        res := Failure(if unread == [] then EOF else UnexpectedEOF);
        unread := [];
      }
    }

    /** Reads exactly n bytes into the front of buf. */
    method ReadInto(buf: array<byte>, n: nat) returns (res: Result<()>)
      requires n <= buf.Length
      modifies this, buf
      ensures match Take(n, old(unread))
              case Ok(v, rest) => res == Success(()) && unread == rest && buf[..n] == v
              case Err(e) => res == Failure(e) && unread == []
      ensures forall k | n <= k < buf.Length :: buf[k] == old(buf[k])
      ensures res == Failure(EOF) <==> n > 0 && old(unread) == []
      ensures res == Failure(UnexpectedEOF) <==> 0 < |old(unread)| < n
    {
      var m := if n <= |unread| then n else |unread|;
      ghost var before := buf[..];
      var i := 0;
      while i < m
        invariant 0 <= i <= m
        invariant buf[..i] == unread[..i]
        invariant forall k :: i <= k < buf.Length ==> buf[k] == before[k]
        modifies buf
      {
        buf[i] := unread[i];
        i := i + 1;
      }
      if m == n {
        res := Success(());
      } else {
        res := Failure(if unread == [] then EOF else UnexpectedEOF);
      }
      unread := unread[m..];
    }

    method ReadLE(n: nat) returns (res: Result<nat>)
      modifies this
      ensures Follows(res, GetLE(n, old(unread)), unread)
    {
      var raw :- ReadFull(n);
      res := Success(FromLE(raw));
    }

    method ReadU32() returns (res: Result<uint32>)
      modifies this
      ensures Follows(res, GetU32(old(unread)), unread)
    {
      var v :- ReadLE(4);
      Pow256Values();
      res := Success(v);
    }

    method ReadU64() returns (res: Result<uint64>)
      modifies this
      ensures Follows(res, GetU64(old(unread)), unread)
    {
      var v :- ReadLE(8);
      Pow256Values();
      res := Success(v);
    }
  }

  class Writer {
    var out: seq<byte>

    constructor ()
      ensures out == []
    {
      out := [];
    }

    method Write(data: seq<byte>)
      modifies this
      ensures out == old(out) + data
    {
      out := out + data;
    }
  }
}
