/** The unbounded queue between notification producers and the notification handler
(queueHandler in rpcwebsocket.go). The slice is shifted in place, and two channel
variables that are nil or not decide which select cases can fire. */
module QueueHandler {

  import opened Options

  /** What the other ends of the channels do, in the order in which select notices it:
      an item arrives (with the reader ready for it or not), the reader is ready, the
      input is closed, or the quit channel is. */
  datatype Event<+T> = Arrive(item: T, readerReady: bool) | ReaderReady | InputClosed | Quit

  // ---------- What is promised: a plain queue ----------

  datatype Fifo<T> = Fifo(received: seq<T>, delivered: seq<T>, waiting: seq<T>)

  /** Nobody is served out of turn, and a ready reader is always served. */
  function Serve<T>(s: Fifo<T>, e: Event<T>): Fifo<T>
  {
    match e
    case Arrive(x, ready) =>
      var all := s.waiting + [x];
      if s.waiting == [] && ready then Fifo(s.received + [x], s.delivered + [x], [])
      else Fifo(s.received + [x], s.delivered, all)
    case ReaderReady =>
      if s.waiting == [] then s
      else s.(delivered := s.delivered + [s.waiting[0]], waiting := s.waiting[1..])
    case InputClosed => s
    case Quit => s
  }

  predicate Stops<T>(e: Event<T>) { e.InputClosed? || e.Quit? }

  /** The events up to the first one that ends the handler. */
  function ServeAll<T>(s: Fifo<T>, events: seq<Event<T>>): Fifo<T>
    decreases |events|
  {
    if events == [] || Stops(events[0]) then s else ServeAll(Serve(s, events[0]), events[1..])
  }

  function Arrivals<T>(events: seq<Event<T>>): seq<T>
  {
    if events == [] || Stops(events[0]) then []
    else (if events[0].Arrive? then [events[0].item] else []) + Arrivals(events[1..])
  }

  /** How often the reader can have been served. */
  function Chances<T>(events: seq<Event<T>>): nat
  {
    if events == [] || Stops(events[0]) then 0
    else
      (if events[0].ReaderReady? || (events[0].Arrive? && events[0].readerReady) then 1 else 0)
      + Chances(events[1..])
  }

  lemma ServeStep<T>(s: Fifo<T>, e: Event<T>)
    requires s.received == s.delivered + s.waiting && !Stops(e)
    ensures var t := Serve(s, e);
            && t.received == t.delivered + t.waiting
            && t.received == s.received + (if e.Arrive? then [e.item] else [])
            && s.delivered <= t.delivered
            && |t.delivered| <= |s.delivered| + if e.ReaderReady? || (e.Arrive? && e.readerReady) then 1 else 0
  {
  }

  lemma {:induction false} StaysInOrder<T>(s: Fifo<T>, events: seq<Event<T>>)
    requires s.received == s.delivered + s.waiting
    ensures var t := ServeAll(s, events); t.received == t.delivered + t.waiting
    decreases |events|
  {
    if events != [] && !Stops(events[0]) {
      ServeStep(s, events[0]);
      StaysInOrder(Serve(s, events[0]), events[1..]);
    }
  }

  lemma {:induction false} AllArrivalsReceived<T>(s: Fifo<T>, events: seq<Event<T>>)
    requires s.received == s.delivered + s.waiting
    ensures ServeAll(s, events).received == s.received + Arrivals(events)
    decreases |events|
  {
    if events != [] && !Stops(events[0]) {
      var added := if events[0].Arrive? then [events[0].item] else [];
      ServeStep(s, events[0]);
      AllArrivalsReceived(Serve(s, events[0]), events[1..]);
      assert (s.received + added) + Arrivals(events[1..]) == s.received + (added + Arrivals(events[1..]));
    }
  }

  lemma {:induction false} DeliveredOnce<T>(s: Fifo<T>, events: seq<Event<T>>)
    requires s.received == s.delivered + s.waiting
    ensures var t := ServeAll(s, events);
            s.delivered <= t.delivered && |t.delivered| <= |s.delivered| + Chances(events)
    decreases |events|
  {
    if events != [] && !Stops(events[0]) {
      ServeStep(s, events[0]);
      DeliveredOnce(Serve(s, events[0]), events[1..]);
    }
  }

  /** Over every run: what arrived is what was delivered followed by what waits. */
  lemma NothingLostOrReordered<T>(s: Fifo<T>, events: seq<Event<T>>)
    requires s.received == s.delivered + s.waiting
    ensures var t := ServeAll(s, events);
            && t.received == t.delivered + t.waiting
            && t.received == s.received + Arrivals(events)
            && s.delivered <= t.delivered
            && |t.delivered| <= |s.delivered| + Chances(events)
  {
    StaysInOrder(s, events);
    AllArrivalsReceived(s, events);
    DeliveredOnce(s, events);
  }

  lemma {:induction false} ServeOneMore<T>(s: Fifo<T>, events: seq<Event<T>>, e: Event<T>)
    requires forall x | x in events :: !Stops(x)
    ensures ServeAll(s, events + [e]) == if Stops(e) then ServeAll(s, events) else Serve(ServeAll(s, events), e)
    decreases |events|
  {
    if events == [] {
      assert events + [e] == [e] && [e][1..] == [];
    } else {
      assert events[0] in events && (events + [e])[1..] == events[1..] + [e];
      ServeOneMore(Serve(s, events[0]), events[1..], e);
    }
  }

  /** After any run from the empty queue: a ready reader gets the oldest item not yet
      delivered, if there is one; an item that arrives is handed on at once exactly when
      the reader is ready and has had all the others. */
  lemma ServedNext<T>(events: seq<Event<T>>, e: Event<T>)
    requires forall x | x in events :: !Stops(x)
    ensures var s := ServeAll(Fifo([], [], []), events);
            var t := ServeAll(Fifo([], [], []), events + [e]);
            && s.received == Arrivals(events)
            && t.delivered == s.delivered +
                 match e
                 case Arrive(x, ready) => if ready && |s.delivered| == |Arrivals(events)| then [x] else []
                 case ReaderReady =>
                   if |s.delivered| < |Arrivals(events)| then [Arrivals(events)[|s.delivered|]] else []
                 case _ => []
  {
    NothingLostOrReordered(Fifo([], [], []), events);
    ServeOneMore(Fifo([], [], []), events, e);
    var s := ServeAll(Fifo([], [], []), events);
    assert [] + Arrivals(events) == Arrivals(events);
    assert s.received == s.delivered + s.waiting;
    assert s.delivered + [] == s.delivered;
  }

  /** Ready as often as items wait, the reader gets them all, the oldest first. */
  lemma {:induction false} Drained<T>(s: Fifo<T>, n: nat)
    ensures var t := ServeAll(s, seq(n, _ => ReaderReady));
            var k := if n < |s.waiting| then n else |s.waiting|;
            t == Fifo(s.received, s.delivered + s.waiting[..k], s.waiting[k..])
    decreases n
  {
    var turns: seq<Event<T>> := seq(n, _ => ReaderReady);
    if n == 0 {
      assert s.delivered + s.waiting[..0] == s.delivered && s.waiting[0..] == s.waiting;
    } else {
      assert turns[1..] == seq(n - 1, _ => ReaderReady);
      Drained(Serve(s, ReaderReady), n - 1);
      if s.waiting != [] {
        var k := if n < |s.waiting| then n else |s.waiting|;
        assert s.waiting[1..][k - 1..] == s.waiting[k..];
        assert s.delivered + [s.waiting[0]] + s.waiting[1..][..k - 1] == s.delivered + s.waiting[..k];
      }
    }
  }

  // ---------- What the code does ----------

  class Handler<T(==)> {
    /** The slice q: the first len cells of buf. */
    var buf: array<Option<T>>
    var len: nat
    /** Whether the variables dequeue and skipQueue hold the output channel or nil. */
    var dequeue: bool
    var skipQueue: bool
    var next: Option<T>
    var closed: bool
    ghost var view: Fifo<T>

    ghost predicate Valid()
      reads `buf, `len, `dequeue, `skipQueue, `next, `view, buf
    {
      && len == |view.waiting| <= buf.Length
      && (forall i | 0 <= i < len :: buf[i] == Some(view.waiting[i]))
      && (forall i | len <= i < buf.Length :: buf[i] == None)
      && (dequeue <==> len > 0)
      && (skipQueue <==> len == 0)
      && (dequeue ==> next == buf[0])
      && view.received == view.delivered + view.waiting
    }

    constructor ()
      ensures Valid() && fresh(buf) && view == Fifo([], [], []) && !closed
    {
      buf := new Option<T>[0];
      len, dequeue, skipQueue, next, closed := 0, false, true, None, false;
      view := Fifo([], [], []);
    }

    /** append(q, n): in place when there is room, otherwise into a larger array. */
    method Append(x: T)
      requires len <= buf.Length
      modifies this`buf, this`len, buf
      ensures fresh(buf) || buf == old(buf)
      ensures len == old(len) + 1 <= buf.Length
      ensures buf[..len] == old(buf[..len]) + [Some(x)]
      ensures forall i | len <= i < buf.Length :: buf[i] == if buf == old(buf) then old(buf[i]) else None
    {
      if len == buf.Length {
        var bigger := new Option<T>[2 * len + 1](_ => None);
        forall i | 0 <= i < len {
          bigger[i] := buf[i];
        }
        buf := bigger;
      }
      buf[len] := Some(x);
      len := len + 1;
    }

    /** copy(q, q[1:]), then the last cell is cleared and cut off. */
    method Shift()
      requires 0 < len <= buf.Length
      modifies this`len, buf
      ensures len == old(len) - 1
      ensures forall k | 0 <= k < len :: buf[k] == old(buf[k + 1])
      ensures buf[len] == None
      ensures forall i | len < i < buf.Length :: buf[i] == old(buf[i])
    {
      var i := 0;
      while i < len - 1
        invariant 0 <= i <= len - 1
        invariant forall k | 0 <= k < i :: buf[k] == old(buf[k + 1])
        invariant forall k | i <= k < buf.Length :: buf[k] == old(buf[k])
        modifies buf
      {
        buf[i] := buf[i + 1];
        i := i + 1;
      }
      buf[len - 1] := None;
      len := len - 1;
    }

    /** An item arrives: handed straight on when the queue is empty and the reader is
        ready, queued otherwise. */
    method OnArrive(x: T, readerReady: bool) returns (out: Option<T>)
      requires Valid()
      modifies this, buf
      ensures Valid() && (fresh(buf) || buf == old(buf)) && closed == old(closed)
      ensures view == Serve(old(view), Arrive(x, readerReady))
      ensures out == if old(view).waiting == [] && readerReady then Some(x) else None
    {
      if skipQueue && readerReady {
        out := Some(x);
      } else {
        out := None;
        Append(x);
        dequeue, skipQueue := true, false;
        next := buf[0];
        assert forall i | 0 <= i < len :: buf[i] == buf[..len][i];
      }
      view := Serve(view, Arrive(x, readerReady));
    }

    /** The reader takes what the select case offers, if it offers anything. */
    method OnReaderReady() returns (out: Option<T>)
      requires Valid()
      modifies this, buf
      ensures Valid() && buf == old(buf) && closed == old(closed)
      ensures view == Serve(old(view), ReaderReady)
      ensures out == if old(view).waiting == [] then None else Some(old(view).waiting[0])
    {
      out := None;
      if dequeue {
        out := next;
        Shift();
        view := Serve(view, ReaderReady);
        if len == 0 {
          dequeue, skipQueue := false, true;
        } else {
          next := buf[0];
        }
      }
    }

    /** The handler loop. Every item put on the output is the oldest one not yet put
        there, and the output is closed only when the handler stops. */
    method Run(events: seq<Event<T>>) returns (sent: seq<T>)
      requires Valid() && !closed
      modifies this, buf
      ensures Valid() && (fresh(buf) || buf == old(buf))
      ensures view == ServeAll(old(view), events)
      ensures view.delivered == old(view).delivered + sent
      ensures closed <==> exists e :: e in events && Stops(e)
    {
      sent := [];
      var i := 0;
      ghost var start := view;
      hide Valid, From;
      FromEnds(start, events);
      while i < |events|
        invariant 0 <= i <= |events|
        invariant Valid() && (fresh(buf) || buf == old(buf)) && !closed
        invariant From(view, events, i) == ServeAll(start, events)
        invariant view.delivered == start.delivered + sent
        invariant forall k | 0 <= k < i :: !Stops(events[k])
      {
        FromStep(view, events, i);
        var out := None;
        match events[i] {
          case Arrive(x, ready) =>
            out := OnArrive(x, ready);
          case ReaderReady =>
            out := OnReaderReady();
          case _ =>
            closed := true;
            assert events[i] in events;
            return;
        }
        if out.Some? {
          sent := sent + [out.value];
        }
        i := i + 1;
      }
      FromEnds(view, events);
    }
  }

  /** What becomes of a queue over the events from i on. */
  ghost function From<T>(s: Fifo<T>, events: seq<Event<T>>, i: nat): Fifo<T>
    requires i <= |events|
  {
    ServeAll(s, events[i..])
  }

  lemma FromEnds<T>(s: Fifo<T>, events: seq<Event<T>>)
    ensures From(s, events, 0) == ServeAll(s, events) && From(s, events, |events|) == s
  {
    assert events[0..] == events;
  }

  lemma FromStep<T>(s: Fifo<T>, events: seq<Event<T>>, i: nat)
    requires i < |events|
    ensures From(s, events, i) == if Stops(events[i]) then s else From(Serve(s, events[i]), events, i + 1)
  {
    assert events[i..][1..] == events[i + 1..];
  }
}
