/** The request bookkeeping of the RPC client on the heap (rpcclient/infrastructure.go): a
map from ids to elements of a linked list, and channels that take one response each. Every
method is one section under the request lock, or is made of such sections. */
module RequestTracker {

  import opened LinkedLists
  import opened NtfnState
  import opened Options
  import opened Requests

  /** make(chan *Response, 1). A send when it is full would block. */
  class ResponseChan {
    var buffer: seq<Response>

    constructor ()
      ensures buffer == []
    {
      buffer := [];
    }

    method Send(r: Response)
      requires |buffer| < 1
      modifies this
      ensures buffer == old(buffer) + [r]
    {
      buffer := buffer + [r];
    }
  }

  /** A channel that is only ever closed. Closing it twice would panic. */
  class Signal {
    var closed: bool

    constructor ()
      ensures !closed
    {
      closed := false;
    }

    method Close()
      requires !closed
      modifies this
      ensures closed
    {
      closed := true;
    }
  }

  type JsonRequest = Request<ResponseChan>

  function Ids(rs: seq<JsonRequest>): set<nat>
  {
    set i | 0 <= i < |rs| :: rs[i].id
  }

  function Channels(rs: seq<JsonRequest>): set<ResponseChan>
  {
    set i | 0 <= i < |rs| :: rs[i].responseChan
  }

  ghost predicate DistinctChannels(rs: seq<JsonRequest>)
  {
    forall i, j | 0 <= i < j < |rs| :: rs[i].responseChan != rs[j].responseChan
  }

  /** The map leads from the id of every listed request to its element, and from no other. */
  ghost predicate Indexes(index: map<nat, Element<JsonRequest>>, nodes: seq<Element<JsonRequest>>, rs: seq<JsonRequest>)
  {
    && |nodes| == |rs| && Distinct(nodes)
    && index.Keys == Ids(rs)
    && forall i | 0 <= i < |rs| :: index[rs[i].id] == nodes[i]
  }

  lemma IndexedIdsDiffer(index: map<nat, Element<JsonRequest>>, nodes: seq<Element<JsonRequest>>, rs: seq<JsonRequest>)
    requires Indexes(index, nodes, rs)
    ensures DistinctIds(rs)
  {
    forall i, j | 0 <= i < j < |rs| ensures rs[i].id != rs[j].id {
      assert index[rs[i].id] == nodes[i] && index[rs[j].id] == nodes[j];
    }
  }

  lemma IndexAdd(
    index: map<nat, Element<JsonRequest>>, nodes: seq<Element<JsonRequest>>, rs: seq<JsonRequest>,
    r: JsonRequest, e: Element<JsonRequest>)
    requires Indexes(index, nodes, rs) && r.id !in index && e !in nodes
    ensures Indexes(index[r.id := e], nodes + [e], rs + [r])
  {
    var all := rs + [r];
    assert all[|rs|] == r;
    forall id | id in Ids(rs) ensures id in Ids(all) {
      var i :| 0 <= i < |rs| && rs[i].id == id;
      assert all[i].id == id;
    }
  }

  lemma CutIds(rs: seq<JsonRequest>, i: nat)
    requires DistinctIds(rs) && i < |rs|
    ensures Ids(Cut(rs, i)) == Ids(rs) - {rs[i].id}
  {
    CutAt(rs, i);
    hide Cut;
    var rest := Cut(rs, i);
    forall x | x in Ids(rs) && x != rs[i].id ensures x in Ids(rest) {
      var k :| 0 <= k < |rs| && rs[k].id == x;
      assert x == rest[if k < i then k else k - 1].id;
    }
  }

  lemma IndexCut(
    index: map<nat, Element<JsonRequest>>, nodes: seq<Element<JsonRequest>>, rs: seq<JsonRequest>, i: nat)
    requires Indexes(index, nodes, rs) && i < |rs|
    ensures Indexes(index - {rs[i].id}, Cut(nodes, i), Cut(rs, i))
    ensures Cut(rs, i) == Without(rs, rs[i].id)
  {
    IndexedIdsDiffer(index, nodes, rs);
    WithoutAt(rs, i);
    DistinctCut(nodes, i);
    CutAt(rs, i);
    CutAt(nodes, i);
    CutIds(rs, i);
    hide Cut, Without, Distinct, DistinctIds;
    var less, rest := index - {rs[i].id}, Cut(rs, i);
    assert less.Keys == index.Keys - {rs[i].id};
    forall k | 0 <= k < |rest| ensures less[rest[k].id] == Cut(nodes, i)[k] {
      assert rest[k].id in Ids(rest);
      assert rest[k] == rs[if k < i then k else k + 1];
    }
  }

  /** No two requests share a channel, and none has been answered. */
  ghost predicate Unanswered(rs: seq<JsonRequest>)
    reads Channels(rs)
  {
    DistinctChannels(rs) && forall c | c in Channels(rs) :: c.buffer == []
  }

  lemma UnansweredAdd(rs: seq<JsonRequest>, r: JsonRequest)
    requires Unanswered(rs) && r.responseChan !in Channels(rs) && r.responseChan.buffer == []
    ensures Unanswered(rs + [r])
  {
    var all := rs + [r];
    forall k | 0 <= k < |rs| ensures all[k].responseChan != r.responseChan {
      assert all[k].responseChan in Channels(rs);
    }
    forall c | c in Channels(all) ensures c.buffer == [] {
      var k :| 0 <= k < |all| && all[k].responseChan == c;
      assert k < |rs| ==> c in Channels(rs);
    }
  }

  lemma ChannelsPrepend(r: JsonRequest, rs: seq<JsonRequest>)
    requires DistinctChannels(rs) && r.responseChan !in Channels(rs)
    ensures DistinctChannels([r] + rs) && Channels([r] + rs) == Channels(rs) + {r.responseChan}
  {
    var all := [r] + rs;
    assert all[0] == r && forall k | 0 <= k < |rs| :: all[k + 1] == rs[k];
    forall k | 0 <= k < |rs| ensures rs[k].responseChan in Channels(all) {
      assert all[k + 1].responseChan in Channels(all);
    }
    assert all[0].responseChan in Channels(all);
    forall i, j | 0 <= i < j < |all| ensures all[i].responseChan != all[j].responseChan {
      assert rs[j - 1].responseChan in Channels(rs);
    }
  }

  lemma ChannelsSplit(rs: seq<JsonRequest>)
    requires rs != [] && DistinctChannels(rs)
    ensures DistinctChannels(rs[1..]) && rs[0].responseChan !in Channels(rs[1..])
    ensures Channels(rs) == Channels(rs[1..]) + {rs[0].responseChan}
  {
    ChannelsPrepend(rs[0], rs[1..]);
    assert [rs[0]] + rs[1..] == rs;
  }

  lemma {:induction false} ChannelsWithout(rs: seq<JsonRequest>, id: nat)
    requires DistinctChannels(rs)
    ensures DistinctChannels(Without(rs, id)) && Channels(Without(rs, id)) <= Channels(rs)
    ensures forall r | r in rs && r.id == id :: r.responseChan !in Channels(Without(rs, id))
  {
    if rs != [] {
      ChannelsSplit(rs);
      ChannelsWithout(rs[1..], id);
      hide Channels, DistinctChannels;
      if rs[0].id != id {
        ChannelsPrepend(rs[0], Without(rs[1..], id));
      }
      assert rs == [rs[0]] + rs[1..];
    }
  }

  /** What a walk over rs leaves of it once it has dealt with the first n requests and
      kept them all. */
  function Walked(rs: seq<JsonRequest>, n: nat): seq<JsonRequest>
    requires n <= |rs|
  {
    rs[..n] + Resent(rs[n..])
  }

  lemma WalkKeeps(rs: seq<JsonRequest>, n: nat, kept: seq<JsonRequest>)
    requires n < |rs| && !Ignored(rs[n]) && |kept| == n && kept <= rs
    ensures Walked(rs, n + 1) == Walked(rs, n)
    ensures kept + [rs[n]] <= rs
  {
    assert rs[n..][1..] == rs[n + 1..];
    assert rs[..n + 1] == rs[..n] + [rs[n]];
  }

  lemma WalkRemoves(rs: seq<JsonRequest>, n: nat, kept: seq<JsonRequest>)
    requires n < |rs| && Ignored(rs[n]) && |kept| == n && kept <= rs
    ensures Walked(Cut(rs, n), n) == Walked(rs, n)
    ensures kept <= Cut(rs, n)
  {
    assert rs[n..][1..] == rs[n + 1..];
    assert Cut(rs, n)[n..] == rs[n + 1..];
    assert Cut(rs, n)[..n] == rs[..n];
  }

  lemma WalkStarts(rs: seq<JsonRequest>)
    ensures Walked(rs, 0) == Resent(rs)
  {
    assert rs[0..] == rs;
  }

  lemma WalkEnds(rs: seq<JsonRequest>, kept: seq<JsonRequest>)
    requires kept <= rs && |kept| == |rs|
    ensures Walked(rs, |rs|) == rs == kept
  {
  }

  lemma {:induction false} ChannelsResent(rs: seq<JsonRequest>)
    requires DistinctChannels(rs)
    ensures DistinctChannels(Resent(rs)) && Channels(Resent(rs)) <= Channels(rs)
  {
    if rs != [] {
      ChannelsSplit(rs);
      ChannelsResent(rs[1..]);
      hide Channels, DistinctChannels;
      if !Ignored(rs[0]) {
        ChannelsPrepend(rs[0], Resent(rs[1..]));
      }
    }
  }

  class Client {
    const connEstablished: bool
    const disableAutoReconnect: bool
    const hasHandlers: bool
    const ntfnState: NotificationState
    const requestList: List<JsonRequest>
    const shutdown: Signal
    var requestMap: map<nat, Element<JsonRequest>>
    var disconnect: Signal
    var disconnected: bool

    ghost function Pending(): seq<JsonRequest>
      reads requestList
    {
      requestList.items
    }

    /** What the bookkeeping is made of. */
    ghost function Parts(): set<object>
      reads requestList
    {
      {this, requestList, requestList.root} + set i | 0 <= i < |requestList.nodes| :: requestList.nodes[i]
    }

    ghost predicate Table()
      reads `requestMap, requestList, requestList.root, requestList.nodes
    {
      requestList.Valid() && Indexes(requestMap, requestList.nodes, Pending())
    }

    ghost predicate Valid()
      reads Parts(), Channels(Pending()), shutdown, disconnect
    {
      && Table() && Unanswered(Pending())
      && (shutdown.closed ==> Pending() == [])
      && shutdown != disconnect && (disconnected <==> disconnect.closed)
    }

    constructor (connected: bool, noReconnect: bool, handlers: bool)
      ensures Valid() && Pending() == [] && !shutdown.closed && !disconnected
    {
      connEstablished, disableAutoReconnect, hasHandlers := connected, noReconnect, handlers;
      ntfnState := new NotificationState();
      requestList := new List();
      requestMap := map[];
      shutdown := new Signal();
      disconnect := new Signal();
      disconnected := false;
    }

    ghost function Place(id: nat): (i: nat)
      requires Table() && id in requestMap
      reads `requestMap, requestList, requestList.root, requestList.nodes
      ensures i < |Pending()| && Pending()[i].id == id && requestList.nodes[i] == requestMap[id]
    {
      assert id in Ids(Pending());
      var i :| 0 <= i < |Pending()| && Pending()[i].id == id; i
    }

    method Link(r: JsonRequest)
      requires Table() && r.id !in requestMap
      modifies Parts()
      ensures Table() && unchanged(`disconnect, `disconnected)
      ensures Pending() == old(Pending()) + [r]
      ensures fresh(Parts() - old(Parts()))
    {
      hide Indexes;
      var element := requestList.PushBack(r);
      IndexAdd(requestMap, old(requestList.nodes), old(Pending()), r, element);
      requestMap := requestMap[r.id := element];
    }

    method Unlink(id: nat, ghost i: nat) returns (r: JsonRequest)
      requires Table() && i < |Pending()| && Pending()[i].id == id && id in requestMap
      modifies Parts()
      ensures Table() && unchanged(`disconnect, `disconnected)
      ensures Pending() == Without(old(Pending()), id) && r == old(Pending()[i])
      ensures Pending() == Cut(old(Pending()), i) && requestList.nodes == Cut(old(requestList.nodes), i)
      ensures fresh(Parts() - old(Parts()))
      ensures forall c | c in Channels(old(Pending())) :: c.buffer == old(c.buffer)
    {
      IndexCut(requestMap, requestList.nodes, Pending(), i);
      var element := requestMap[id];
      hide Indexes, Without, Cut;
      requestMap := requestMap - {id};
      r := requestList.Remove(element, i);
    }

    lemma NotListed(id: nat)
      requires Table() && id !in requestMap
      ensures Without(Pending(), id) == Pending() && forall p | p in Pending() :: p.id != id
    {
      forall p | p in Pending() ensures p.id != id {
        assert p.id in Ids(Pending());
      }
      WithoutAbsent(Pending(), id);
    }

    /** addRequest: refused once the client shuts down. */
    method AddRequest(r: JsonRequest) returns (err: Option<Response>)
      requires Valid() && r.id !in requestMap && r.responseChan !in Channels(Pending()) && r.responseChan.buffer == []
      modifies Parts()
      ensures Valid() && unchanged(`disconnect, `disconnected)
      ensures err == if shutdown.closed then Some(ErrClientShutdown) else None
      ensures Pending() == if shutdown.closed then old(Pending()) else old(Pending()) + [r]
    {
      hide Table, DistinctChannels;
      if shutdown.closed {
        return Some(ErrClientShutdown);
      }
      UnansweredAdd(Pending(), r);
      Link(r);
      err := None;
    }

    /** removeRequest. */
    method RemoveRequest(id: nat) returns (r: Option<JsonRequest>)
      requires Valid()
      modifies Parts()
      ensures Valid() && unchanged(`disconnect, `disconnected)
      ensures Pending() == Without(old(Pending()), id)
      ensures match r
              case None => forall p | p in old(Pending()) :: p.id != id
              case Some(p) => p in old(Pending()) && p.id == id && p.responseChan !in Channels(Pending())
    {
      hide Table, Without, Channels, DistinctChannels;
      if id !in requestMap {
        NotListed(id);
        return None;
      }
      ghost var i := Place(id);
      var request := Unlink(id, i);
      ChannelsWithout(old(Pending()), id);
      r := Some(request);
    }

    /** The loop in Disconnect and Shutdown that answers every pending request. */
    method FailPending(err: Response)
      requires Table() && Unanswered(Pending())
      modifies Channels(Pending())
      ensures Table()
      ensures forall c | c in Channels(Pending()) :: c.buffer == [err]
    {
      hide Indexes;
      var e := requestList.Front();
      ghost var i := 0;
      while e != null
        invariant 0 <= i <= |Pending()|
        invariant e == if i < |Pending()| then requestList.nodes[i] else null
        invariant forall k | 0 <= k < i :: Pending()[k].responseChan.buffer == [err]
        invariant forall k | i <= k < |Pending()| :: Pending()[k].responseChan.buffer == []
        decreases |Pending()| - i
      {
        var req := e.value.value;
        req.responseChan.Send(err);
        e := requestList.Next(e, i);
        i := i + 1;
      }
    }

    /** Every pending request has a channel of its own, and it is empty. */
    lemma PendingChannels()
      requires Valid()
      ensures forall r | r in Pending() :: r.responseChan in Channels(Pending()) && r.responseChan.buffer == []
      ensures forall r, q | r in Pending() && q in Pending() && r.responseChan == q.responseChan :: r == q
      ensures forall r, q | r in Pending() && q in Pending() && r.id == q.id :: r == q
    {
      IndexedIdsDiffer(requestMap, requestList.nodes, Pending());
      forall r | r in Pending() ensures r.responseChan in Channels(Pending()) {
        var i :| 0 <= i < |Pending()| && Pending()[i] == r;
      }
    }

    /** removeAllRequests. */
    method RemoveAllRequests()
      requires Table()
      modifies Parts()
      ensures Table() && Pending() == [] && unchanged(`disconnect, `disconnected)
    {
      requestMap := map[];
      requestList.Init();
    }

    /** doDisconnect: whether there was still a connection to give up. */
    method DoDisconnect() returns (needed: bool)
      requires shutdown != disconnect && (disconnected <==> disconnect.closed)
      modifies `disconnected, disconnect
      ensures needed == !old(disconnected)
      ensures disconnected && disconnect.closed
    {
      if disconnected {
        return false;
      }
      disconnect.Close();
      disconnected := true;
      needed := true;
    }

    /** doShutdown. */
    method DoShutdown() returns (needed: bool)
      modifies shutdown
      ensures needed == !old(shutdown.closed)
      ensures shutdown.closed
    {
      if shutdown.closed {
        return false;
      }
      shutdown.Close();
      needed := true;
    }

    /** Disconnect: without automatic reconnects, every pending request fails and the
        client shuts down. */
    method Disconnect()
      requires Valid()
      modifies Parts(), Channels(Pending()), shutdown, disconnect
      ensures Valid() && disconnect == old(disconnect) && disconnected
      ensures var over := disableAutoReconnect && !old(disconnected);
              && shutdown.closed == (old(shutdown.closed) || over)
              && Pending() == (if over then [] else old(Pending()))
              && forall c | c in old(Channels(Pending())) :: c.buffer == if over then [ErrClientDisconnect] else []
    {
      hide Table;
      var needed := DoDisconnect();
      if !needed {
        return;
      }
      if disableAutoReconnect {
        FailPending(ErrClientDisconnect);
        RemoveAllRequests();
        var _ := DoShutdown();
      }
    }

    /** Shutdown: every pending request fails, and nothing is added any more. */
    method Shutdown()
      requires Valid()
      modifies Parts(), Channels(Pending()), shutdown, disconnect
      ensures Valid() && disconnect == old(disconnect) && shutdown.closed && Pending() == []
      ensures disconnected == (old(disconnected) || !old(shutdown.closed))
      ensures forall c | c in old(Channels(Pending())) :: c.buffer == [ErrClientShutdown]
    {
      hide Table;
      var needed := DoShutdown();
      if !needed {
        return;
      }
      FailPending(ErrClientShutdown);
      RemoveAllRequests();
      var _ := DoDisconnect();
    }

    method First() returns (e: Element?<JsonRequest>)
      requires Table()
      ensures |requestList.nodes| == |Pending()|
      ensures e == if Pending() == [] then null else requestList.nodes[0]
    {
      e := requestList.Front();
    }

    method Successor(e: Element<JsonRequest>, ghost i: nat) returns (n: Element?<JsonRequest>)
      requires Table() && i < |Pending()| && requestList.nodes[i] == e
      ensures n == if i + 1 < |Pending()| then requestList.nodes[i + 1] else null
    {
      n := requestList.Next(e, i);
    }

    method Value(e: Element<JsonRequest>, ghost i: nat) returns (r: JsonRequest)
      requires Table() && i < |Pending()| && requestList.nodes[i] == e
      ensures r == Pending()[i] && r.id in requestMap
    {
      r := e.value.value;
    }

    /** Takes a request that is not sent again out of map and list. */
    method Drop(jReq: JsonRequest, ghost i: nat, ghost kept: seq<JsonRequest>)
      requires Table() && i < |Pending()| && Pending()[i] == jReq && jReq.id in requestMap
      requires Ignored(jReq) && |kept| == i && kept <= Pending()
      modifies Parts()
      ensures Table() && unchanged(`disconnect, `disconnected) && fresh(Parts() - old(Parts()))
      ensures |requestList.nodes| == |Pending()| == old(|Pending()|) - 1 && kept <= Pending()
      ensures Walked(Pending(), i) == old(Walked(Pending(), i))
      ensures i < |Pending()| ==>
        i + 1 < old(|requestList.nodes|) && requestList.nodes[i] == old(requestList.nodes[i + 1])
    {
      hide Indexes, Resent, Walked, Cut, Without;
      WalkRemoves(Pending(), i, kept);
      CutAt(requestList.nodes, i);
      CutAt(Pending(), i);
      var _ := Unlink(jReq.id, i);
    }

    /** The loop of resendRequests: with the successor saved beforehand, it takes the
        requests that are not sent again out of map and list, and returns the others. */
    method TakeResendable() returns (reqs: seq<JsonRequest>)
      requires Table()
      modifies Parts()
      ensures Table() && unchanged(`disconnect, `disconnected)
      ensures Pending() == reqs == Resent(old(Pending()))
    {
      hide Table, Resent, Walked, Cut;
      reqs := [];
      WalkStarts(Pending());
      var e := First();
      while e != null
        invariant Table() && unchanged(`disconnect, `disconnected) && fresh(Parts() - old(Parts()))
        invariant |requestList.nodes| == |Pending()| && reqs <= Pending()
        invariant e == if |reqs| < |Pending()| then requestList.nodes[|reqs|] else null
        invariant Walked(Pending(), |reqs|) == Resent(old(Pending()))
        decreases |Pending()| - |reqs|
      {
        ghost var i := |reqs|;
        var nextElem := Successor(e, i);
        var jReq := Value(e, i);
        if jReq.methodName in IGNORE_RESENDS {
          Drop(jReq, i, reqs);
        } else {
          WalkKeeps(Pending(), i, reqs);
          reqs := reqs + [jReq];
        }
        e := nextElem;
      }
      WalkEnds(Pending(), reqs);
    }

    /** The section under the lock in resendRequests. */
    method Resend() returns (reqs: seq<JsonRequest>)
      requires Valid()
      modifies Parts()
      ensures Valid() && unchanged(`disconnect, `disconnected)
      ensures Pending() == reqs == Resent(old(Pending()))
      ensures forall r | r in old(Pending()) :: r in reqs <==> r.methodName != "rescan"
      ensures Sublist(reqs, old(Pending()))
    {
      hide Table;
      reqs := TakeResendable();
      ChannelsResent(old(Pending()));
      RescansAreNotResent(old(Pending()));
    }

    /** sendRequest up to the point where the command goes out: whether it does. */
    method SendRequest(r: JsonRequest) returns (tracked: bool)
      requires Valid() && r.id !in requestMap && r.responseChan !in Channels(Pending()) && r.responseChan.buffer == []
      modifies Parts(), r.responseChan
      ensures Valid() && unchanged(`disconnect, `disconnected)
      ensures tracked == (connEstablished && !shutdown.closed)
      ensures Pending() == if tracked then old(Pending()) + [r] else old(Pending())
      ensures r.responseChan.buffer ==
        if tracked then [] else if connEstablished then [ErrClientShutdown] else [ErrClientNotConnected]
    {
      hide Table;
      if !connEstablished {
        r.responseChan.Send(ErrClientNotConnected);
        return false;
      }
      var err := AddRequest(r);
      if err.Some? {
        r.responseChan.Send(err.value);
        return false;
      }
      tracked := true;
    }

    /** handleMessage for a response: an id that is no natural number or belongs to no
        pending request is ignored; otherwise the one request with it gets the reply, and
        its command is remembered if it registers for notifications. */
    method HandleResponse(id: real, result: string, failed: bool)
      requires Valid()
      modifies Parts(), Channels(Pending()), ntfnState
      ensures Valid() && unchanged(`disconnect, `disconnected)
      ensures var known := 0.0 <= id && id == id.Floor as real;
              && Pending() == (if known then Without(old(Pending()), id.Floor) else old(Pending()))
              && (forall r | r in old(Pending()) ::
                    r.responseChan.buffer == if known && r.id == id.Floor then [Reply(result, failed)] else [])
              && (forall r | r in old(Pending()) && known && r.id == id.Floor ::
                    ntfnState.View()
                    == AfterReply(hasHandlers, old(ntfnState.View()), r.cmd, Reply(result, failed)))
              && ((forall r | r in old(Pending()) :: !(known && r.id == id.Floor)) ==>
                    ntfnState.View() == old(ntfnState.View()))
    {
      hide Table, Without, DistinctChannels;
      PendingChannels();
      if id < 0.0 || id != id.Floor as real {
        return;
      }
      var request := RemoveRequest(id.Floor);
      if request.None? {
        return;
      }
      ntfnState.Track(hasHandlers, request.value.cmd);
      request.value.responseChan.Send(Reply(result, failed));
    }

    /** The state part of wsReconnectHandler once it has dialed again. */
    method Reconnected()
      requires Valid()
      modifies `disconnect, `disconnected
      ensures Valid() && fresh(disconnect) && !disconnected && !disconnect.closed
    {
      disconnect := new Signal();
      disconnected := false;
    }
  }
}
