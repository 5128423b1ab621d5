/** The websocket RPC client as a state machine (rpcclient/infrastructure.go): callers, input
handlers, disconnects, shutdowns and the reconnect handler take turns. A step is a section
under the request lock or the connection mutex, a read, or one send on a response channel;
between two steps anything may happen elsewhere. A ledger records what became of every
request. */
module ClientProtocol {

  import opened NtfnState
  import opened Options
  import opened Requests
  import opened Runs

  /** What became of a request. */
  datatype Fate =
    | Issued                // has its id, and is on its way to addRequest
    | Refused(r: Response)  // not added; the caller is about to put r on the channel
    | Pending               // in the request list
    | Taken(r: Response)    // removed by a reader that is about to put r on the channel
    | Answered(r: Response) // r was put on the channel
    | Dropped               // taken off the list after a reconnect, with no answer

  /** The channel has room for one response; received is what was read from it. */
  datatype Entry<C> = Entry(request: Request<C>, fate: Fate, buffer: seq<Response>, received: seq<Response>)

  /** Who holds the request lock between two steps. */
  datatype Lock =
    | Free
    | Failing(err: Response, next: nat)  // answering the list with err, next entry first
    | Closing                            // Shutdown, about to call doDisconnect

  datatype Reconnector = Waiting | Checking | Dialing | Over

  datatype State<C> = State(
    connEstablished: bool,
    disableAutoReconnect: bool,
    lastId: nat,
    ledger: map<nat, Entry<C>>,
    index: map<nat, Request<C>>,  // requestMap
    pending: seq<Request<C>>,     // requestList
    lock: Lock,
    shutdown: bool,
    shutdownCloses: nat,     // how often the shutdown channel was closed
    disconnected: bool,
    closes: nat,             // how often the current disconnect channel was closed
    earlier: seq<nat>,       // how often each of its predecessors was closed
    disconnecting: nat,      // Disconnect calls between doDisconnect and the request lock
    resending: nat,          // resendRequests goroutines not yet at the request lock
    testing: nat,            // input handlers about to test for shutdown
    reading: nat,            // input handlers in a read or in handleMessage
    leaving: nat,            // input handlers about to call Disconnect and end
    reconnector: Reconnector)

  function Start<C>(connected: bool, noReconnect: bool): State<C>
  {
    State(connected, noReconnect, 0, map[], map[], [], Free, false, 0, false, 0, [], 0, 0,
          if connected then 1 else 0, 0, 0,
          if connected && !noReconnect then Waiting else Over)
  }

  datatype Step<C> =
    | SkipId                                         // an id whose command did not marshal
    | Issue(methodName: string, cmd: Command, responseChan: C)
    | Submit(id: nat)                                // the checks of sendRequest and addRequest
    | Take(id: nat, reply: Response)                 // removeRequest for a reply from the server
    | Send(id: nat)                                  // the send on a request's channel
    | Receive(id: nat)                               // ReceiveFuture
    | DoDisconnect                                   // doDisconnect, called by Disconnect
    | DisconnectLocked                               // Disconnect takes the request lock
    | ShutdownLocked                                 // Shutdown takes the request lock
    | FailNext                                       // one round of the loop over the list
    | FailDone                                       // the loop ends; removeAllRequests
    | CloseConnection                                // doDisconnect, called by Shutdown
    | ResendLocked                                   // the section under the lock in resendRequests
    | GiveUpResending                                // resendRequests disconnects instead
    | TestShutdown | ReadOk | ReadFails | Leave      // an input handler
    | NoticeDisconnect | NoticeShutdown | PassCheck | DialFails | DialSucceeds

  /** When a step can be taken. Sends wait for room, and whoever needs the request lock for it. */
  predicate Enabled<C>(s: State<C>, step: Step<C>)
  {
    match step
    case SkipId => true
    case Issue(_, _, _) => true
    case Submit(id) => id in s.ledger && s.ledger[id].fate.Issued? && (s.connEstablished ==> s.lock.Free?)
    case Take(_, reply) => s.connEstablished && s.reading > 0 && s.lock.Free? && reply.Reply?
    case Send(id) =>
      id in s.ledger && (s.ledger[id].fate.Refused? || s.ledger[id].fate.Taken?) && |s.ledger[id].buffer| < 1
    case Receive(id) => id in s.ledger && s.ledger[id].buffer != []
    case DoDisconnect => true
    case DisconnectLocked => s.lock.Free? && s.disconnecting > 0
    case ShutdownLocked => s.lock.Free?
    case FailNext =>
      && s.lock.Failing? && s.lock.next < |s.pending|
      && s.pending[s.lock.next].id in s.ledger && |s.ledger[s.pending[s.lock.next].id].buffer| < 1
    case FailDone => s.lock.Failing? && s.lock.next >= |s.pending|
    case CloseConnection => s.lock.Closing?
    case ResendLocked => s.lock.Free? && s.resending > 0
    case GiveUpResending => s.resending > 0
    case TestShutdown => s.testing > 0
    case ReadOk => s.reading > 0
    case ReadFails => s.reading > 0
    case Leave => s.leaving > 0
    case NoticeDisconnect => s.reconnector.Waiting? && s.closes > 0
    case NoticeShutdown => (s.reconnector.Waiting? || s.reconnector.Checking?) && s.shutdown
    case PassCheck => s.reconnector.Checking? && !s.shutdown
    case DialFails => s.reconnector.Dialing?
    case DialSucceeds => s.reconnector.Dialing?
  }

  function Put<C>(s: State<C>, id: nat, r: Response): State<C>
    requires id in s.ledger
  {
    var e := s.ledger[id];
    s.(ledger := s.ledger[id := e.(fate := Answered(r), buffer := e.buffer + [r])])
  }

  function SetFate<C>(s: State<C>, id: nat, fate: Fate): State<C>
    requires id in s.ledger
  {
    s.(ledger := s.ledger[id := s.ledger[id].(fate := fate)])
  }

  /** doDisconnect: closes the current disconnect channel unless that was done. */
  function CloseDisconnect<C>(s: State<C>): State<C>
  {
    if s.disconnected then s else s.(disconnected := true, closes := s.closes + 1)
  }

  /** The first half of Disconnect. */
  function HangUp<C>(s: State<C>): State<C>
  {
    if s.disconnected then s else CloseDisconnect(s).(disconnecting := s.disconnecting + 1)
  }

  /** doShutdown. */
  function CloseShutdown<C>(s: State<C>): State<C>
  {
    if s.shutdown then s else s.(shutdown := true, shutdownCloses := s.shutdownCloses + 1)
  }

  function IgnoredIds<C>(rs: seq<Request<C>>): set<nat>
  {
    set i | 0 <= i < |rs| && Ignored(rs[i]) :: rs[i].id
  }

  function Drop<C>(ledger: map<nat, Entry<C>>, ids: set<nat>): map<nat, Entry<C>>
  {
    map id | id in ledger :: if id in ids then ledger[id].(fate := Dropped) else ledger[id]
  }

  /** Steps of the input handlers, of the reconnect handler, and of a resendRequests that
      gives up. */
  predicate HandlerStep<C>(step: Step<C>)
  {
    || step.GiveUpResending? || step.TestShutdown? || step.ReadOk? || step.ReadFails? || step.Leave?
    || step.NoticeDisconnect? || step.NoticeShutdown? || step.PassCheck? || step.DialFails? || step.DialSucceeds?
  }

  /** None of them changes the requests or the shutdown channel. */
  function HandlerNext<C>(s: State<C>, step: Step<C>): (t: State<C>)
    requires HandlerStep(step) && Enabled(s, step)
    ensures t.ledger == s.ledger && t.index == s.index && t.pending == s.pending && t.lastId == s.lastId
    ensures t.lock == s.lock && t.shutdown == s.shutdown && t.shutdownCloses == s.shutdownCloses
  {
    match step
    case GiveUpResending => HangUp(s.(resending := s.resending - 1))
    case TestShutdown =>
      var t := s.(testing := s.testing - 1);
      if s.shutdown then t.(leaving := s.leaving + 1) else t.(reading := s.reading + 1)
    case ReadOk => s.(reading := s.reading - 1, testing := s.testing + 1)
    case ReadFails => s.(reading := s.reading - 1, leaving := s.leaving + 1)
    case Leave => HangUp(s.(leaving := s.leaving - 1))
    case NoticeDisconnect => s.(reconnector := Checking)
    case NoticeShutdown => s.(reconnector := Over)
    case PassCheck => s.(reconnector := Dialing)
    case DialFails => s.(reconnector := Checking)
    case DialSucceeds =>
      s.(disconnected := false, closes := 0, earlier := s.earlier + [s.closes],
         resending := s.resending + 1, testing := s.testing + 1, reconnector := Waiting)
  }

  function Next<C>(s: State<C>, step: Step<C>): State<C>
    requires Enabled(s, step)
  {
    match step
    case SkipId => s.(lastId := s.lastId + 1)
    case Issue(m, cmd, c) =>
      var id := s.lastId + 1;
      s.(lastId := id, ledger := s.ledger[id := Entry(Request(id, m, cmd, c), Issued, [], [])])
    case Submit(id) =>
      if !s.connEstablished then SetFate(s, id, Refused(ErrClientNotConnected))
      else if s.shutdown then SetFate(s, id, Refused(ErrClientShutdown))
      else
        var r := s.ledger[id].request;
        SetFate(s, id, Pending).(pending := s.pending + [r], index := s.index[id := r])
    case Take(id, reply) =>
      if id in s.index && id in s.ledger
      then SetFate(s, id, Taken(reply)).(pending := Without(s.pending, id), index := s.index - {id})
      else s
    case Send(id) => Put(s, id, s.ledger[id].fate.r)
    case Receive(id) =>
      var e := s.ledger[id];
      s.(ledger := s.ledger[id := e.(buffer := e.buffer[1..], received := e.received + [e.buffer[0]])])
    case DoDisconnect => HangUp(s)
    case DisconnectLocked =>
      var t := s.(disconnecting := s.disconnecting - 1);
      if s.disableAutoReconnect then t.(lock := Failing(ErrClientDisconnect, 0)) else t
    case ShutdownLocked =>
      if s.shutdown then s else CloseShutdown(s).(lock := Failing(ErrClientShutdown, 0))
    case FailNext =>
      Put(s, s.pending[s.lock.next].id, s.lock.err).(lock := Failing(s.lock.err, s.lock.next + 1))
    case FailDone =>
      var t := s.(pending := [], index := map[]);
      if s.lock.err == ErrClientDisconnect then CloseShutdown(t).(lock := Free) else t.(lock := Closing)
    case CloseConnection => CloseDisconnect(s).(lock := Free)
    case ResendLocked =>
      var dropped := IgnoredIds(s.pending);
      s.(resending := s.resending - 1, pending := Resent(s.pending),
         index := s.index - dropped, ledger := Drop(s.ledger, dropped))
    case _ => HandlerNext(s, step)
  }

  function Advance<C>(s: State<C>, step: Step<C>): Option<State<C>>
  {
    if Enabled(s, step) then Some(Next(s, step)) else None
  }

  // ---------- The invariant ----------

  /** Each request has been answered at most once, with the response its fate names. */
  ghost predicate EntryInv<C>(id: nat, lastId: nat, e: Entry<C>)
  {
    && 0 < id <= lastId && e.request.id == id
    && e.received + e.buffer == (if e.fate.Answered? then [e.fate.r] else [])
    && (e.fate.Dropped? ==> Ignored(e.request))
  }

  ghost predicate LedgerInv<C>(ledger: map<nat, Entry<C>>, lastId: nat)
  {
    forall id | id in ledger :: EntryInv(id, lastId, ledger[id])
  }

  /** Listed requests are pending, but for those the failing loop has passed. */
  function ListedFate(lock: Lock, i: nat): Fate
  {
    if lock.Failing? && i < lock.next then Answered(lock.err) else Pending
  }

  ghost predicate IsListed<C>(ledger: map<nat, Entry<C>>, index: map<nat, Request<C>>, r: Request<C>, fate: Fate)
  {
    && r.id in ledger && ledger[r.id].request == r && ledger[r.id].fate == fate
    && r.id in index && index[r.id] == r
  }

  /** Map and list hold the same requests, which are the pending ones. */
  ghost predicate ListInv<C>(
    ledger: map<nat, Entry<C>>, index: map<nat, Request<C>>, pending: seq<Request<C>>, lock: Lock)
  {
    && DistinctIds(pending)
    && (forall i | 0 <= i < |pending| :: IsListed(ledger, index, pending[i], ListedFate(lock, i)))
    && (forall id | id in index :: index[id].id == id && index[id] in pending)
    && (forall id | id in ledger && ledger[id].fate.Pending? :: ledger[id].request.id == id && id in index)
  }

  ghost predicate LockInv<C>(s: State<C>)
  {
    && (s.lock.Failing? ==>
          && s.lock.next <= |s.pending|
          && (s.lock.err == ErrClientDisconnect || (s.lock.err == ErrClientShutdown && s.shutdown)))
    && (s.shutdown && !s.lock.Failing? ==> s.pending == [])
    && (s.lock.Closing? ==> s.shutdown)
  }

  ghost predicate CloseInv<C>(s: State<C>)
  {
    && s.shutdownCloses == (if s.shutdown then 1 else 0)
    && s.closes == (if s.disconnected then 1 else 0)
    && (forall c | c in s.earlier :: c == 1)
    && (s.reconnector.Checking? || s.reconnector.Dialing? ==> s.disconnected)
  }

  /** A client that does not reconnect stays disconnected; and once Shutdown has hung up,
      an open connection has an input handler that is about to close it. */
  ghost predicate ReaderInv<C>(s: State<C>)
  {
    && (s.disableAutoReconnect ==> s.reconnector.Over?)
    && (s.disableAutoReconnect && s.disconnecting > 0 ==> s.disconnected)
    && (s.lock.Failing? && s.lock.err == ErrClientDisconnect ==> s.disableAutoReconnect && s.disconnected)
    && (s.shutdown && s.lock.Free? && !s.disconnected ==> s.testing + s.leaving > 0)
  }

  ghost predicate Inv<C>(s: State<C>)
  {
    && LedgerInv(s.ledger, s.lastId) && ListInv(s.ledger, s.index, s.pending, s.lock)
    && LockInv(s) && CloseInv(s) && ReaderInv(s)
  }

  // ---------- Map and list, one kind of change at a time ----------

  predicate Underway(f: Fate) { f.Issued? || f.Refused? || f.Taken? }

  /** A change of an entry that is not listed, or one that keeps its fate. */
  lemma EntryChanges<C>(
    ledger: map<nat, Entry<C>>, index: map<nat, Request<C>>, pending: seq<Request<C>>, lock: Lock, id: nat, e: Entry<C>)
    requires ListInv(ledger, index, pending, lock)
    requires id in ledger ==> e.request == ledger[id].request
    requires (id in ledger && e.fate == ledger[id].fate)
          || ((id in ledger ==> Underway(ledger[id].fate)) && !e.fate.Pending?)
    ensures ListInv(ledger[id := e], index, pending, lock)
  {
    if id in index {
      var j :| 0 <= j < |pending| && pending[j] == index[id];
      assert IsListed(ledger, index, pending[j], ListedFate(lock, j));
    }
  }

  lemma Listing<C>(
    ledger: map<nat, Entry<C>>, index: map<nat, Request<C>>, pending: seq<Request<C>>, lock: Lock, id: nat)
    requires ListInv(ledger, index, pending, lock) && !lock.Failing?
    requires id in ledger && ledger[id].fate.Issued? && ledger[id].request.id == id
    ensures var r := ledger[id].request;
            ListInv(ledger[id := ledger[id].(fate := Pending)], index[id := r], pending + [r], lock)
  {
    assert id !in index;
    var r := ledger[id].request;
    assert r in pending + [r];
    forall k | k in index ensures index[k] in pending + [r] {}
  }

  lemma ListedIsPending<C>(
    ledger: map<nat, Entry<C>>, index: map<nat, Request<C>>, pending: seq<Request<C>>, lock: Lock, r: Request<C>)
    requires ListInv(ledger, index, pending, lock) && !lock.Failing? && r in pending
    ensures IsListed(ledger, index, r, Pending)
  {
    var j :| 0 <= j < |pending| && pending[j] == r;
    assert IsListed(ledger, index, pending[j], ListedFate(lock, j));
  }

  lemma Taking<C>(
    ledger: map<nat, Entry<C>>, index: map<nat, Request<C>>, pending: seq<Request<C>>, lock: Lock, id: nat, e: Entry<C>)
    requires ListInv(ledger, index, pending, lock) && !lock.Failing?
    requires id in index && !e.fate.Pending?
    ensures id in ledger && ledger[id].fate.Pending?
    ensures ListInv(ledger[id := e], index - {id}, Without(pending, id), lock)
  {
    var rest := Without(pending, id);
    hide Without, DistinctIds;
    WithoutElements(pending, id);
    WithoutDistinct(pending, id);
    forall i | 0 <= i < |rest| ensures IsListed(ledger[id := e], index - {id}, rest[i], Pending) {
      assert rest[i] in rest;
      ListedIsPending(ledger, index, pending, lock, rest[i]);
    }
    ListedIsPending(ledger, index, pending, lock, index[id]);
  }

  lemma FailingOne<C>(
    ledger: map<nat, Entry<C>>, index: map<nat, Request<C>>, pending: seq<Request<C>>, err: Response, k: nat,
    e: Entry<C>)
    requires ListInv(ledger, index, pending, Failing(err, k)) && k < |pending|
    requires e.request == pending[k] && e.fate == Answered(err)
    ensures ListInv(ledger[pending[k].id := e], index, pending, Failing(err, k + 1))
  {
  }

  lemma FailedAll<C>(
    ledger: map<nat, Entry<C>>, index: map<nat, Request<C>>, pending: seq<Request<C>>, err: Response, lock: Lock)
    requires ListInv(ledger, index, pending, Failing(err, |pending|))
    ensures ListInv(ledger, map[], [], lock)
  {
    forall id | id in ledger ensures !ledger[id].fate.Pending? {
      if id in index {
        var j :| 0 <= j < |pending| && pending[j] == index[id];
        assert IsListed(ledger, index, pending[j], Answered(err));
      }
    }
  }

  lemma NotIgnored<C>(pending: seq<Request<C>>, r: Request<C>)
    requires DistinctIds(pending) && r in pending && !Ignored(r)
    ensures r.id !in IgnoredIds(pending)
  {
  }

  lemma Resending<C>(
    ledger: map<nat, Entry<C>>, index: map<nat, Request<C>>, pending: seq<Request<C>>)
    requires ListInv(ledger, index, pending, Free)
    ensures var dropped := IgnoredIds(pending);
            ListInv(Drop(ledger, dropped), index - dropped, Resent(pending), Free)
  {
    ResentElements(pending);
    ResentDistinct(pending);
    var dropped, rest := IgnoredIds(pending), Resent(pending);
    forall i | 0 <= i < |rest| ensures IsListed(Drop(ledger, dropped), index - dropped, rest[i], Pending) {
      assert rest[i] in rest;
      ListedIsPending(ledger, index, pending, Free, rest[i]);
      NotIgnored(pending, rest[i]);
    }
    forall id | id in index && id !in dropped ensures index[id] in rest {
      var j :| 0 <= j < |pending| && pending[j] == index[id];
      assert !Ignored(pending[j]);
    }
  }

  // ---------- Every step keeps the invariant ----------

  predicate ConnectionStep<C>(step: Step<C>)
  {
    || step.DoDisconnect? || step.DisconnectLocked? || step.ShutdownLocked? || step.CloseConnection?
    || HandlerStep(step)
  }

  lemma NextOfHandler<C>(s: State<C>, step: Step<C>)
    requires Enabled(s, step) && HandlerStep(step)
    ensures Next(s, step) == HandlerNext(s, step)
  {
    hide HandlerNext;
  }

  /** A different lock holder that has answered nothing yet. */
  lemma LockChanges<C>(
    ledger: map<nat, Entry<C>>, index: map<nat, Request<C>>, pending: seq<Request<C>>, lock: Lock, lock': Lock)
    requires ListInv(ledger, index, pending, lock)
    requires !lock.Failing? && (lock'.Failing? ==> lock'.next == 0)
    ensures ListInv(ledger, index, pending, lock')
  {
    assert forall i | 0 <= i < |pending| :: ListedFate(lock, i) == ListedFate(lock', i);
  }

  lemma IssueStep<C>(s: State<C>, step: Step<C>)
    requires Inv(s) && Enabled(s, step)
    requires step.SkipId? || step.Issue?
    ensures Inv(Next(s, step))
  {
    hide ListInv;
    var t := Next(s, step);
    if step.Issue? {
      EntryChanges(s.ledger, s.index, s.pending, s.lock, t.lastId, t.ledger[t.lastId]);
    }
  }

  lemma ChannelStep<C>(s: State<C>, id: nat, step: Step<C>)
    requires Inv(s) && Enabled(s, step)
    requires step == Send(id) || step == Receive(id)
    ensures Inv(Next(s, step))
  {
    hide ListInv;
    var t := Next(s, step);
    assert EntryInv(id, s.lastId, s.ledger[id]);
    assert EntryInv(id, t.lastId, t.ledger[id]);
    EntryChanges(s.ledger, s.index, s.pending, s.lock, id, t.ledger[id]);
    hide EntryInv;
  }

  lemma SubmitStep<C>(s: State<C>, id: nat)
    requires Inv(s) && Enabled(s, Submit(id))
    ensures Inv(Next(s, Submit(id)))
  {
    hide ListInv;
    var t := Next(s, Submit(id));
    assert EntryInv(id, s.lastId, s.ledger[id]);
    if !s.connEstablished || s.shutdown {
      EntryChanges(s.ledger, s.index, s.pending, s.lock, id, t.ledger[id]);
    } else {
      Listing(s.ledger, s.index, s.pending, s.lock, id);
    }
  }

  lemma TakeStep<C>(s: State<C>, id: nat, reply: Response)
    requires Inv(s) && Enabled(s, Take(id, reply))
    ensures Inv(Next(s, Take(id, reply)))
  {
    hide ListInv;
    var t := Next(s, Take(id, reply));
    if id in s.index && id in s.ledger {
      Taking(s.ledger, s.index, s.pending, s.lock, id, t.ledger[id]);
      assert EntryInv(id, s.lastId, s.ledger[id]);
    }
  }

  lemma ListedAt<C>(
    ledger: map<nat, Entry<C>>, index: map<nat, Request<C>>, pending: seq<Request<C>>, lock: Lock, i: nat)
    requires ListInv(ledger, index, pending, lock) && i < |pending|
    ensures IsListed(ledger, index, pending[i], ListedFate(lock, i))
  {
  }

  lemma FailNextStep<C>(s: State<C>)
    requires Inv(s) && Enabled(s, FailNext)
    ensures Inv(Next(s, FailNext))
  {
    hide ListInv, EntryInv;
    var t, k := Next(s, FailNext), s.lock.next;
    var id := s.pending[k].id;
    ListedAt(s.ledger, s.index, s.pending, s.lock, k);
    FailingOne(s.ledger, s.index, s.pending, s.lock.err, k, t.ledger[id]);
    Answering(id, s.lastId, s.ledger[id], s.lock.err);
  }

  /** The one send that an unanswered request's channel sees. */
  lemma Answering<C>(id: nat, lastId: nat, e: Entry<C>, r: Response)
    requires EntryInv(id, lastId, e) && !e.fate.Answered?
    ensures EntryInv(id, lastId, e.(fate := Answered(r), buffer := e.buffer + [r]))
  {
  }

  lemma FailDoneStep<C>(s: State<C>)
    requires Inv(s) && Enabled(s, FailDone)
    ensures Inv(Next(s, FailDone))
  {
    hide ListInv, LedgerInv;
    FailedAll(s.ledger, s.index, s.pending, s.lock.err, Next(s, FailDone).lock);
  }

  lemma DroppedEntries<C>(s: State<C>)
    requires Inv(s) && s.lock.Free?
    ensures LedgerInv(Drop(s.ledger, IgnoredIds(s.pending)), s.lastId)
  {
    forall id | id in s.ledger && id in IgnoredIds(s.pending)
      ensures EntryInv(id, s.lastId, s.ledger[id].(fate := Dropped))
    {
      var i :| 0 <= i < |s.pending| && Ignored(s.pending[i]) && s.pending[i].id == id;
      ListedAt(s.ledger, s.index, s.pending, s.lock, i);
      assert EntryInv(id, s.lastId, s.ledger[id]);
    }
  }

  lemma ResendStep<C>(s: State<C>)
    requires Inv(s) && Enabled(s, ResendLocked)
    ensures Inv(Next(s, ResendLocked))
  {
    hide ListInv, LedgerInv, IgnoredIds, Drop;
    Resending(s.ledger, s.index, s.pending);
    DroppedEntries(s);
  }

  lemma HandlerStepKeeps<C>(s: State<C>, step: Step<C>)
    requires Inv(s) && HandlerStep(step) && Enabled(s, step)
    ensures Inv(Next(s, step))
  {
    NextOfHandler(s, step);
    hide ListInv, LedgerInv, Next;
  }

  lemma ConnectionStepKeeps<C>(s: State<C>, step: Step<C>)
    requires Inv(s) && Enabled(s, step)
    requires step.DoDisconnect? || step.DisconnectLocked? || step.ShutdownLocked? || step.CloseConnection?
    ensures Inv(Next(s, step))
  {
    hide ListInv, LedgerInv, HandlerNext;
    var t := Next(s, step);
    if !s.lock.Failing? && t.lock != s.lock {
      LockChanges(s.ledger, s.index, s.pending, s.lock, t.lock);
    }
  }

  lemma StepKeepsInv<C>(s: State<C>, step: Step<C>)
    requires Inv(s) && Enabled(s, step)
    ensures Inv(Next(s, step))
  {
    hide Inv, Next, Enabled;
    match step
    case SkipId => IssueStep(s, step);
    case Issue(_, _, _) => IssueStep(s, step);
    case Send(id) => ChannelStep(s, id, step);
    case Receive(id) => ChannelStep(s, id, step);
    case Submit(id) => SubmitStep(s, id);
    case Take(id, reply) => TakeStep(s, id, reply);
    case FailNext => FailNextStep(s);
    case FailDone => FailDoneStep(s);
    case ResendLocked => ResendStep(s);
    case DoDisconnect => ConnectionStepKeeps(s, step);
    case DisconnectLocked => ConnectionStepKeeps(s, step);
    case ShutdownLocked => ConnectionStepKeeps(s, step);
    case CloseConnection => ConnectionStepKeeps(s, step);
    case _ => HandlerStepKeeps(s, step);
  }

  lemma {:induction false} RunKeepsInv<C>(s: State<C>, steps: seq<Step<C>>)
    requires Inv(s) && IsRun(Advance, s, steps)
    ensures Inv(After(Advance, s, steps))
    decreases |steps|
  {
    if steps != [] {
      StepKeepsInv(s, steps[0]);
      RunKeepsInv(Next(s, steps[0]), steps[1..]);
    }
  }

  // ---------- How a fate can go on ----------

  predicate Settled(f: Fate) { f.Answered? || f.Dropped? }

  /** A settled fate stays, and a response once picked for a request is the one it gets. */
  predicate Leads(f: Fate, g: Fate)
  {
    && (Settled(f) ==> g == f)
    && (f.Refused? || f.Taken? ==> g == f || g == Answered(f.r))
    && (f.Pending? ==> !g.Issued? && !g.Refused?)
  }

  ghost predicate Continues<C>(s: State<C>, t: State<C>)
  {
    forall id | id in s.ledger ::
      id in t.ledger && t.ledger[id].request == s.ledger[id].request && Leads(s.ledger[id].fate, t.ledger[id].fate)
  }

  lemma IndexedIsPending<C>(s: State<C>, id: nat)
    requires Inv(s) && !s.lock.Failing? && id in s.index
    ensures id in s.ledger && s.ledger[id].fate.Pending?
  {
    ListedIsPending(s.ledger, s.index, s.pending, s.lock, s.index[id]);
  }

  lemma IgnoredIsPending<C>(s: State<C>, id: nat)
    requires Inv(s) && !s.lock.Failing? && id in IgnoredIds(s.pending)
    ensures id in s.ledger && s.ledger[id].fate.Pending?
  {
    var j :| 0 <= j < |s.pending| && Ignored(s.pending[j]) && s.pending[j].id == id;
    ListedAt(s.ledger, s.index, s.pending, s.lock, j);
  }

  lemma NewIdIsNew<C>(s: State<C>)
    requires Inv(s)
    ensures s.lastId + 1 !in s.ledger
  {
    assert s.lastId + 1 in s.ledger ==> EntryInv(s.lastId + 1, s.lastId, s.ledger[s.lastId + 1]);
  }

  lemma NextFailsPending<C>(s: State<C>)
    requires Inv(s) && s.lock.Failing? && s.lock.next < |s.pending|
    ensures var r := s.pending[s.lock.next];
            r.id in s.ledger && s.ledger[r.id].fate.Pending? && s.ledger[r.id].request == r
  {
    ListedAt(s.ledger, s.index, s.pending, s.lock, s.lock.next);
  }

  lemma LockedStepContinues<C>(s: State<C>, step: Step<C>)
    requires Inv(s) && Enabled(s, step)
    requires step.Take? || step.FailNext? || step.ResendLocked?
    ensures Continues(s, Next(s, step))
  {
    hide Inv, IgnoredIds, Without, Resent;
    match step {
      case Take(id, _) =>
        if id in s.index {
          IndexedIsPending(s, id);
        }
      case FailNext => NextFailsPending(s);
      case ResendLocked =>
        forall id | id in IgnoredIds(s.pending) ensures id in s.ledger && s.ledger[id].fate.Pending? {
          IgnoredIsPending(s, id);
        }
      case _ =>
    }
  }

  lemma EntryStepContinues<C>(s: State<C>, step: Step<C>)
    requires Inv(s) && Enabled(s, step)
    requires step.Issue? || step.Submit? || step.Send? || step.Receive?
    ensures Continues(s, Next(s, step))
  {
    hide Inv;
    NewIdIsNew(s);
  }

  lemma OthersLeaveTheLedgerAlone<C>(s: State<C>, step: Step<C>)
    requires Enabled(s, step) && (ConnectionStep(step) || step.SkipId? || step.FailDone?)
    ensures Next(s, step).ledger == s.ledger
  {
    if HandlerStep(step) {
      hide Enabled, Next;
      NextOfHandler(s, step);
    } else {
      hide Put, SetFate, Drop, IgnoredIds, Without, Resent;
      assert Next(s, step).ledger == s.ledger;
    }
  }

  lemma StepContinues<C>(s: State<C>, step: Step<C>)
    requires Inv(s) && Enabled(s, step)
    ensures Continues(s, Next(s, step))
  {
    hide Inv, Enabled, Next;
    if step.Take? || step.FailNext? || step.ResendLocked? {
      LockedStepContinues(s, step);
    } else if step.Issue? || step.Submit? || step.Send? || step.Receive? {
      EntryStepContinues(s, step);
    } else {
      OthersLeaveTheLedgerAlone(s, step);
    }
  }

  lemma ContinuesOn<C>(s: State<C>, t: State<C>, u: State<C>)
    requires Continues(s, t) && Continues(t, u)
    ensures Continues(s, u)
  {
  }

  /** Over any stretch of a run no request is forgotten and no answer changes. */
  lemma {:induction false} RunContinues<C>(s: State<C>, steps: seq<Step<C>>)
    requires Inv(s) && IsRun(Advance, s, steps)
    ensures Continues(s, After(Advance, s, steps))
    decreases |steps|
  {
    if steps != [] {
      hide Inv, Enabled, Next, Continues;
      StepContinues(s, steps[0]);
      StepKeepsInv(s, steps[0]);
      RunContinues(Next(s, steps[0]), steps[1..]);
      ContinuesOn(s, Next(s, steps[0]), After(Advance, s, steps));
    } else {
      hide Inv, Enabled, Next;
    }
  }

  // ---------- What every run guarantees ----------

  lemma StartInv<C>(connected: bool, noReconnect: bool)
    ensures Inv<C>(Start(connected, noReconnect))
  {
  }

  /** Every request is pending, in both map and list, or settled, or on its way to one of
      the two; what its channel ever carried is its one answer, and only requests that are
      not sent again go without. */
  lemma RequestsAreConserved<C>(connected: bool, noReconnect: bool, steps: seq<Step<C>>)
    requires IsRun(Advance, Start(connected, noReconnect), steps)
    ensures var s := After(Advance, Start(connected, noReconnect), steps);
      && DistinctIds(s.pending)
      && (forall r | r in s.pending :: r.id in s.index && s.index[r.id] == r)
      && (forall id | id in s.index ::
            id in s.ledger && s.index[id] == s.ledger[id].request && s.index[id] in s.pending)
      && (!s.lock.Failing? ==> forall id | id in s.ledger :: s.ledger[id].fate.Pending? <==> id in s.index)
      && (forall id | id in s.ledger ::
            var e := s.ledger[id];
            && e.received + e.buffer == (if e.fate.Answered? then [e.fate.r] else [])
            && (e.fate.Dropped? ==> Ignored(e.request)))
  {
    StartInv<C>(connected, noReconnect);
    RunKeepsInv(Start<C>(connected, noReconnect), steps);
    var s := After(Advance, Start<C>(connected, noReconnect), steps);
    forall r | r in s.pending
      ensures r.id in s.index && s.index[r.id] == r && (!s.lock.Failing? ==> s.ledger[r.id].fate.Pending?)
    {
      var j :| 0 <= j < |s.pending| && s.pending[j] == r;
      ListedAt(s.ledger, s.index, s.pending, s.lock, j);
    }
  }

  lemma UnansweredIsEmpty<C>(s: State<C>, id: nat)
    requires Inv(s) && id in s.ledger && !s.ledger[id].fate.Answered?
    ensures s.ledger[id].buffer == []
  {
    assert EntryInv(id, s.lastId, s.ledger[id]);
  }

  lemma LockHolderGoesOn<C>(s: State<C>)
    requires Inv(s)
    ensures s.lock.Free? || Enabled(s, FailNext) || Enabled(s, FailDone) || Enabled(s, CloseConnection)
  {
    hide Inv;
    if s.lock.Failing? && s.lock.next < |s.pending| {
      NextFailsPending(s);
      UnansweredIsEmpty(s, s.pending[s.lock.next].id);
    }
  }

  /** A send on a response channel never waits: not a reader's, not a refused caller's,
      and none in the loops that fail all pending requests. So whoever holds the request
      lock can always go on. */
  lemma SendsNeverBlock<C>(connected: bool, noReconnect: bool, steps: seq<Step<C>>)
    requires IsRun(Advance, Start(connected, noReconnect), steps)
    ensures var s := After(Advance, Start(connected, noReconnect), steps);
      && (forall id | id in s.ledger && (s.ledger[id].fate.Refused? || s.ledger[id].fate.Taken?) ::
            Enabled(s, Send(id)))
      && (s.lock.Free? || Enabled(s, FailNext) || Enabled(s, FailDone) || Enabled(s, CloseConnection))
  {
    hide Inv, IsRun, After;
    StartInv<C>(connected, noReconnect);
    RunKeepsInv(Start<C>(connected, noReconnect), steps);
    var s := After(Advance, Start<C>(connected, noReconnect), steps);
    LockHolderGoesOn(s);
    forall id | id in s.ledger && !s.ledger[id].fate.Answered? ensures s.ledger[id].buffer == [] {
      UnansweredIsEmpty(s, id);
    }
  }

  /** Once the shutdown channel is closed and the lock is free, map and list are empty. */
  lemma ShutdownLeavesNothing<C>(connected: bool, noReconnect: bool, steps: seq<Step<C>>)
    requires IsRun(Advance, Start(connected, noReconnect), steps)
    ensures var s := After(Advance, Start(connected, noReconnect), steps);
      s.shutdown && !s.lock.Failing? ==> s.pending == [] && s.index == map[]
  {
    StartInv<C>(connected, noReconnect);
    RunKeepsInv(Start<C>(connected, noReconnect), steps);
    var s := After(Advance, Start<C>(connected, noReconnect), steps);
    if s.shutdown && !s.lock.Failing? {
      assert s.index.Keys == {};
    }
  }

  lemma {:induction false} ShutdownStays<C>(s: State<C>, steps: seq<Step<C>>)
    requires IsRun(Advance, s, steps) && s.shutdown
    ensures After(Advance, s, steps).shutdown
    decreases |steps|
  {
    if steps != [] {
      ShutdownStays(Next(s, steps[0]), steps[1..]);
    }
  }

  /** No channel is ever closed twice: neither shutdown nor any disconnect channel, across
      all reconnects; and only the current disconnect channel can be open. */
  lemma ClosedAtMostOnce<C>(connected: bool, noReconnect: bool, steps: seq<Step<C>>)
    requires IsRun(Advance, Start(connected, noReconnect), steps)
    ensures var s := After(Advance, Start(connected, noReconnect), steps);
      && s.shutdownCloses == (if s.shutdown then 1 else 0)
      && s.closes == (if s.disconnected then 1 else 0)
      && (forall c | c in s.earlier :: c == 1)
  {
    StartInv<C>(connected, noReconnect);
    RunKeepsInv(Start<C>(connected, noReconnect), steps);
  }

  // ---------- Failing all pending requests ----------

  /** Answered with err, or ahead in the loop that answers with err. */
  ghost predicate Doomed<C>(s: State<C>, r: Request<C>, err: Response)
  {
    && r.id in s.ledger
    && (s.ledger[r.id].fate == Answered(err) || (s.lock.Failing? && s.lock.err == err && s.lock.next <= |s.pending|
            && r in s.pending[s.lock.next..]))
  }

  lemma OthersLeaveTheLoopAlone<C>(s: State<C>, step: Step<C>)
    requires Enabled(s, step) && s.lock.Failing? && !step.FailNext? && !step.FailDone?
    ensures var t := Next(s, step); t.lock == s.lock && t.pending == s.pending
  {
    if HandlerStep(step) {
      hide Enabled, Next;
      NextOfHandler(s, step);
    }
  }

  lemma LoopRound<C>(s: State<C>, r: Request<C>, err: Response)
    requires Inv(s) && Enabled(s, FailNext) && Doomed(s, r, err)
    ensures Doomed(Next(s, FailNext), r, err)
  {
    hide Inv;
    var k := s.lock.next;
    NextFailsPending(s);
    assert s.pending[k..] == [s.pending[k]] + s.pending[k + 1..];
  }

  lemma StepKeepsDoomed<C>(s: State<C>, step: Step<C>, r: Request<C>, err: Response)
    requires Inv(s) && Enabled(s, step) && Doomed(s, r, err)
    ensures Doomed(Next(s, step), r, err)
  {
    if step.FailNext? {
      LoopRound(s, r, err);
    } else {
      hide Inv, Next, Enabled;
      StepContinues(s, step);
      if s.ledger[r.id].fate != Answered(err) {
        LoopNotOver(s, step);
        OthersLeaveTheLoopAlone(s, step);
      }
    }
  }

  lemma LoopNotOver<C>(s: State<C>, step: Step<C>)
    requires Enabled(s, step) && s.lock.Failing? && s.lock.next < |s.pending|
    ensures !step.FailDone?
  {
  }

  lemma {:induction false} RunKeepsDoomed<C>(s: State<C>, steps: seq<Step<C>>, r: Request<C>, err: Response)
    requires Inv(s) && IsRun(Advance, s, steps) && Doomed(s, r, err)
    ensures Doomed(After(Advance, s, steps), r, err)
    decreases |steps|
  {
    if steps != [] {
      hide Inv, Enabled, Next, Doomed;
      StepKeepsDoomed(s, steps[0], r, err);
      StepKeepsInv(s, steps[0]);
      RunKeepsDoomed(Next(s, steps[0]), steps[1..], r, err);
    }
  }

  lemma LoopAnswersAll<C>(s: State<C>, steps: seq<Step<C>>)
    requires Inv(s) && s.lock.Failing? && s.lock.next == 0 && IsRun(Advance, s, steps)
    ensures var t := After(Advance, s, steps);
      !t.lock.Failing? ==> forall r | r in s.pending :: r.id in t.ledger && t.ledger[r.id].fate == Answered(s.lock.err)
  {
    forall r | r in s.pending ensures Doomed(After(Advance, s, steps), r, s.lock.err) {
      var j :| 0 <= j < |s.pending| && s.pending[j] == r;
      ListedAt(s.ledger, s.index, s.pending, s.lock, j);
      hide Inv;
      assert s.pending[0..] == s.pending;
      RunKeepsDoomed(s, steps, r, s.lock.err);
    }
  }

  /** Whatever happens in between, by the time Shutdown gives the request lock back, and
      ever after, each request it found pending has been answered with ErrClientShutdown. */
  lemma ShutdownAnswersAll<C>(s: State<C>, steps: seq<Step<C>>)
    requires Inv(s) && s.lock.Free? && !s.shutdown && IsRun(Advance, Next(s, ShutdownLocked), steps)
    ensures var t := After(Advance, Next(s, ShutdownLocked), steps);
      !t.lock.Failing? ==>
        forall r | r in s.pending :: r.id in t.ledger && t.ledger[r.id].fate == Answered(ErrClientShutdown)
  {
    StepKeepsInv(s, ShutdownLocked);
    LoopAnswersAll(Next(s, ShutdownLocked), steps);
  }

  /** The same for Disconnect when the client does not reconnect; it shuts the client down
      as well. */
  lemma DisconnectAnswersAll<C>(s: State<C>, steps: seq<Step<C>>)
    requires Inv(s) && s.disableAutoReconnect && Enabled(s, DisconnectLocked)
    requires IsRun(Advance, Next(s, DisconnectLocked), steps)
    ensures var t := After(Advance, Next(s, DisconnectLocked), steps);
      !t.lock.Failing? ==>
        && t.shutdown
        && forall r | r in s.pending :: r.id in t.ledger && t.ledger[r.id].fate == Answered(ErrClientDisconnect)
  {
    StepKeepsInv(s, DisconnectLocked);
    LoopAnswersAll(Next(s, DisconnectLocked), steps);
    DisconnectShutsDown(Next(s, DisconnectLocked), steps);
  }

  lemma {:induction false} DisconnectShutsDown<C>(s: State<C>, steps: seq<Step<C>>)
    requires IsRun(Advance, s, steps)
    requires s.shutdown || (s.lock.Failing? && s.lock.err == ErrClientDisconnect)
    ensures After(Advance, s, steps).shutdown || After(Advance, s, steps).lock.Failing?
    decreases |steps|
  {
    if steps != [] {
      DisconnectShutsDown(Next(s, steps[0]), steps[1..]);
    }
  }

  // ---------- The connection after a shutdown ----------

  /** Whatever follows, the connection is closed. */
  ghost predicate StaysClosed<C(!new)>(s: State<C>)
  {
    forall steps: seq<Step<C>> | IsRun(Advance, s, steps) :: After(Advance, s, steps).disconnected
  }

  predicate ShutAndClosed<C>(s: State<C>) { s.shutdown && s.disconnected && !s.reconnector.Dialing? }

  lemma StepKeepsClosed<C>(s: State<C>, step: Step<C>)
    requires ShutAndClosed(s) && Enabled(s, step)
    ensures ShutAndClosed(Next(s, step))
  {
    hide Drop, IgnoredIds, Without, Resent;
  }

  lemma {:induction false} RunKeepsClosed<C>(s: State<C>, steps: seq<Step<C>>)
    requires ShutAndClosed(s) && IsRun(Advance, s, steps)
    ensures ShutAndClosed(After(Advance, s, steps))
    decreases |steps|
  {
    if steps != [] {
      hide ShutAndClosed, Enabled, Next;
      StepKeepsClosed(s, steps[0]);
      RunKeepsClosed(Next(s, steps[0]), steps[1..]);
    }
  }

  /** After a shutdown a closed connection stays closed, exactly unless the reconnect
      handler is dialing. */
  lemma ClosedForGood<C(!new)>(s: State<C>)
    requires s.shutdown
    ensures StaysClosed(s) <==> s.disconnected && !s.reconnector.Dialing?
  {
    NoSteps(Advance, s);
    if s.reconnector.Dialing? {
      OneStep(Advance, s, DialSucceeds);
    } else if s.disconnected {
      forall steps | IsRun(Advance, s, steps) ensures After(Advance, s, steps).disconnected {
        RunKeepsClosed(s, steps);
      }
    }
  }

  /** When Shutdown returns, the connection is closed, and it stays so exactly unless the
      reconnect handler was dialing. */
  lemma ShutdownCloses<C(!new)>(s: State<C>)
    requires Inv(s) && Enabled(s, CloseConnection)
    ensures var t := Next(s, CloseConnection);
            && t.shutdown && t.lock.Free? && t.disconnected
            && (StaysClosed(t) <==> !s.reconnector.Dialing?)
  {
    ClosedForGood(Next(s, CloseConnection));
  }

  /** A connection that comes up behind a Shutdown, which a second Shutdown ignores. */
  lemma OpenedBehindShutdown<C(!new)>() returns (steps: seq<Step<C>>)
    ensures IsRun(Advance, Start(true, false), steps)
    ensures var t: State<C> := After(Advance, Start(true, false), steps);
            t.shutdown && t.lock.Free? && !t.disconnected && Next(t, ShutdownLocked) == t
  {
    hide IsRun, After;
    var s0: State<C> := Start(true, false);
    NoSteps(Advance, s0);
    steps := Then(Advance, s0, [], s0, DoDisconnect);
    var s1 := s0.(disconnected := true, closes := 1, disconnecting := 1);
    steps := Then(Advance, s0, steps, s1, NoticeDisconnect);
    steps := Then(Advance, s0, steps, s1.(reconnector := Checking), PassCheck);
    var s3 := s1.(reconnector := Dialing);
    steps := Then(Advance, s0, steps, s3, ShutdownLocked);
    var s4 := s3.(shutdown := true, shutdownCloses := 1);
    steps := Then(Advance, s0, steps, s4.(lock := Failing(ErrClientShutdown, 0)), FailDone);
    steps := Then(Advance, s0, steps, s4.(lock := Closing), CloseConnection);
    steps := Then(Advance, s0, steps, s4, DialSucceeds);
  }

  /** Steps of the client's own goroutines, not of its callers or of a server that
      replies. */
  predicate Own<C>(step: Step<C>) { LockedStep(step) || HandlerStep(step) }

  predicate LockedStep<C>(step: Step<C>)
  {
    step.FailNext? || step.FailDone? || step.CloseConnection? || step.DisconnectLocked? || step.ResendLocked?
  }

  /** None of them can go on by itself; a read from an open connection may take for ever. */
  ghost predicate AtRest<C(!new)>(s: State<C>)
  {
    forall step: Step<C> | Own(step) && Enabled(s, step) :: (step.ReadOk? || step.ReadFails?) && !s.disconnected
  }

  /** How many own steps can be left after a shutdown. */
  function Work<C>(s: State<C>): nat
    requires LockInv(s)
  {
    (match s.lock
     case Free => 0
     case Closing => 1
     case Failing(_, next) => 2 + |s.pending| - next)
    + (match s.reconnector
       case Waiting => 2
       case Checking => 1
       case Dialing => 9
       case Over => 0)
    + 3 * s.disconnecting + s.resending + 2 * s.testing + 3 * s.reading + s.leaving
    + if s.disconnected then 0 else 3
  }

  lemma FailingStepWork<C>(s: State<C>, step: Step<C>)
    requires LockInv(s) && s.shutdown && Enabled(s, step) && LockInv(Next(s, step))
    requires step.FailNext? || step.FailDone?
    ensures Next(s, step).shutdown && Work(Next(s, step)) < Work(s)
  {
    hide SetFate, Drop, IgnoredIds, Without, Resent, HandlerNext;
  }

  lemma LockedStepWork<C>(s: State<C>, step: Step<C>)
    requires LockInv(s) && s.shutdown && Enabled(s, step) && LockedStep(step) && LockInv(Next(s, step))
    ensures Next(s, step).shutdown && Work(Next(s, step)) < Work(s)
  {
    if step.FailNext? || step.FailDone? {
      hide Next, Work, LockInv;
      FailingStepWork(s, step);
    } else {
      hide Put, SetFate, Drop, IgnoredIds, Without, Resent, HandlerNext;
      assert Work(Next(s, step)) < Work(s);
    }
  }

  lemma HandlerStepWork<C>(s: State<C>, step: Step<C>)
    requires LockInv(s) && s.shutdown && Enabled(s, step) && HandlerStep(step) && LockInv(Next(s, step))
    ensures Next(s, step).shutdown && Work(Next(s, step)) < Work(s)
  {
    NextOfHandler(s, step);
    hide Next, LockInv;
  }

  lemma OtherStepWork<C>(s: State<C>, step: Step<C>)
    requires LockInv(s) && s.shutdown && Enabled(s, step) && !Own(step) && LockInv(Next(s, step))
    ensures Next(s, step).shutdown && Work(Next(s, step)) <= Work(s)
  {
    hide Without;
  }

  lemma StepWork<C>(s: State<C>, step: Step<C>)
    requires LockInv(s) && s.shutdown && Enabled(s, step) && LockInv(Next(s, step))
    ensures Next(s, step).shutdown
    ensures (if Own(step) then 1 else 0) + Work(Next(s, step)) <= Work(s)
  {
    hide LockInv, Enabled, Next, LockedStep, HandlerStep, Work;
    if LockedStep(step) {
      LockedStepWork(s, step);
    } else if HandlerStep(step) {
      HandlerStepWork(s, step);
    } else {
      OtherStepWork(s, step);
    }
  }

  lemma LockKept<C>(s: State<C>)
    requires Inv(s)
    ensures LockInv(s)
  {
  }

  /** After a shutdown the goroutines of the client can only make so many steps. */
  lemma {:induction false} ShutdownWindsDown<C>(s: State<C>, steps: seq<Step<C>>)
    requires Inv(s) && s.shutdown && IsRun(Advance, s, steps)
    ensures var t := After(Advance, s, steps);
            && Inv(t) && t.shutdown && Count(Own, steps) + Work(t) <= Work(s)
    decreases |steps|
  {
    if steps != [] {
      hide Inv, LockInv, Enabled, Next, Work, Own;
      LockKept(s);
      StepKeepsInv(s, steps[0]);
      LockKept(Next(s, steps[0]));
      StepWork(s, steps[0]);
      ShutdownWindsDown(Next(s, steps[0]), steps[1..]);
    }
  }

  lemma AtRestIsIdle<C(!new)>(s: State<C>)
    requires s.shutdown && AtRest(s)
    requires s.lock.Free? || Enabled(s, FailNext) || Enabled(s, FailDone) || Enabled(s, CloseConnection)
    ensures s.lock.Free? && s.disconnecting == s.resending == s.testing == s.leaving == 0
    ensures s.reconnector.Over? && (!s.disconnected || s.reading == 0)
  {
    assert !Enabled(s, FailNext) && !Enabled(s, FailDone) && !Enabled(s, CloseConnection);
    assert !Enabled(s, DisconnectLocked) && !Enabled(s, GiveUpResending) && !Enabled(s, TestShutdown);
    assert !Enabled(s, Leave) && !Enabled(s, NoticeShutdown) && !Enabled(s, DialFails);
    assert Enabled(s, ReadFails) ==> !s.disconnected;
  }

  lemma RestingIsStopped<C>(s: State<C>)
    requires Inv(s) && s.shutdown
    requires s.lock.Free? && s.disconnecting == s.resending == s.testing == s.leaving == 0
    requires s.reconnector.Over? && (!s.disconnected || s.reading == 0)
    ensures s.disconnected && s.reading == 0
  {
  }

  /** Shutdown stops everything: when no goroutine of a client that was shut down can go
      on, the connection is closed for good, the request lock is free, and the input
      handlers, the reconnect handler and all that resend or disconnect are done. */
  lemma ShutdownStopsAll<C(!new)>(connected: bool, noReconnect: bool, steps: seq<Step<C>>)
    requires IsRun(Advance, Start(connected, noReconnect), steps)
    ensures var s: State<C> := After(Advance, Start(connected, noReconnect), steps);
      s.shutdown && AtRest(s) ==>
        && s.lock.Free? && s.reconnector.Over? && StaysClosed(s)
        && s.testing == s.reading == s.leaving == s.resending == s.disconnecting == 0
  {
    hide IsRun, After, Inv, StaysClosed;
    StartInv<C>(connected, noReconnect);
    RunKeepsInv(Start<C>(connected, noReconnect), steps);
    var s: State<C> := After(Advance, Start(connected, noReconnect), steps);
    if s.shutdown && AtRest(s) {
      LockHolderGoesOn(s);
      AtRestIsIdle(s);
      RestingIsStopped(s);
      ClosedForGood(s);
    }
  }
}
