/** The two views of the RPC client put together (rpcclient/infrastructure.go): a call of a
method on the heap, when nobody comes between its locked sections, is a run of the state
machine, and object and state still match afterwards. */
module ClientSections {

  import opened ClientProtocol
  import opened NtfnState
  import opened Options
  import opened Requests
  import opened RequestTracker
  import opened Runs

  // ---------- Runs made of sections ----------

  lemma OneKept<C>(s: State<C>, step: Step<C>)
    requires Inv(s) && Enabled(s, step)
    ensures IsRun(Advance, s, [step]) && After(Advance, s, [step]) == Next(s, step) && Inv(Next(s, step))
  {
    hide Inv, Enabled, Next;
    StepKeepsInv(s, step);
    OneStep(Advance, s, step);
  }

  lemma ThenKept<C>(s: State<C>, steps: seq<Step<C>>, step: Step<C>) returns (longer: seq<Step<C>>)
    requires IsRun(Advance, s, steps) && Inv(After(Advance, s, steps)) && Enabled(After(Advance, s, steps), step)
    ensures longer == steps + [step] && IsRun(Advance, s, longer)
    ensures After(Advance, s, longer) == Next(After(Advance, s, steps), step)
    ensures Inv(After(Advance, s, longer))
  {
    hide Inv, Enabled, Next, IsRun, After;
    StepKeepsInv(After(Advance, s, steps), step);
    longer := Then(Advance, s, steps, After(Advance, s, steps), step);
  }

  // ---------- Failing all pending requests ----------

  function IdsFrom<C>(rs: seq<Request<C>>, k: nat): set<nat>
  {
    set i | k <= i < |rs| :: rs[i].id
  }

  /** The ledger with these requests answered. */
  function AnsweredAll<C>(ledger: map<nat, Entry<C>>, ids: set<nat>, err: Response): map<nat, Entry<C>>
  {
    map id | id in ledger ::
      if id in ids then ledger[id].(fate := Answered(err), buffer := ledger[id].buffer + [err]) else ledger[id]
  }

  lemma FailingIsListed<C>(s: State<C>)
    requires Inv(s) && s.lock.Failing?
    ensures s.lock.next <= |s.pending| && DistinctIds(s.pending)
  {
  }

  /** One round of the loop: the next request's channel has room, and gets the error. */
  lemma FailingRound<C>(s: State<C>)
    requires Inv(s) && s.lock.Failing? && s.lock.next < |s.pending|
    ensures Enabled(s, FailNext) && Inv(Next(s, FailNext))
    ensures var id := s.pending[s.lock.next].id;
            && id in s.ledger
            && var e := s.ledger[id];
               Next(s, FailNext)
               == s.(lock := Failing(s.lock.err, s.lock.next + 1),
                     ledger := s.ledger[id := e.(fate := Answered(s.lock.err), buffer := e.buffer + [s.lock.err])])
  {
    hide Inv;
    NextFailsPending(s);
    UnansweredIsEmpty(s, s.pending[s.lock.next].id);
    StepKeepsInv(s, FailNext);
  }

  lemma AnsweredOneMore<C>(ledger: map<nat, Entry<C>>, rs: seq<Request<C>>, k: nat, err: Response)
    requires DistinctIds(rs) && k < |rs| && rs[k].id in ledger
    ensures var e := ledger[rs[k].id];
            var e' := e.(fate := Answered(err), buffer := e.buffer + [err]);
            AnsweredAll(ledger[rs[k].id := e'], IdsFrom(rs, k + 1), err) == AnsweredAll(ledger, IdsFrom(rs, k), err)
  {
    var id := rs[k].id;
    assert id !in IdsFrom(rs, k + 1);
    assert IdsFrom(rs, k) == IdsFrom(rs, k + 1) + {id};
  }

  /** The loop that answers every pending request, from where it stands to its end. */
  lemma {:induction false} FailingLoop<C>(s: State<C>) returns (steps: seq<Step<C>>)
    requires Inv(s) && s.lock.Failing?
    ensures IsRun(Advance, s, steps) && Inv(After(Advance, s, steps))
    ensures After(Advance, s, steps)
         == s.(lock := Failing(s.lock.err, |s.pending|),
               ledger := AnsweredAll(s.ledger, IdsFrom(s.pending, s.lock.next), s.lock.err))
    decreases |s.pending| - s.lock.next
  {
    hide Inv, Enabled, Next, IsRun, After, AnsweredAll, DistinctIds;
    FailingIsListed(s);
    if s.lock.next == |s.pending| {
      NoSteps(Advance, s);
      steps := [];
      NoneAnswered(s.ledger, s.pending, s.lock.err);
    } else {
      FailingRound(s);
      OneKept(s, FailNext);
      var more := FailingLoop(Next(s, FailNext));
      RunSum(Advance, s, [FailNext], more);
      steps := [FailNext] + more;
      AnsweredOneMore(s.ledger, s.pending, s.lock.next, s.lock.err);
    }
  }

  lemma NoneAnswered<C>(ledger: map<nat, Entry<C>>, rs: seq<Request<C>>, err: Response)
    ensures AnsweredAll(ledger, IdsFrom(rs, |rs|), err) == ledger
  {
    assert IdsFrom(rs, |rs|) == {};
  }

  // ---------- Whole methods as runs ----------

  /** Every pending request answered with err, map and list emptied. */
  function Failed<C>(s: State<C>, err: Response): State<C>
  {
    s.(pending := [], index := map[], ledger := AnsweredAll(s.ledger, IdsFrom(s.pending, 0), err))
  }

  /** Shutdown. */
  lemma ShutdownRun<C>(s: State<C>) returns (steps: seq<Step<C>>)
    requires Inv(s) && s.lock.Free?
    ensures IsRun(Advance, s, steps) && Inv(After(Advance, s, steps))
    ensures After(Advance, s, steps)
         == if s.shutdown then s else CloseDisconnect(Failed(CloseShutdown(s), ErrClientShutdown))
  {
    hide Inv, IsRun, After, AnsweredAll;
    NoSteps(Advance, s);
    steps := [];
    if !s.shutdown {
      OneKept(s, ShutdownLocked);
      var more := FailingLoop(Next(s, ShutdownLocked));
      RunSum(Advance, s, [ShutdownLocked], more);
      steps := ThenKept(s, [ShutdownLocked] + more, FailDone);
      steps := ThenKept(s, steps, CloseConnection);
    }
  }

  /** Disconnect. */
  lemma DisconnectRun<C>(s: State<C>) returns (steps: seq<Step<C>>)
    requires Inv(s) && s.lock.Free?
    ensures IsRun(Advance, s, steps) && Inv(After(Advance, s, steps))
    ensures After(Advance, s, steps) ==
      if s.disconnected then s
      else if s.disableAutoReconnect then CloseShutdown(Failed(CloseDisconnect(s), ErrClientDisconnect))
      else CloseDisconnect(s)
  {
    hide Inv, IsRun, After, AnsweredAll;
    NoSteps(Advance, s);
    steps := [];
    if !s.disconnected {
      steps := ThenKept(s, [], DoDisconnect);
      steps := ThenKept(s, steps, DisconnectLocked);
      if s.disableAutoReconnect {
        var more := FailingLoop(After(Advance, s, steps));
        RunSum(Advance, s, steps, more);
        steps := ThenKept(s, steps + more, FailDone);
      }
    }
  }

  /** handleMessage for a reply with this id. */
  lemma ReplyRun<C>(s: State<C>, id: nat, reply: Response) returns (steps: seq<Step<C>>)
    requires Inv(s) && s.lock.Free? && s.connEstablished && s.reading > 0 && reply.Reply?
    ensures IsRun(Advance, s, steps) && Inv(After(Advance, s, steps))
    ensures id in s.index ==> id in s.ledger
    ensures After(Advance, s, steps) ==
      if id !in s.index then s
      else
        var e := s.ledger[id];
        s.(pending := Without(s.pending, id), index := s.index - {id},
           ledger := s.ledger[id := e.(fate := Answered(reply), buffer := e.buffer + [reply])])
  {
    hide Inv, Enabled, Next, IsRun, After, Without;
    NoSteps(Advance, s);
    steps := [];
    if id in s.index {
      IndexedIsPending(s, id);
      UnansweredIsEmpty(s, id);
      TakenAndSent(s, id, reply);
      steps := ThenKept(s, [], Take(id, reply));
      steps := ThenKept(s, steps, Send(id));
    }
  }

  lemma TakenAndSent<C>(s: State<C>, id: nat, reply: Response)
    requires s.lock.Free? && s.connEstablished && s.reading > 0 && reply.Reply?
    requires id in s.index && id in s.ledger && s.ledger[id].buffer == []
    ensures Enabled(s, Take(id, reply)) && Enabled(Next(s, Take(id, reply)), Send(id))
    ensures Next(Next(s, Take(id, reply)), Send(id))
         == var e := s.ledger[id];
            s.(pending := Without(s.pending, id), index := s.index - {id},
               ledger := s.ledger[id := e.(fate := Answered(reply), buffer := e.buffer + [reply])])
  {
    hide Without;
  }

  /** sendRequest for a request that has its id. */
  lemma SubmitRun<C>(s: State<C>, id: nat) returns (steps: seq<Step<C>>)
    requires Inv(s) && s.lock.Free? && id in s.ledger && s.ledger[id].fate.Issued? && s.ledger[id].buffer == []
    ensures IsRun(Advance, s, steps) && Inv(After(Advance, s, steps))
    ensures var e := s.ledger[id];
      After(Advance, s, steps) ==
        if s.connEstablished && !s.shutdown then
          s.(pending := s.pending + [e.request], index := s.index[id := e.request],
             ledger := s.ledger[id := e.(fate := Pending)])
        else
          var err := if s.connEstablished then ErrClientShutdown else ErrClientNotConnected;
          s.(ledger := s.ledger[id := e.(fate := Answered(err), buffer := [err])])
  {
    hide Inv, IsRun, After;
    NoSteps(Advance, s);
    steps := ThenKept(s, [], Submit(id));
    if !s.connEstablished || s.shutdown {
      steps := ThenKept(s, steps, Send(id));
      var e, err := s.ledger[id], if s.connEstablished then ErrClientShutdown else ErrClientNotConnected;
      assert e.buffer + [err] == [err];
      assert After(Advance, s, steps).ledger == s.ledger[id := e.(fate := Answered(err), buffer := [err])];
    }
  }

  // ---------- Object and state ----------

  /** The object shows this state of the machine, with nobody inside a locked section. */
  ghost predicate Shows(c: Client, s: State<ResponseChan>)
    reads c, c.requestList, c.shutdown
  {
    && s.lock.Free? && s.connEstablished == c.connEstablished && s.disableAutoReconnect == c.disableAutoReconnect
    && s.pending == c.Pending() && s.shutdown == c.shutdown.closed && s.disconnected == c.disconnected
  }

  /** The channels of these requests hold what the ledger says. */
  ghost predicate Match(rs: seq<JsonRequest>, ledger: map<nat, Entry<ResponseChan>>)
    reads Channels(rs)
  {
    forall i | 0 <= i < |rs| :: rs[i].id in ledger && rs[i].responseChan.buffer == ledger[rs[i].id].buffer
  }

  lemma PendingAreEmpty<C>(s: State<C>)
    requires Inv(s) && s.lock.Free?
    ensures forall i | 0 <= i < |s.pending| ::
              s.pending[i].id in s.ledger && s.ledger[s.pending[i].id].buffer == []
  {
    forall i | 0 <= i < |s.pending|
      ensures s.pending[i].id in s.ledger && s.ledger[s.pending[i].id].buffer == []
    {
      ListedAt(s.ledger, s.index, s.pending, s.lock, i);
      UnansweredIsEmpty(s, s.pending[i].id);
    }
  }

  lemma NothingAfterShutdown<C>(s: State<C>)
    requires Inv(s) && s.lock.Free? && s.shutdown
    ensures s.pending == []
  {
  }

  /** A call of Shutdown is a run. */
  method Shutdown(c: Client, ghost s: State<ResponseChan>) returns (ghost steps: seq<Step<ResponseChan>>)
    requires c.Valid() && Inv(s) && Shows(c, s)
    modifies c.Parts(), Channels(c.Pending()), c.shutdown, c.disconnect
    ensures IsRun(Advance, s, steps) && c.Valid() && Inv(After(Advance, s, steps)) && Shows(c, After(Advance, s, steps))
    ensures Match(old(c.Pending()), After(Advance, s, steps).ledger)
  {
    hide Inv, IsRun, After, Client.Valid;
    PendingAreEmpty(s);
    if s.shutdown {
      NothingAfterShutdown(s);
    }
    steps := ShutdownRun(s);
    c.Shutdown();
  }

  /** A call of Disconnect is a run. */
  method Disconnect(c: Client, ghost s: State<ResponseChan>) returns (ghost steps: seq<Step<ResponseChan>>)
    requires c.Valid() && Inv(s) && Shows(c, s)
    modifies c.Parts(), Channels(c.Pending()), c.shutdown, c.disconnect
    ensures IsRun(Advance, s, steps) && c.Valid() && Inv(After(Advance, s, steps)) && Shows(c, After(Advance, s, steps))
    ensures Match(old(c.Pending()), After(Advance, s, steps).ledger)
  {
    hide Inv, IsRun, After, Client.Valid;
    PendingAreEmpty(s);
    steps := DisconnectRun(s);
    c.Disconnect();
  }

  lemma IndexIsPending<C>(s: State<C>, id: nat)
    requires Inv(s) && s.lock.Free?
    ensures id in s.index <==> exists i :: 0 <= i < |s.pending| && s.pending[i].id == id
  {
    if i :| 0 <= i < |s.pending| && s.pending[i].id == id {
      ListedAt(s.ledger, s.index, s.pending, s.lock, i);
    }
  }

  /** A reply that a reader hands to handleMessage is a run. */
  method HandleResponse(c: Client, ghost s: State<ResponseChan>, id: real, result: string, failed: bool)
    returns (ghost steps: seq<Step<ResponseChan>>)
    requires c.Valid() && Inv(s) && Shows(c, s) && c.connEstablished && s.reading > 0
    modifies c.Parts(), Channels(c.Pending()), c.ntfnState
    ensures IsRun(Advance, s, steps) && c.Valid() && Inv(After(Advance, s, steps)) && Shows(c, After(Advance, s, steps))
    ensures Match(old(c.Pending()), After(Advance, s, steps).ledger)
  {
    hide Inv, IsRun, After, Client.Valid, Without;
    PendingAreEmpty(s);
    NoSteps(Advance, s);
    steps := [];
    if 0.0 <= id && id == id.Floor as real {
      IndexIsPending(s, id.Floor);
      steps := ReplyRun(s, id.Floor, Reply(result, failed));
      if id.Floor !in s.index {
        WithoutAbsent(s.pending, id.Floor);
      }
    }
    c.HandleResponse(id, result, failed);
  }

  /** The locked section of resendRequests is a step, and what it returns is what stays. */
  method Resend(c: Client, ghost s: State<ResponseChan>)
    returns (reqs: seq<JsonRequest>, ghost steps: seq<Step<ResponseChan>>)
    requires c.Valid() && Inv(s) && Shows(c, s) && s.resending > 0
    modifies c.Parts()
    ensures IsRun(Advance, s, steps) && c.Valid() && Inv(After(Advance, s, steps)) && Shows(c, After(Advance, s, steps))
    ensures Match(old(c.Pending()), After(Advance, s, steps).ledger) && reqs == After(Advance, s, steps).pending
  {
    hide Inv, IsRun, After, Client.Valid, Resent;
    PendingAreEmpty(s);
    OneKept(s, ResendLocked);
    steps := [ResendLocked];
    EmptyBuffers(c);
    reqs := c.Resend();
  }

  lemma EmptyBuffers(c: Client)
    requires c.Valid()
    ensures forall i | 0 <= i < |c.Pending()| :: c.Pending()[i].responseChan.buffer == []
  {
    forall i | 0 <= i < |c.Pending()| ensures c.Pending()[i].responseChan.buffer == [] {
      assert c.Pending()[i].responseChan in Channels(c.Pending());
    }
  }

  /** What wsReconnectHandler does once it has dialed again is a step. */
  method Reconnected(c: Client, ghost s: State<ResponseChan>) returns (ghost steps: seq<Step<ResponseChan>>)
    requires c.Valid() && Inv(s) && Shows(c, s) && s.reconnector.Dialing?
    modifies c`disconnect, c`disconnected
    ensures IsRun(Advance, s, steps) && c.Valid() && Inv(After(Advance, s, steps)) && Shows(c, After(Advance, s, steps))
    ensures After(Advance, s, steps).earlier == s.earlier + [1] && !c.disconnect.closed
    ensures Match(old(c.Pending()), After(Advance, s, steps).ledger)
  {
    hide Inv, IsRun, After, Client.Valid;
    PendingAreEmpty(s);
    DialingIsDisconnected(s);
    OneKept(s, DialSucceeds);
    steps := [DialSucceeds];
    EmptyBuffers(c);
    c.Reconnected();
  }

  lemma DialingIsDisconnected<C>(s: State<C>)
    requires Inv(s) && s.reconnector.Dialing?
    ensures s.disconnected && s.closes == 1
  {
  }

  /** Sending a request that has its id is a run. */
  method SendRequest(c: Client, ghost s: State<ResponseChan>, r: JsonRequest)
    returns (tracked: bool, ghost steps: seq<Step<ResponseChan>>)
    requires c.Valid() && Inv(s) && Shows(c, s)
    requires r.id in s.ledger && s.ledger[r.id] == Entry(r, Issued, [], [])
    requires r.id !in c.requestMap && r.responseChan !in Channels(c.Pending()) && r.responseChan.buffer == []
    modifies c.Parts(), r.responseChan
    ensures IsRun(Advance, s, steps) && c.Valid() && Inv(After(Advance, s, steps)) && Shows(c, After(Advance, s, steps))
    ensures r.id in After(Advance, s, steps).ledger
    ensures r.responseChan.buffer == After(Advance, s, steps).ledger[r.id].buffer
    ensures tracked <==> After(Advance, s, steps).ledger[r.id].fate.Pending?
  {
    hide Inv, IsRun, After, Client.Valid;
    steps := SubmitRun(s, r.id);
    tracked := c.SendRequest(r);
  }
}
