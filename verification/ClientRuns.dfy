/** What a run of the RPC client must do (rpcclient/infrastructure.go), next to what it may
not: every reconnect launches one resend and one input handler, every disconnect gets its
second half, every command is entered, and a request can be carried through to its answer. */
module ClientRuns {

  import opened ClientProtocol
  import opened ClientSections
  import opened NtfnState
  import opened Options
  import opened Requests
  import opened Runs

  // ---------- Accounts ----------

  predicate Reconnects<C>(step: Step<C>) { step.DialSucceeds? }

  predicate Resends<C>(step: Step<C>) { step.ResendLocked? || step.GiveUpResending? }

  predicate Tests<C>(step: Step<C>) { step.TestShutdown? }

  predicate ReadsOn<C>(step: Step<C>) { step.ReadOk? }

  predicate Leaves<C>(step: Step<C>) { step.Leave? }

  predicate FinishesDisconnect<C>(step: Step<C>) { step.DisconnectLocked? }

  predicate ClosesForShutdown<C>(step: Step<C>) { step.CloseConnection? }

  predicate TakesId<C>(step: Step<C>) { step.Issue? || step.SkipId? }

  predicate Issues<C>(step: Step<C>) { step.Issue? }

  function One(b: bool): nat { if b then 1 else 0 }

  function InputHandlers<C>(s: State<C>): nat { s.testing + s.reading + s.leaving }

  /** How many disconnect channels have been closed. */
  function Closed<C>(s: State<C>): nat { |s.earlier| + One(s.disconnected) }

  /** What one step does to the accounts. */
  ghost predicate Books<C>(s: State<C>, step: Step<C>, t: State<C>)
  {
    && |t.earlier| == |s.earlier| + One(Reconnects(step))
    && t.resending + One(Resends(step)) == s.resending + One(Reconnects(step))
    && t.testing + One(Tests(step)) == s.testing + One(Reconnects(step)) + One(ReadsOn(step))
    && InputHandlers(t) + One(Leaves(step)) == InputHandlers(s) + One(Reconnects(step))
    && t.lastId == s.lastId + One(TakesId(step))
  }

  ghost predicate CloseBooks<C>(s: State<C>, step: Step<C>, t: State<C>)
  {
    && Closed(s) + t.disconnecting + One(FinishesDisconnect(step)) <= Closed(t) + s.disconnecting
    && Closed(t) + s.disconnecting
       <= Closed(s) + t.disconnecting + One(FinishesDisconnect(step)) + One(ClosesForShutdown(step))
  }

  lemma HandlerBooks<C>(s: State<C>, step: Step<C>)
    requires HandlerStep(step) && Enabled(s, step)
    ensures Books(s, step, HandlerNext(s, step))
  {
    hide Drop, IgnoredIds, Without, Resent;
    if step.DialSucceeds? {
      assert HandlerNext(s, step).lastId == s.lastId;
    }
  }

  lemma HandlerCloseBooks<C>(s: State<C>, step: Step<C>)
    requires HandlerStep(step) && Enabled(s, step) && (s.reconnector.Dialing? ==> s.disconnected)
    ensures CloseBooks(s, step, HandlerNext(s, step))
  {
  }

  /** The fields of the accounts. */
  ghost predicate SameConnection<C>(s: State<C>, t: State<C>)
  {
    && t.earlier == s.earlier && t.disconnected == s.disconnected && t.disconnecting == s.disconnecting
    && t.resending == s.resending && t.testing == s.testing && t.reading == s.reading && t.leaving == s.leaving
  }

  lemma EntryStepBooks<C>(s: State<C>, step: Step<C>)
    requires !HandlerStep(step) && !ConnectionStep(step) && !step.ResendLocked? && Enabled(s, step)
    ensures SameConnection(s, Next(s, step)) && Next(s, step).lastId == s.lastId + One(TakesId(step))
  {
    hide HandlerNext, Drop, IgnoredIds, Without, Resent;
    if step.Submit? || step.Take? || step.Send? || step.FailNext? {
      LedgerStepBooks(s, step);
    } else {
      hide Put, SetFate;
    }
  }

  lemma LedgerStepBooks<C>(s: State<C>, step: Step<C>)
    requires (step.Submit? || step.Take? || step.Send? || step.FailNext?) && Enabled(s, step)
    ensures SameConnection(s, Next(s, step)) && Next(s, step).lastId == s.lastId
  {
    hide HandlerNext, Drop, IgnoredIds, Without, Resent;
  }

  lemma ConnectionStepBooks<C>(s: State<C>, step: Step<C>)
    requires !HandlerStep(step) && (ConnectionStep(step) || step.ResendLocked?) && Enabled(s, step)
    ensures Books(s, step, Next(s, step)) && CloseBooks(s, step, Next(s, step))
  {
    hide HandlerNext, Put, SetFate, Drop, IgnoredIds, Without, Resent;
  }

  lemma OtherBooks<C>(s: State<C>, step: Step<C>)
    requires !HandlerStep(step) && Enabled(s, step)
    ensures Books(s, step, Next(s, step)) && CloseBooks(s, step, Next(s, step))
  {
    hide Enabled, Next;
    if ConnectionStep(step) || step.ResendLocked? {
      ConnectionStepBooks(s, step);
    } else {
      EntryStepBooks(s, step);
    }
  }

  ghost predicate Accounted<C>(s: State<C>, steps: seq<Step<C>>, t: State<C>)
  {
    && |t.earlier| == |s.earlier| + Count(Reconnects, steps)
    && t.resending + Count(Resends, steps) == s.resending + Count(Reconnects, steps)
    && t.testing + Count(Tests, steps) == s.testing + Count(Reconnects, steps) + Count(ReadsOn, steps)
    && InputHandlers(t) + Count(Leaves, steps) == InputHandlers(s) + Count(Reconnects, steps)
    && t.lastId == s.lastId + Count(TakesId, steps)
    && Closed(s) + t.disconnecting + Count(FinishesDisconnect, steps) <= Closed(t) + s.disconnecting
    && Closed(t) + s.disconnecting
       <= Closed(s) + t.disconnecting + Count(FinishesDisconnect, steps) + Count(ClosesForShutdown, steps)
  }

  lemma DialingIsDown<C>(s: State<C>)
    requires Inv(s)
    ensures s.reconnector.Dialing? ==> s.disconnected
  {
  }

  lemma BooksAddUp<C>(s: State<C>, steps: seq<Step<C>>, t: State<C>, u: State<C>)
    requires steps != [] && Books(s, steps[0], t) && CloseBooks(s, steps[0], t) && Accounted(t, steps[1..], u)
    ensures Accounted(s, steps, u)
  {
    hide Closed, InputHandlers;
  }

  lemma StepBooks<C>(s: State<C>, step: Step<C>)
    requires Inv(s) && Enabled(s, step)
    ensures Books(s, step, Next(s, step)) && CloseBooks(s, step, Next(s, step))
  {
    hide Books, CloseBooks, Enabled, Next, Inv;
    DialingIsDown(s);
    if HandlerStep(step) {
      NextOfHandler(s, step);
      HandlerBooks(s, step);
      HandlerCloseBooks(s, step);
    } else {
      OtherBooks(s, step);
    }
  }

  lemma {:induction false} RunAccounts<C>(s: State<C>, steps: seq<Step<C>>)
    requires Inv(s) && IsRun(Advance, s, steps)
    ensures Accounted(s, steps, After(Advance, s, steps))
    decreases |steps|
  {
    if steps != [] {
      hide Inv, Enabled, Next, Books, CloseBooks, Accounted;
      StepBooks(s, steps[0]);
      StepKeepsInv(s, steps[0]);
      RunAccounts(Next(s, steps[0]), steps[1..]);
      BooksAddUp(s, steps, Next(s, steps[0]), After(Advance, s, steps));
    }
  }

  ghost predicate FollowedUp<C>(connected: bool, steps: seq<Step<C>>, s: State<C>)
  {
    && Count(Reconnects, steps) == |s.earlier|
    && Count(Resends, steps) + s.resending == |s.earlier|
    && Count(Leaves, steps) + InputHandlers(s) == |s.earlier| + One(connected)
    && Count(Tests, steps) + s.testing == |s.earlier| + One(connected) + Count(ReadsOn, steps)
    && Count(FinishesDisconnect, steps) + s.disconnecting <= Closed(s)
    && Closed(s) <= Count(FinishesDisconnect, steps) + s.disconnecting + Count(ClosesForShutdown, steps)
  }

  lemma AccountsFromStart<C>(connected: bool, noReconnect: bool, steps: seq<Step<C>>, t: State<C>)
    requires Accounted(Start(connected, noReconnect), steps, t)
    ensures FollowedUp(connected, steps, t)
  {
    hide Count, InputHandlers, Closed;
    var s: State<C> := Start(connected, noReconnect);
    StartOfAccounts<C>(connected, noReconnect);
    hide Start, One;
  }

  lemma StartOfAccounts<C>(connected: bool, noReconnect: bool)
    ensures var s: State<C> := Start(connected, noReconnect);
      && |s.earlier| == s.resending == s.disconnecting == Closed(s) == 0
      && InputHandlers(s) == s.testing == One(connected)
  {
  }

  /** Over every run: each reconnect launches one resendRequests, which resends or gives up
      or is still to come; each connection has one input handler, which tests for shutdown
      before every read and ends once; and each Disconnect that closes a channel goes on to
      its second half, the rest being closed by Shutdown. */
  lemma EveryReconnectIsFollowedUp<C>(connected: bool, noReconnect: bool, steps: seq<Step<C>>)
    requires IsRun(Advance, Start(connected, noReconnect), steps)
    ensures FollowedUp(connected, steps, After(Advance, Start(connected, noReconnect), steps))
  {
    hide Inv, Enabled, Next, IsRun, After, Accounted, FollowedUp;
    StartInv<C>(connected, noReconnect);
    RunAccounts(Start<C>(connected, noReconnect), steps);
    AccountsFromStart(connected, noReconnect, steps, After(Advance, Start<C>(connected, noReconnect), steps));
  }

  // ---------- Issued requests ----------

  lemma IssueEnters<C>(s: State<C>, m: string, cmd: Command, c: C)
    ensures Enabled(s, Issue(m, cmd, c))
    ensures Next(s, Issue(m, cmd, c))
         == s.(lastId := s.lastId + 1,
               ledger := s.ledger[s.lastId + 1 := Entry(Request(s.lastId + 1, m, cmd, c), Issued, [], [])])
  {
    hide HandlerNext, Drop, IgnoredIds, Without, Resent;
  }

  /** The command that takes the k-th id is in the ledger under k for ever, with its method
      and channel. */
  lemma EveryIssueIsEntered<C>(connected: bool, noReconnect: bool, steps: seq<Step<C>>, i: nat)
    requires IsRun(Advance, Start(connected, noReconnect), steps) && i < |steps| && steps[i].Issue?
    ensures var s := After(Advance, Start(connected, noReconnect), steps);
            var id := Count(TakesId, steps[..i]) + 1;
            id in s.ledger && s.ledger[id].request == Request(id, steps[i].methodName, steps[i].cmd, steps[i].responseChan)
  {
    hide Inv, Enabled, Next, IsRun, After, Accounted;
    var s0: State<C> := Start(connected, noReconnect);
    StartInv<C>(connected, noReconnect);
    RunSplit(Advance, s0, steps, i);
    RunKeepsInv(s0, steps[..i]);
    IdsCounted<C>(connected, noReconnect, steps[..i]);
    IssueStays(After(Advance, s0, steps[..i]), steps[i..]);
  }

  lemma IdsCounted<C>(connected: bool, noReconnect: bool, steps: seq<Step<C>>)
    requires IsRun(Advance, Start(connected, noReconnect), steps)
    ensures After(Advance, Start(connected, noReconnect), steps).lastId == Count(TakesId, steps)
  {
    hide Inv, Enabled, Next, IsRun, After, Count;
    StartInv<C>(connected, noReconnect);
    RunAccounts(Start<C>(connected, noReconnect), steps);
  }

  lemma IssueStays<C>(s: State<C>, steps: seq<Step<C>>)
    requires Inv(s) && IsRun(Advance, s, steps) && steps != [] && steps[0].Issue?
    ensures var t, id := After(Advance, s, steps), s.lastId + 1;
            id in t.ledger && t.ledger[id].request == Request(id, steps[0].methodName, steps[0].cmd, steps[0].responseChan)
  {
    hide Inv, Enabled, Next, IsRun, After;
    IssueEnters(s, steps[0].methodName, steps[0].cmd, steps[0].responseChan);
    OneKept(s, steps[0]);
    RunSplit(Advance, s, steps, 1);
    assert steps[..1] == [steps[0]];
    RunContinues(Next(s, steps[0]), steps[1..]);
  }

  /** Nothing else gets into the ledger. */
  lemma LedgerGrows<C>(s: State<C>, step: Step<C>)
    requires Inv(s) && Enabled(s, step)
    ensures Next(s, step).ledger.Keys == s.ledger.Keys + (if Issues(step) then {s.lastId + 1} else {})
  {
    hide Inv;
    if step.Issue? || step.Submit? || step.Send? || step.Receive? || step.Take? || step.ResendLocked? {
      hide Without, Resent, IgnoredIds, HandlerNext;
    } else if step.FailNext? {
      NextFailsPending(s);
    } else {
      hide Next, Enabled;
      OthersLeaveTheLedgerAlone(s, step);
    }
  }

  lemma {:induction false} OnlyIssuesAreEntered<C>(s: State<C>, steps: seq<Step<C>>)
    requires Inv(s) && IsRun(Advance, s, steps)
    ensures |After(Advance, s, steps).ledger| == |s.ledger| + Count(Issues, steps)
    decreases |steps|
  {
    if steps != [] {
      hide Inv, Enabled, Next;
      var t := Next(s, steps[0]);
      LedgerGrows(s, steps[0]);
      NewIdIsNew(s);
      assert |t.ledger| == |t.ledger.Keys| && |s.ledger| == |s.ledger.Keys|;
      StepKeepsInv(s, steps[0]);
      OnlyIssuesAreEntered(t, steps[1..]);
    }
  }

  // ---------- Reconnecting ----------

  /** The state after the reconnect handler has dialed and resendRequests has had its turn:
      rescans are dropped, everything else is still pending, in order. */
  ghost predicate Renewed<C>(s: State<C>, t: State<C>)
  {
    && !t.disconnected && t.closes == 0 && t.earlier == s.earlier + [1]
    && t.reconnector.Waiting? && t.lock.Free? && t.testing == s.testing + 1 && t.resending == s.resending
    && t.shutdown == s.shutdown && t.lastId == s.lastId && t.ledger.Keys == s.ledger.Keys
    && (forall r | r in s.pending :: r in t.pending <==> r.methodName != "rescan")
    && Sublist(t.pending, s.pending) && (forall r | r in t.pending :: r in s.pending)
    && (forall id | id in s.ledger ::
          t.ledger[id] == if s.ledger[id].fate.Pending? && s.ledger[id].request.methodName == "rescan"
                          then s.ledger[id].(fate := Dropped) else s.ledger[id])
  }

  lemma DroppedAreRescans<C>(s: State<C>, id: nat)
    requires Inv(s) && s.lock.Free? && id in s.ledger
    ensures id in IgnoredIds(s.pending)
       <==> s.ledger[id].fate.Pending? && s.ledger[id].request.methodName == "rescan"
  {
    if id in IgnoredIds(s.pending) {
      var i :| 0 <= i < |s.pending| && Ignored(s.pending[i]) && s.pending[i].id == id;
      ListedAt(s.ledger, s.index, s.pending, s.lock, i);
    }
    if s.ledger[id].fate.Pending? && s.ledger[id].request.methodName == "rescan" {
      assert id in s.index && s.index[id] in s.pending;
      var i :| 0 <= i < |s.pending| && s.pending[i] == s.index[id];
      ListedAt(s.ledger, s.index, s.pending, s.lock, i);
      assert Ignored(s.pending[i]);
    }
  }

  lemma ResentAfterDialing<C>(s: State<C>)
    requires Inv(s) && s.reconnector.Dialing? && s.lock.Free? && s.disconnected && s.closes == 1
    ensures Enabled(s, DialSucceeds) && Enabled(Next(s, DialSucceeds), ResendLocked)
    ensures Renewed(s, Next(Next(s, DialSucceeds), ResendLocked))
  {
    hide Sublist, Resent, IgnoredIds;
    RescansAreNotResent(s.pending);
    forall id | id in s.ledger
      ensures id in IgnoredIds(s.pending)
         <==> s.ledger[id].fate.Pending? && s.ledger[id].request.methodName == "rescan"
    {
      DroppedAreRescans(s, id);
    }
    hide Inv;
  }

  /** Once the handler dials with the lock free, dialing and resending can follow, and the
      requests are renewed. */
  lemma DialedAndResent<C>(s: State<C>)
    requires Inv(s) && s.reconnector.Dialing? && s.lock.Free?
    ensures IsRun(Advance, s, [DialSucceeds, ResendLocked]) && Renewed(s, After(Advance, s, [DialSucceeds, ResendLocked]))
  {
    hide Inv, IsRun, After, Renewed, Enabled, Next;
    DialingIsDisconnected(s);
    ResentAfterDialing(s);
    var t := Next(s, DialSucceeds);
    OneStep(Advance, s, DialSucceeds);
    OneStep(Advance, t, ResendLocked);
    RunSum(Advance, s, [DialSucceeds], [ResendLocked]);
    var steps: seq<Step<C>> := [DialSucceeds, ResendLocked];
    assert [DialSucceeds] + [ResendLocked] == steps;
  }

  /** A client that lost its connection and is not shut down can come back. */
  lemma LostConnectionComesBack<C>(s: State<C>) returns (steps: seq<Step<C>>)
    requires Inv(s) && s.lock.Free? && s.disconnected && !s.shutdown && s.reconnector.Waiting?
    ensures steps == [NoticeDisconnect, PassCheck, DialSucceeds, ResendLocked]
    ensures IsRun(Advance, s, steps) && Renewed(s, After(Advance, s, steps))
  {
    hide IsRun, After, Renewed;
    NoSteps(Advance, s);
    assert s.closes == 1;
    steps := ThenKept(s, [], NoticeDisconnect);
    steps := ThenKept(s, steps, PassCheck);
    var t := s.(reconnector := Dialing);
    DialedAndResent(t);
    RunSum(Advance, s, steps, [DialSucceeds, ResendLocked]);
    assert steps + [DialSucceeds, ResendLocked] == [NoticeDisconnect, PassCheck, DialSucceeds, ResendLocked];
    steps := steps + [DialSucceeds, ResendLocked];
    SameRequests(s, t, After(Advance, s, steps));
  }

  lemma SameRequests<C>(s: State<C>, t: State<C>, u: State<C>)
    requires t == s.(reconnector := Dialing) && Renewed(t, u)
    ensures Renewed(s, u)
  {
  }

  // ---------- Requests carried through ----------

  /** A caller has got this answer to a request of its own; nothing else has changed. */
  function Served<C>(s: State<C>, m: string, cmd: Command, c: C, r: Response): State<C>
  {
    var id := s.lastId + 1;
    s.(lastId := id, ledger := s.ledger[id := Entry(Request(id, m, cmd, c), Answered(r), [], [r])])
  }

  lemma NewIdIsFree<C>(s: State<C>)
    requires Inv(s)
    ensures s.lastId + 1 !in s.ledger && s.lastId + 1 !in s.index
    ensures forall r | r in s.pending :: r.id != s.lastId + 1
  {
    NewIdIsNew(s);
    forall r | r in s.pending ensures r.id != s.lastId + 1 {
      var i :| 0 <= i < |s.pending| && s.pending[i] == r;
      ListedAt(s.ledger, s.index, s.pending, s.lock, i);
    }
  }

  lemma {:induction false} WithoutLast<C>(rs: seq<Request<C>>, r: Request<C>)
    requires forall q | q in rs :: q.id != r.id
    ensures Without(rs + [r], r.id) == rs
  {
    if rs == [] {
      assert rs + [r] == [r] && [r][1..] == [];
    } else {
      assert (rs + [r])[1..] == rs[1..] + [r];
      WithoutLast(rs[1..], r);
    }
  }

  /** The state with a request entered as e. */
  function With<C>(s: State<C>, e: Entry<C>): State<C>
  {
    s.(lastId := e.request.id, ledger := s.ledger[e.request.id := e])
  }

  lemma AnswerIsSent<C>(s: State<C>, id: nat)
    requires id in s.ledger && s.ledger[id].buffer == [] && (s.ledger[id].fate.Refused? || s.ledger[id].fate.Taken?)
    ensures var r := s.ledger[id].fate.r;
            && Enabled(s, Send(id))
            && Next(s, Send(id)) == s.(ledger := s.ledger[id := s.ledger[id].(fate := Answered(r), buffer := [r])])
  {
    hide HandlerNext, Drop, IgnoredIds, Without, Resent;
    assert [] + [s.ledger[id].fate.r] == [s.ledger[id].fate.r];
  }

  lemma AnswerIsRead<C>(s: State<C>, id: nat, r: Response)
    requires id in s.ledger && s.ledger[id].buffer == [r] && s.ledger[id].received == []
    ensures Enabled(s, Receive(id))
    ensures Next(s, Receive(id)) == s.(ledger := s.ledger[id := s.ledger[id].(buffer := [], received := [r])])
  {
    hide HandlerNext, Drop, IgnoredIds, Without, Resent;
    assert [r][1..] == [] && [] + [r] == [r];
  }

  lemma AnswerIsReceived<C>(s: State<C>, e: Entry<C>, r: Response)
    requires e.fate == Refused(r) || e.fate == Taken(r)
    requires e.buffer == [] && e.received == []
    ensures var id := e.request.id;
            var t := With(s, e.(fate := Answered(r), buffer := [r]));
            && Enabled(With(s, e), Send(id)) && Next(With(s, e), Send(id)) == t
            && Enabled(t, Receive(id)) && Next(t, Receive(id)) == With(s, e.(fate := Answered(r), received := [r]))
  {
    hide Enabled, Next;
    var id := e.request.id;
    var t := With(s, e.(fate := Answered(r), buffer := [r]));
    AnswerIsSent(With(s, e), id);
    AnswerIsRead(t, id, r);
    assert t.ledger == With(s, e).ledger[id := t.ledger[id]];
    assert With(s, e.(fate := Answered(r), received := [r])).ledger
        == t.ledger[id := e.(fate := Answered(r), received := [r])];
  }

  lemma NewIsSubmitted<C>(s: State<C>, e: Entry<C>)
    requires s.lock.Free? && e.fate.Issued?
    ensures var t := With(s, e);
            && Enabled(t, Submit(e.request.id))
            && Next(t, Submit(e.request.id))
               == if s.connEstablished && !s.shutdown then
                    With(s, e.(fate := Pending)).(pending := s.pending + [e.request],
                                                  index := s.index[e.request.id := e.request])
                  else With(s, e.(fate := Refused(if s.connEstablished then ErrClientShutdown else ErrClientNotConnected)))
  {
    hide HandlerNext, Drop, IgnoredIds, Without, Resent;
  }

  lemma NewIsTaken<C>(s: State<C>, e: Entry<C>, reply: Response)
    requires s.lock.Free? && s.connEstablished && s.reading > 0 && reply.Reply? && e.request.id !in s.index
    requires forall q | q in s.pending :: q.id != e.request.id
    ensures var t := With(s, e).(pending := s.pending + [e.request], index := s.index[e.request.id := e.request]);
            && Enabled(t, Take(e.request.id, reply))
            && Next(t, Take(e.request.id, reply)) == With(s, e.(fate := Taken(reply)))
  {
    hide HandlerNext, Drop, IgnoredIds, Without, Resent;
    WithoutLast(s.pending, e.request);
    assert s.index[e.request.id := e.request] - {e.request.id} == s.index;
  }

  /** From any state of a run in which the lock is free and an input handler reads, a new
      request can be sent, answered and received, and leaves no trace but its entry. */
  lemma CallIsServed<C>(s: State<C>, m: string, cmd: Command, c: C, reply: Response) returns (steps: seq<Step<C>>)
    requires Inv(s) && s.lock.Free? && s.connEstablished && !s.shutdown && s.reading > 0 && reply.Reply?
    ensures var id := s.lastId + 1;
            steps == [Issue(m, cmd, c), Submit(id), Take(id, reply), Send(id), Receive(id)]
    ensures IsRun(Advance, s, steps) && After(Advance, s, steps) == Served(s, m, cmd, c, reply)
  {
    hide Inv, IsRun, After, Enabled, Next;
    NewIdIsFree(s);
    IssueEnters(s, m, cmd, c);
    var id := s.lastId + 1;
    var e: Entry<C> := Entry(Request(id, m, cmd, c), Issued, [], []);
    NewIsSubmitted(s, e);
    NewIsTaken(s, e.(fate := Pending), reply);
    AnswerIsReceived(s, e.(fate := Taken(reply)), reply);
    NoSteps(Advance, s);
    steps := ThenKept(s, [], Issue(m, cmd, c));
    steps := ThenKept(s, steps, Submit(id));
    steps := ThenKept(s, steps, Take(id, reply));
    steps := ThenKept(s, steps, Send(id));
    steps := ThenKept(s, steps, Receive(id));
  }

  /** Without a connection, or after a shutdown, the caller is told so. */
  lemma CallIsRefused<C>(s: State<C>, m: string, cmd: Command, c: C) returns (steps: seq<Step<C>>)
    requires Inv(s) && s.lock.Free? && (s.connEstablished ==> s.shutdown)
    ensures var id := s.lastId + 1;
            steps == [Issue(m, cmd, c), Submit(id), Send(id), Receive(id)]
    ensures IsRun(Advance, s, steps)
    ensures After(Advance, s, steps)
         == Served(s, m, cmd, c, if s.connEstablished then ErrClientShutdown else ErrClientNotConnected)
  {
    hide Inv, IsRun, After, Enabled, Next;
    IssueEnters(s, m, cmd, c);
    var id := s.lastId + 1;
    var e: Entry<C> := Entry(Request(id, m, cmd, c), Issued, [], []);
    NewIsSubmitted(s, e);
    var err := if s.connEstablished then ErrClientShutdown else ErrClientNotConnected;
    AnswerIsReceived(s, e.(fate := Refused(err)), err);
    NoSteps(Advance, s);
    steps := ThenKept(s, [], Issue(m, cmd, c));
    steps := ThenKept(s, steps, Submit(id));
    steps := ThenKept(s, steps, Send(id));
    steps := ThenKept(s, steps, Receive(id));
  }
}
