/** The one-in-flight notification protocol of a websocket client (rpcwebsocket.go):
notificationQueueHandler, SendMessage, outHandler and Disconnect as processes that
take turns. Between two steps anything may happen in the others. */
module NtfnProtocol {

  import opened Options
  import opened Runs

  const SEND_BUFFER_SIZE: nat := 50

  /** A message on sendChan. The sender of a notification wants to hear that it went out;
      what a response says is of no interest here. */
  datatype Message<T> = Notification(msg: T) | Response

  /** Where notificationQueueHandler stands. */
  datatype Handler<T> =
    | Selecting                // at the select of its loop
    | CheckingConnection(m: T) // in SendMessage, before the Disconnected test
    | Sending(m: T)            // in SendMessage, at the send on sendChan
    | Draining                 // emptying its channels after quit
    | HandlerDone

  /** Where the one goroutine that queues notifications stands in QueueNotification. */
  datatype Queuer<T> = Idle | Putting(m: T)

  /** Where outHandler stands. */
  datatype Out<T> =
    | Receiving
    | Writing(w: Message<T>)
    | Reporting(w: Message<T>)        // about to send true on the done channel
    | Flushing                        // emptying sendChan after quit or a failed write
    | FlushReporting(w: Message<T>)   // about to send false on the done channel
    | OutDone

  datatype State<T> = State(
    ntfnChan: seq<T>,            // capacity 1
    sendChan: seq<Message<T>>,   // capacity SEND_BUFFER_SIZE
    ntfnSentChan: seq<bool>,     // capacity 1
    disconnected: bool,          // the flag and the closed quit channel
    pending: seq<T>,
    waiting: bool,
    handler: Handler<T>,
    out: Out<T>,
    queuer: Queuer<T>,
    limit: nat,                  // how many other goroutines can be in SendMessage at once
    responders: nat,             // how many are, past its Disconnected test
    // What has happened so far.
    received: seq<T>,            // notifications taken from ntfnChan by the loop
    handedOn: seq<T>,            // notifications passed to SendMessage
    written: seq<T>)             // notifications written to the connection

  function Start<T>(limit: nat): State<T>
  {
    State([], [], [], false, [], false, Selecting, Receiving, Idle, limit, 0, [], [], [])
  }

  datatype Step<T> =
    | StartQueuing(m: T)   // the Disconnected test of QueueNotification
    | PutOnNtfnChan        // its send
    | StartResponding      // the test of a SendMessage without a done channel
    | Respond              // its send
    | Disconnect
    | TakeNotification
    | TestConnection
    | PutOnSendChan
    | TakeReport
    | NoticeQuit
    | DrainNotification
    | DrainReport
    | FinishDraining
    | TakeMessage
    | WriteOk
    | WriteFails
    | Report
    | OutNoticeQuit
    | FlushMessage
    | FlushReport
    | FinishFlushing

  /** When a step can be taken. Only sends on full channels and receives on empty ones
      block. */
  predicate Enabled<T>(s: State<T>, step: Step<T>)
  {
    match step
    case StartQueuing(_) => s.queuer.Idle?
    case PutOnNtfnChan => s.queuer.Putting? && |s.ntfnChan| < 1
    case StartResponding => s.responders < s.limit
    case Respond => s.responders > 0 && |s.sendChan| < SEND_BUFFER_SIZE
    case Disconnect => true
    case TakeNotification => s.handler.Selecting? && s.ntfnChan != []
    case TestConnection => s.handler.CheckingConnection? && (s.disconnected ==> |s.ntfnSentChan| < 1)
    case PutOnSendChan => s.handler.Sending? && |s.sendChan| < SEND_BUFFER_SIZE
    case TakeReport => s.handler.Selecting? && s.ntfnSentChan != []
    case NoticeQuit => s.handler.Selecting? && s.disconnected
    case DrainNotification => s.handler.Draining? && s.ntfnChan != []
    case DrainReport => s.handler.Draining? && s.ntfnSentChan != []
    case FinishDraining => s.handler.Draining? && s.ntfnChan == [] && s.ntfnSentChan == []
    case TakeMessage => s.out.Receiving? && s.sendChan != []
    case WriteOk => s.out.Writing?
    case WriteFails => s.out.Writing?
    case Report => s.out.Reporting? && |s.ntfnSentChan| < 1
    case OutNoticeQuit => s.out.Receiving? && s.disconnected
    case FlushMessage => s.out.Flushing? && s.sendChan != []
    case FlushReport => s.out.FlushReporting? && |s.ntfnSentChan| < 1
    case FinishFlushing => s.out.Flushing? && s.sendChan == []
  }

  function Next<T>(s: State<T>, step: Step<T>): State<T>
    requires Enabled(s, step)
  {
    match step
    case StartQueuing(m) => if s.disconnected then s else s.(queuer := Putting(m))
    case PutOnNtfnChan => s.(ntfnChan := s.ntfnChan + [s.queuer.m], queuer := Idle)
    case StartResponding => if s.disconnected then s else s.(responders := s.responders + 1)
    case Respond => s.(sendChan := s.sendChan + [Response], responders := s.responders - 1)
    case Disconnect => s.(disconnected := true)
    case TakeNotification =>
      var m := s.ntfnChan[0];
      var t := s.(ntfnChan := s.ntfnChan[1..], received := s.received + [m], waiting := true);
      if s.waiting then t.(pending := s.pending + [m])
      else t.(handedOn := s.handedOn + [m], handler := CheckingConnection(m))
    case TestConnection =>
      if s.disconnected then s.(ntfnSentChan := s.ntfnSentChan + [false], handler := Selecting)
      else s.(handler := Sending(s.handler.m))
    case PutOnSendChan => s.(sendChan := s.sendChan + [Notification(s.handler.m)], handler := Selecting)
    case TakeReport =>
      var t := s.(ntfnSentChan := s.ntfnSentChan[1..]);
      if s.pending == [] then t.(waiting := false)
      else
        var m := s.pending[0];
        t.(pending := s.pending[1..], handedOn := s.handedOn + [m], handler := CheckingConnection(m))
    case NoticeQuit => s.(handler := Draining)
    case DrainNotification => s.(ntfnChan := s.ntfnChan[1..])
    case DrainReport => s.(ntfnSentChan := s.ntfnSentChan[1..])
    case FinishDraining => s.(handler := HandlerDone)
    case TakeMessage => s.(sendChan := s.sendChan[1..], out := Writing(s.sendChan[0]))
    case WriteOk =>
      if s.out.w.Notification? then s.(written := s.written + [s.out.w.msg], out := Reporting(s.out.w))
      else s.(out := Receiving)
    case WriteFails => s.(disconnected := true, out := Flushing)
    case Report => s.(ntfnSentChan := s.ntfnSentChan + [true], out := Receiving)
    case OutNoticeQuit => s.(out := Flushing)
    case FlushMessage =>
      var w := s.sendChan[0];
      s.(sendChan := s.sendChan[1..], out := if w.Notification? then FlushReporting(w) else Flushing)
    case FlushReport => s.(ntfnSentChan := s.ntfnSentChan + [false], out := Flushing)
    case FinishFlushing => s.(out := OutDone)
  }

  function Advance<T>(s: State<T>, step: Step<T>): Option<State<T>>
  {
    if Enabled(s, step) then Some(Next(s, step)) else None
  }

  // ---------- What is in flight ----------

  function Notifications<T>(q: seq<Message<T>>): seq<T>
  {
    if q == [] then [] else (if q[0].Notification? then [q[0].msg] else []) + Notifications(q[1..])
  }

  /** Notifications on their way to the connection, the next to be written first. */
  function ToWrite<T>(s: State<T>): seq<T>
  {
    (if s.out.Writing? && s.out.w.Notification? then [s.out.w.msg] else [])
    + Notifications(s.sendChan)
    + (if s.handler.CheckingConnection? || s.handler.Sending? then [s.handler.m] else [])
  }

  /** Written, or given up on, but not yet reported back to the handler. */
  function ToReport<T>(s: State<T>): nat
  {
    |s.ntfnSentChan| + if s.out.Reporting? || s.out.FlushReporting? then 1 else 0
  }

  function InFlight<T>(s: State<T>): nat { |ToWrite(s)| + ToReport(s) }

  predicate Running<T>(out: Out<T>) { out.Receiving? || out.Writing? || out.Reporting? }

  /** A notification that can still reach the connection. */
  predicate Live<T>(s: State<T>)
  {
    && Running(s.out)
    && (s.handler.Sending? || Notifications(s.sendChan) != [] || (s.out.Writing? && s.out.w.Notification?))
  }

  /** Once outHandler is done, all that are past their test find room on sendChan. */
  predicate RoomForAll<T>(s: State<T>)
  {
    |s.sendChan| + s.responders + (if s.handler.Sending? then 1 else 0) <= SEND_BUFFER_SIZE
  }

  ghost predicate Inv<T>(s: State<T>)
  {
    && s.responders <= s.limit
    && (s.handler.HandlerDone? ==> |s.ntfnChan| + (if s.queuer.Putting? then 1 else 0) <= 1)
    && (s.out.OutDone? && s.limit < SEND_BUFFER_SIZE ==> RoomForAll(s))
    && InFlight(s) <= 1
    && (!s.waiting ==> InFlight(s) == 0)
    && (s.pending != [] ==> s.waiting)
    && (s.out.Reporting? || s.out.FlushReporting? ==> s.out.w.Notification?)
    && s.received == s.handedOn + s.pending
    && s.written <= s.handedOn
    && (!s.disconnected || Live(s) ==> s.handedOn == s.written + ToWrite(s))
    && (!s.disconnected ==>
          && (s.waiting ==> InFlight(s) == 1)
          && Running(s.out) && !s.handler.Draining? && !s.handler.HandlerDone?)
  }

  lemma {:induction false} NotificationsAppend<T>(q: seq<Message<T>>, m: Message<T>)
    ensures Notifications(q + [m]) == Notifications(q) + if m.Notification? then [m.msg] else []
  {
    if q == [] {
      assert q + [m] == [m];
      assert [m][1..] == [];
    } else {
      NotificationsAppend(q[1..], m);
      assert (q + [m])[1..] == q[1..] + [m];
    }
  }

  lemma OutsideStep<T>(s: State<T>, step: Step<T>)
    requires Inv(s) && Enabled(s, step)
    requires step.StartQueuing? || step.PutOnNtfnChan? || step.StartResponding? || step.Respond?
          || step.Disconnect?
    ensures Inv(Next(s, step))
  {
    if step.Respond? {
      NotificationsAppend(s.sendChan, Response);
    }
  }

  lemma TakeNotificationStep<T>(s: State<T>)
    requires Inv(s) && Enabled(s, TakeNotification)
    ensures Inv(Next(s, TakeNotification))
  {
    hide Notifications;
    var m := s.ntfnChan[0];
    assert s.handedOn + [] == s.handedOn;
    assert s.received + [m] == s.handedOn + (s.pending + [m]);
    assert s.handedOn + [m] + [] == s.handedOn + [m];
  }

  lemma TakeReportStep<T>(s: State<T>)
    requires Inv(s) && Enabled(s, TakeReport)
    ensures Inv(Next(s, TakeReport))
  {
    hide Notifications;
    if s.pending != [] {
      var m := s.pending[0];
      assert s.pending == [m] + s.pending[1..];
      assert s.handedOn + s.pending == s.handedOn + [m] + s.pending[1..];
      assert ToWrite(s) == [];
    }
  }

  lemma DrainStep<T>(s: State<T>, step: Step<T>)
    requires Inv(s) && Enabled(s, step)
    requires step.NoticeQuit? || step.DrainNotification? || step.DrainReport? || step.FinishDraining?
    ensures Inv(Next(s, step))
  {
  }

  lemma SendStep<T>(s: State<T>, step: Step<T>)
    requires Inv(s) && Enabled(s, step)
    requires step.TestConnection? || step.PutOnSendChan?
    ensures Inv(Next(s, step))
  {
    if step.PutOnSendChan? {
      NotificationsAppend(s.sendChan, Notification(s.handler.m));
    }
  }

  lemma WriteStep<T>(s: State<T>, step: Step<T>)
    requires Inv(s) && Enabled(s, step)
    requires step.WriteOk? || step.WriteFails? || step.Report?
    ensures Inv(Next(s, step))
  {
    hide Notifications;
  }

  lemma TakeMessageStep<T>(s: State<T>)
    requires Inv(s) && Enabled(s, TakeMessage)
    ensures Inv(Next(s, TakeMessage))
  {
  }

  lemma FlushStep<T>(s: State<T>, step: Step<T>)
    requires Inv(s) && Enabled(s, step)
    requires step.OutNoticeQuit? || step.FlushMessage? || step.FlushReport? || step.FinishFlushing?
    ensures Inv(Next(s, step))
  {
  }

  lemma StepKeepsInv<T>(s: State<T>, step: Step<T>)
    requires Inv(s) && Enabled(s, step)
    ensures Inv(Next(s, step))
  {
    hide Inv, Next, Enabled;
    match step
    case StartQueuing(_) => OutsideStep(s, step);
    case PutOnNtfnChan => OutsideStep(s, step);
    case StartResponding => OutsideStep(s, step);
    case Respond => OutsideStep(s, step);
    case Disconnect => OutsideStep(s, step);
    case TakeNotification => TakeNotificationStep(s);
    case TakeReport => TakeReportStep(s);
    case NoticeQuit => DrainStep(s, step);
    case DrainNotification => DrainStep(s, step);
    case DrainReport => DrainStep(s, step);
    case FinishDraining => DrainStep(s, step);
    case TestConnection => SendStep(s, step);
    case PutOnSendChan => SendStep(s, step);
    case TakeMessage => TakeMessageStep(s);
    case WriteOk => WriteStep(s, step);
    case WriteFails => WriteStep(s, step);
    case Report => WriteStep(s, step);
    case _ => FlushStep(s, step);
  }

  lemma StartInv<T>(limit: nat)
    ensures Inv<T>(Start(limit))
  {
  }

  lemma {:induction false} RunKeepsInv<T>(s: State<T>, steps: seq<Step<T>>)
    requires Inv(s) && IsRun(Advance, s, steps)
    ensures Inv(After(Advance, s, steps))
    decreases |steps|
  {
    if steps != [] {
      StepKeepsInv(s, steps[0]);
      RunKeepsInv(Next(s, steps[0]), steps[1..]);
    }
  }

  // ---------- What every run guarantees ----------

  /** At most one notification is in flight, none when the handler does not wait, and
      none is overtaken, duplicated or dropped on the way to the sender. */
  lemma OneInFlight<T>(limit: nat, steps: seq<Step<T>>)
    requires IsRun(Advance, Start(limit), steps)
    ensures var s: State<T> := After(Advance, Start(limit), steps);
            && InFlight(s) <= 1
            && (!s.waiting ==> InFlight(s) == 0)
            && (s.pending != [] ==> s.waiting)
            && s.received == s.handedOn + s.pending
  {
    RunKeepsInv<T>(Start(limit), steps);
  }

  /** What reaches the connection are the received notifications in order; while it
      lasts, each is written, in flight or pending. */
  lemma WrittenInOrder<T>(limit: nat, steps: seq<Step<T>>)
    requires IsRun(Advance, Start(limit), steps)
    ensures var s: State<T> := After(Advance, Start(limit), steps);
            && s.written <= s.received
            && (!s.disconnected ==> s.received == s.written + ToWrite(s) + s.pending)
  {
    RunKeepsInv<T>(Start(limit), steps);
  }

  /** Reporting back never blocks, neither for outHandler nor for a SendMessage that
      finds the client disconnected. */
  lemma ReportingNeverBlocks<T>(limit: nat, steps: seq<Step<T>>)
    requires IsRun(Advance, Start(limit), steps)
    ensures var s: State<T> := After(Advance, Start(limit), steps);
            && (s.out.Reporting? ==> Enabled(s, Report))
            && (s.out.FlushReporting? ==> Enabled(s, FlushReport))
            && (s.handler.CheckingConnection? ==> Enabled(s, TestConnection))
  {
    RunKeepsInv<T>(Start(limit), steps);
  }

  lemma WaitingMoves<T>(s: State<T>)
    requires Inv(s) && !s.disconnected && s.waiting
    ensures || Enabled(s, TestConnection) || Enabled(s, PutOnSendChan) || Enabled(s, TakeReport)
            || Enabled(s, TakeMessage) || Enabled(s, WriteOk) || Enabled(s, Report)
  {
  }

  /** While the client is connected a waiting handler is never forgotten: one of the two
      goroutines can move. */
  lemma WaitingIsServed<T>(limit: nat, steps: seq<Step<T>>)
    requires IsRun(Advance, Start(limit), steps)
    ensures var s: State<T> := After(Advance, Start(limit), steps);
            !s.disconnected && s.waiting ==>
              || Enabled(s, TestConnection) || Enabled(s, PutOnSendChan) || Enabled(s, TakeReport)
              || Enabled(s, TakeMessage) || Enabled(s, WriteOk) || Enabled(s, Report)
  {
    RunKeepsInv<T>(Start(limit), steps);
    var s := After(Advance, Start<T>(limit), steps);
    hide Inv, Enabled, IsRun, After;
    if !s.disconnected && s.waiting {
      WaitingMoves(s);
    }
  }

  // ---------- Moves left ----------

  /** Steps other than the tests of new senders and the disconnect itself. */
  predicate IsMove<T>(step: Step<T>)
  {
    !step.StartQueuing? && !step.StartResponding? && !step.Disconnect?
  }

  /** How many moves the goroutines and what is on its way can still make. */
  function Work<T>(s: State<T>): nat
  {
    (if s.queuer.Putting? then 9 else 0) + 8 * |s.ntfnChan| + 7 * |s.pending|
    + 5 * s.responders + 4 * |s.sendChan| + |s.ntfnSentChan|
    + (match s.handler
       case Selecting => 2
       case CheckingConnection(_) => 8
       case Sending(_) => 7
       case Draining => 1
       case HandlerDone => 0)
    + (match s.out
       case Receiving => 2
       case Writing(_) => 5
       case Reporting(_) => 4
       case Flushing => 1
       case FlushReporting(_) => 3
       case OutDone => 0)
  }

  lemma HandlerMovesWork<T>(s: State<T>, step: Step<T>)
    requires Enabled(s, step)
    requires step.TakeNotification? || step.TestConnection? || step.PutOnSendChan? || step.TakeReport?
          || step.NoticeQuit? || step.DrainNotification? || step.DrainReport? || step.FinishDraining?
    ensures Work(Next(s, step)) < Work(s)
    ensures s.disconnected ==> Next(s, step).disconnected
  {
  }

  lemma OutMovesWork<T>(s: State<T>, step: Step<T>)
    requires Enabled(s, step)
    requires step.TakeMessage? || step.WriteOk? || step.WriteFails? || step.Report? || step.OutNoticeQuit?
          || step.FlushMessage? || step.FlushReport? || step.FinishFlushing?
    ensures Work(Next(s, step)) < Work(s)
    ensures s.disconnected ==> Next(s, step).disconnected
  {
  }

  lemma MovesWork<T>(s: State<T>, step: Step<T>)
    requires Enabled(s, step)
    ensures IsMove(step) ==> Work(Next(s, step)) < Work(s)
    ensures s.disconnected ==> Next(s, step).disconnected && (!IsMove(step) ==> Next(s, step) == s)
  {
    if step.TakeMessage? || step.WriteOk? || step.WriteFails? || step.Report? || step.OutNoticeQuit?
       || step.FlushMessage? || step.FlushReport? || step.FinishFlushing? {
      hide Work, Next, Enabled;
      OutMovesWork(s, step);
    } else if step.TakeNotification? || step.TestConnection? || step.PutOnSendChan? || step.TakeReport?
       || step.NoticeQuit? || step.DrainNotification? || step.DrainReport? || step.FinishDraining? {
      hide Work, Next, Enabled;
      HandlerMovesWork(s, step);
    }
  }

  /** After a disconnect only so many moves are left. */
  lemma {:induction false} WindsDown<T>(s: State<T>, steps: seq<Step<T>>)
    requires s.disconnected && IsRun(Advance, s, steps)
    ensures Count(IsMove, steps) + Work(After(Advance, s, steps)) <= Work(s)
    decreases |steps|
  {
    if steps != [] {
      hide Enabled, Next, Work;
      MovesWork(s, steps[0]);
      WindsDown(Next(s, steps[0]), steps[1..]);
    }
  }

  // ---------- While the connection lasts ----------

  /** Moves that serve what has been accepted: all but a failed write. */
  predicate Serves<T>(step: Step<T>) { IsMove(step) && !step.WriteFails? }

  ghost predicate Rests<T(!new)>(s: State<T>)
  {
    forall step: Step<T> | Serves(step) :: !Enabled(s, step)
  }

  /** All notifications that QueueNotification let in. */
  function Accepted<T>(s: State<T>): seq<T>
  {
    s.received + s.ntfnChan + if s.queuer.Putting? then [s.queuer.m] else []
  }

  lemma ServingStep<T>(s: State<T>, step: Step<T>)
    requires Inv(s) && !s.disconnected && Enabled(s, step) && Serves(step)
    ensures !Next(s, step).disconnected && Accepted(Next(s, step)) == Accepted(s)
  {
    hide Notifications, InFlight;
    if step.TakeNotification? {
      assert s.ntfnChan == [s.ntfnChan[0]] + s.ntfnChan[1..];
    }
  }

  lemma {:induction false} ServingRun<T>(s: State<T>, steps: seq<Step<T>>)
    requires Inv(s) && !s.disconnected && IsRun(Advance, s, steps) && forall step | step in steps :: Serves(step)
    ensures var t := After(Advance, s, steps);
            Inv(t) && !t.disconnected && Accepted(t) == Accepted(s) && |steps| + Work(t) <= Work(s)
    decreases |steps|
  {
    if steps != [] {
      hide Inv, Enabled, Next, Work, Accepted;
      assert steps[0] in steps;
      StepKeepsInv(s, steps[0]);
      ServingStep(s, steps[0]);
      MovesWork(s, steps[0]);
      ServingRun(Next(s, steps[0]), steps[1..]);
    }
  }

  lemma RestingHandler<T>(s: State<T>)
    requires Inv(s) && !s.disconnected
    requires !Enabled(s, TakeMessage) && !Enabled(s, WriteOk) && !Enabled(s, Report)
    requires !Enabled(s, TestConnection) && !Enabled(s, PutOnSendChan) && !Enabled(s, TakeReport)
    requires !Enabled(s, TakeNotification) && !Enabled(s, PutOnNtfnChan)
    ensures s.written == Accepted(s)
  {
  }

  lemma RestingIsServed<T(!new)>(s: State<T>)
    requires Inv(s) && !s.disconnected && Rests(s)
    ensures s.written == Accepted(s)
  {
    hide Inv, Enabled, Accepted;
    RestingHandler(s);
  }

  /** While the connection lasts everything is served: if nobody new comes and no write
      fails, only so many moves are left, and when they are made, each notification that
      was let in has been written, in order. */
  lemma EverythingIsWritten<T(!new)>(limit: nat, before: seq<Step<T>>, steps: seq<Step<T>>)
    requires IsRun(Advance, Start(limit), before) && IsRun(Advance, After(Advance, Start(limit), before), steps)
    requires !After(Advance, Start(limit), before).disconnected && forall step | step in steps :: Serves(step)
    ensures var s := After(Advance, Start(limit), before);
            var t := After(Advance, s, steps);
            && |steps| <= Work(s) && !t.disconnected
            && (Rests(t) ==> t.written == Accepted(s))
  {
    hide Inv, Rests, Serves, Accepted, IsRun, After, Work;
    StartInv<T>(limit);
    RunKeepsInv<T>(Start(limit), before);
    var s := After(Advance, Start<T>(limit), before);
    ServingRun(s, steps);
    var t := After(Advance, s, steps);
    if Rests(t) {
      RestingIsServed(t);
    }
  }

  /** And the moves can be made until then. */
  lemma {:induction false} RestIsReached<T(!new)>(s: State<T>) returns (steps: seq<Step<T>>)
    requires Inv(s) && !s.disconnected
    ensures IsRun(Advance, s, steps) && (forall step | step in steps :: Serves(step)) && Rests(After(Advance, s, steps))
    decreases Work(s)
  {
    NoSteps(Advance, s);
    steps := [];
    if step: Step<T> :| Serves(step) && Enabled(s, step) {
      hide Inv, Enabled, Next, Work;
      StepKeepsInv(s, step);
      ServingStep(s, step);
      MovesWork(s, step);
      OneStep(Advance, s, step);
      var more := RestIsReached(Next(s, step));
      RunSum(Advance, s, [step], more);
      steps := [step] + more;
    }
  }

  // ---------- Whether everybody gets to the end ----------

  predicate AllDone<T>(s: State<T>)
  {
    s.handler.HandlerDone? && s.out.OutDone? && s.queuer.Idle? && s.responders == 0
  }

  /** Somebody waits for ever: nothing moves any more, but not everybody is done. */
  ghost predicate Stranded<T(!new)>(s: State<T>)
  {
    s.disconnected && !AllDone(s) && forall step: Step<T> | IsMove(step) :: !Enabled(s, step)
  }

  lemma {:induction false} StrandedForEver<T(!new)>(s: State<T>, steps: seq<Step<T>>)
    requires Stranded(s) && IsRun(Advance, s, steps)
    ensures After(Advance, s, steps) == s
    decreases |steps|
  {
    if steps != [] {
      hide Enabled, Next;
      MovesWork(s, steps[0]);
      StrandedForEver(s, steps[1..]);
    }
  }

  lemma OutMovesOn<T>(s: State<T>)
    requires Inv(s) && s.disconnected && !s.out.OutDone?
    ensures || Enabled(s, WriteOk) || Enabled(s, Report) || Enabled(s, OutNoticeQuit) || Enabled(s, FlushMessage)
            || Enabled(s, FlushReport) || Enabled(s, FinishFlushing)
  {
  }

  lemma OthersMoveOn<T>(s: State<T>)
    requires Inv(s) && s.disconnected && s.out.OutDone? && s.limit < SEND_BUFFER_SIZE && !AllDone(s)
    ensures || Enabled(s, NoticeQuit) || Enabled(s, TestConnection) || Enabled(s, PutOnSendChan)
            || Enabled(s, DrainNotification) || Enabled(s, DrainReport) || Enabled(s, FinishDraining)
            || Enabled(s, PutOnNtfnChan) || Enabled(s, Respond)
  {
  }

  /** With few enough other senders, nobody is left waiting after a disconnect. */
  lemma NobodyStrands<T(!new)>(limit: nat, steps: seq<Step<T>>)
    requires limit < SEND_BUFFER_SIZE && IsRun(Advance, Start(limit), steps)
    ensures !Stranded(After(Advance, Start(limit), steps))
  {
    RunKeepsInv<T>(Start(limit), steps);
    LimitStays(Start<T>(limit), steps);
    var s := After(Advance, Start<T>(limit), steps);
    hide Inv, Enabled, IsRun, After;
    if s.disconnected && !AllDone(s) {
      if s.out.OutDone? {
        OthersMoveOn(s);
      } else {
        OutMovesOn(s);
      }
    }
  }

  lemma {:induction false} LimitStays<T>(s: State<T>, steps: seq<Step<T>>)
    requires IsRun(Advance, s, steps)
    ensures After(Advance, s, steps).limit == s.limit
    decreases |steps|
  {
    if steps != [] {
      LimitStays(Next(s, steps[0]), steps[1..]);
    }
  }



  function Times<T>(step: Step<T>, n: nat): seq<Step<T>> { seq(n, _ => step) }

  lemma {:induction false} ManyStartResponding<T>(s: State<T>, n: nat)
    requires !s.disconnected && s.responders + n <= s.limit
    ensures IsRun(Advance, s, Times(StartResponding, n))
    ensures After(Advance, s, Times(StartResponding, n)) == s.(responders := s.responders + n)
    decreases n
  {
    if n > 0 {
      assert Times<T>(StartResponding, n)[1..] == Times(StartResponding, n - 1);
      ManyStartResponding(Next(s, StartResponding), n - 1);
    }
  }

  lemma {:induction false} ManyRespond<T>(s: State<T>, n: nat)
    requires n <= s.responders && |s.sendChan| + n <= SEND_BUFFER_SIZE
    ensures IsRun(Advance, s, Times(Respond, n))
    ensures After(Advance, s, Times(Respond, n))
         == s.(responders := s.responders - n, sendChan := s.sendChan + seq(n, _ => Response))
    decreases n
  {
    if n > 0 {
      assert Times<T>(Respond, n)[1..] == Times(Respond, n - 1);
      ManyRespond(Next(s, Respond), n - 1);
      assert s.sendChan + [Response] + seq(n - 1, _ => Response) == s.sendChan + seq(n, _ => Response);
    } else {
      assert s.sendChan + seq(0, _ => Response) == s.sendChan;
    }
  }


  /** One notification gets as far as the send on sendChan. */
  lemma UpToSending<T>(limit: nat, m: T) returns (steps: seq<Step<T>>)
    ensures IsRun(Advance, Start(limit), steps)
    ensures After(Advance, Start(limit), steps)
         == Start(limit).(received := [m], handedOn := [m], waiting := true, handler := Sending(m))
  {
    hide IsRun, After;
    var s0: State<T> := Start(limit);
    NoSteps(Advance, s0);
    steps := Then(Advance, s0, [], s0, StartQueuing(m));
    steps := Then(Advance, s0, steps, s0.(queuer := Putting(m)), PutOnNtfnChan);
    assert [] + [m] == [m] && [m][1..] == [];
    steps := Then(Advance, s0, steps, s0.(ntfnChan := [m]), TakeNotification);
    var s3 := s0.(received := [m], handedOn := [m], waiting := true, handler := CheckingConnection(m));
    steps := Then(Advance, s0, steps, s3, TestConnection);
  }

  /** The handler is about to send a notification when as many others as sendChan can hold
      are past their test; after the disconnect they get there first. */
  lemma Overtaken<T(!new)>(limit: nat, m: T) returns (steps: seq<Step<T>>)
    requires limit >= SEND_BUFFER_SIZE
    ensures IsRun(Advance, Start(limit), steps) && Stranded(After(Advance, Start(limit), steps))
  {
    hide IsRun, After;
    var n := SEND_BUFFER_SIZE;
    var s0: State<T> := Start(limit);
    steps := UpToSending(limit, m);
    var s4 := After(Advance, s0, steps);
    ManyStartResponding(s4, n);
    RunSum(Advance, s0, steps, Times(StartResponding, n));
    steps := steps + Times(StartResponding, n);
    var s5 := s4.(responders := n);
    steps := Then(Advance, s0, steps, s5, Disconnect);
    steps := Then(Advance, s0, steps, s5.(disconnected := true), OutNoticeQuit);
    steps := Then(Advance, s0, steps, s5.(disconnected := true, out := Flushing), FinishFlushing);
    var s8 := s5.(disconnected := true, out := OutDone);
    ManyRespond(s8, n);
    RunSum(Advance, s0, steps, Times(Respond, n));
    steps := steps + Times(Respond, n);
    assert After(Advance, s0, steps) == s8.(responders := 0, sendChan := [] + seq(n, _ => Response));
  }


  ghost predicate CanStrand<T(!new)>(limit: nat)
  {
    exists steps: seq<Step<T>> :: IsRun(Advance, Start(limit), steps) && Stranded(After(Advance, Start(limit), steps))
  }

  /** A disconnect can leave a goroutine waiting for ever exactly when the other senders can
      fill sendChan on their own. */
  lemma StrandsExactly<T(!new)>(limit: nat, m: T)
    ensures CanStrand<T>(limit) <==> limit >= 50
  {
    if limit >= SEND_BUFFER_SIZE {
      var steps := Overtaken(limit, m);
    } else if steps: seq<Step<T>> :|
        IsRun(Advance, Start(limit), steps) && Stranded(After(Advance, Start(limit), steps)) {
      NobodyStrands(limit, steps);
    }
  }
}
