/** Whole runs of the one-in-flight protocol, counted: what was asked for, what became of
it, and what a disconnect cuts off. */
module NtfnRuns {

  import opened Options
  import opened Runs
  import opened NtfnProtocol

  /** The notifications that QueueNotification was called with, in order. */
  function Asked<T>(steps: seq<Step<T>>): seq<T>
  {
    if steps == [] then [] else (if steps[0].StartQueuing? then [steps[0].m] else []) + Asked(steps[1..])
  }

  predicate CutsOff<T>(step: Step<T>) { step.Disconnect? || step.WriteFails? }

  predicate AsksToRespond<T>(step: Step<T>) { step.StartResponding? }

  predicate PutsResponse<T>(step: Step<T>) { step.Respond? }

  predicate PutsNotification<T>(step: Step<T>) { step.PutOnSendChan? }

  predicate Queues<T>(step: Step<T>) { step.PutOnNtfnChan? }

  predicate Writes<T>(step: Step<T>) { step.WriteOk? }

  function One(b: bool): nat { if b then 1 else 0 }

  function Responses<T>(q: seq<Message<T>>): nat
  {
    if q == [] then 0 else One(q[0].Response?) + Responses(q[1..])
  }

  lemma {:induction false} ResponsesAppend<T>(q: seq<Message<T>>, m: Message<T>)
    ensures Responses(q + [m]) == Responses(q) + One(m.Response?)
  {
    if q == [] {
      assert q + [m] == [m] && [m][1..] == [];
    } else {
      ResponsesAppend(q[1..], m);
      assert (q + [m])[1..] == q[1..] + [m];
    }
  }

  // ---------- Disconnecting ----------

  lemma CutStep<T>(s: State<T>, step: Step<T>)
    requires Enabled(s, step)
    ensures Next(s, step).disconnected <==> s.disconnected || CutsOff(step)
  {
  }

  /** A client counts as disconnected exactly from the first Disconnect or failed write
      on. */
  lemma {:induction false} DisconnectedExactly<T>(s: State<T>, steps: seq<Step<T>>)
    requires IsRun(Advance, s, steps)
    ensures After(Advance, s, steps).disconnected <==> s.disconnected || exists step | step in steps :: CutsOff(step)
    decreases |steps|
  {
    if steps != [] {
      hide Enabled, Next;
      CutStep(s, steps[0]);
      DisconnectedExactly(Next(s, steps[0]), steps[1..]);
      assert steps == [steps[0]] + steps[1..];
    }
  }

  // ---------- Notifications ----------

  /** What the notifications let in have to do with those asked for. */
  ghost predicate Accounts<T>(s: State<T>, asked: seq<T>)
  {
    && s.received <= asked
    && (!s.handler.Draining? && !s.handler.HandlerDone? ==> Accepted(s) <= asked)
    && (!s.disconnected ==> Accepted(s) == asked && !s.handler.Draining? && !s.handler.HandlerDone?)
  }

  lemma AskedStep<T>(s: State<T>, m: T, asked: seq<T>)
    requires Enabled(s, StartQueuing(m)) && Accounts(s, asked)
    ensures Accounts(Next(s, StartQueuing(m)), asked + [m])
  {
    assert s.received + s.ntfnChan + [] == s.received + s.ntfnChan;
  }

  /** Who asks apart, steps only move notifications along or drop them after the quit. */
  lemma MoveAlong<T>(s: State<T>, step: Step<T>)
    requires Enabled(s, step) && !step.StartQueuing? && !step.DrainNotification?
    ensures Accepted(Next(s, step)) == Accepted(s)
    ensures Next(s, step).received
         == s.received + if step.TakeNotification? then [s.ntfnChan[0]] else []
  {
    if step.TakeNotification? {
      assert s.ntfnChan == [s.ntfnChan[0]] + s.ntfnChan[1..];
    } else if !step.PutOnNtfnChan? {
      StaysPut(s, step);
    }
  }

  lemma StaysPut<T>(s: State<T>, step: Step<T>)
    requires Enabled(s, step) && !step.StartQueuing? && !step.DrainNotification?
    requires !step.TakeNotification? && !step.PutOnNtfnChan?
    ensures var t := Next(s, step); t.received == s.received && t.ntfnChan == s.ntfnChan && t.queuer == s.queuer
  {
  }

  lemma HandlerStep<T>(s: State<T>, step: Step<T>)
    requires Enabled(s, step)
    ensures var t := Next(s, step);
            && (s.disconnected ==> t.disconnected)
            && (s.handler.Draining? || s.handler.HandlerDone? ==> t.handler.Draining? || t.handler.HandlerDone?)
            && (t.handler.Draining? || t.handler.HandlerDone? ==>
                  s.handler.Draining? || s.handler.HandlerDone? || s.disconnected)
            && (step.DrainNotification? ==> s.handler.Draining? && t.received == s.received)
            && (step.TakeNotification? ==> s.handler.Selecting? && s.received + [s.ntfnChan[0]] <= Accepted(s))
  {
  }

  lemma AccountsStep<T>(s: State<T>, step: Step<T>, asked: seq<T>)
    requires Enabled(s, step) && Accounts(s, asked)
    ensures Accounts(Next(s, step), asked + if step.StartQueuing? then [step.m] else [])
  {
    if step.StartQueuing? {
      AskedStep(s, step.m, asked);
    } else {
      hide Enabled, Next, Accepted;
      assert asked + [] == asked && s.received + [] == s.received;
      HandlerStep(s, step);
      if !step.DrainNotification? {
        MoveAlong(s, step);
      }
    }
  }

  lemma {:induction false} AccountsRun<T>(s: State<T>, steps: seq<Step<T>>, asked: seq<T>)
    requires IsRun(Advance, s, steps) && Accounts(s, asked)
    ensures Accounts(After(Advance, s, steps), asked + Asked(steps))
    decreases |steps|
  {
    if steps == [] {
      assert asked + [] == asked;
    } else {
      hide Enabled, Next, Accounts;
      var now := if steps[0].StartQueuing? then [steps[0].m] else [];
      AccountsStep(s, steps[0], asked);
      AccountsRun(Next(s, steps[0]), steps[1..], asked + now);
      assert asked + now + Asked(steps[1..]) == asked + (now + Asked(steps[1..]));
    }
  }

  /** While the connection lasts, each notification asked for is written, in flight,
      pending, in ntfnChan or about to be put there, in this order. Whatever happens, the
      notifications written are the first ones asked for. */
  lemma AllAreAccountedFor<T>(limit: nat, steps: seq<Step<T>>)
    requires IsRun(Advance, Start(limit), steps)
    ensures var s: State<T> := After(Advance, Start(limit), steps);
            && s.written <= s.received <= Asked(steps)
            && (!s.disconnected ==>
                  s.written + ToWrite(s) + s.pending + s.ntfnChan
                  + (if s.queuer.Putting? then [s.queuer.m] else []) == Asked(steps))
  {
    AccountsRun<T>(Start(limit), steps, []);
    assert [] + Asked(steps) == Asked(steps);
    hide IsRun, After;
    WrittenInOrder<T>(limit, steps);
  }

  // ---------- Responses ----------

  function ResponsesUnderway<T>(s: State<T>): nat
  {
    s.responders + Responses(s.sendChan) + One(s.out.Writing? && s.out.w.Response?)
  }

  lemma ResponseStep<T>(s: State<T>, step: Step<T>)
    requires Enabled(s, step) && Running(s.out) && !Next(s, step).disconnected
    ensures Running(Next(s, step).out) && !s.disconnected
    ensures ResponsesUnderway(Next(s, step)) + One(Writes(step)) + |s.written|
         == ResponsesUnderway(s) + One(AsksToRespond(step)) + |Next(s, step).written|
  {
    if step.Respond? {
      ResponsesAppend(s.sendChan, Response);
    } else if step.PutOnSendChan? {
      ResponsesAppend(s.sendChan, Notification(s.handler.m));
    }
  }

  lemma {:induction false} ResponsesConserved<T>(s: State<T>, steps: seq<Step<T>>)
    requires IsRun(Advance, s, steps) && Running(s.out) && !After(Advance, s, steps).disconnected
    ensures var t := After(Advance, s, steps);
            ResponsesUnderway(t) + Count(Writes, steps) + |s.written|
            == ResponsesUnderway(s) + Count(AsksToRespond, steps) + |t.written|
    decreases |steps|
  {
    if steps != [] {
      hide Enabled, Next, ResponsesUnderway;
      DisconnectedExactly(Next(s, steps[0]), steps[1..]);
      ResponseStep(s, steps[0]);
      ResponsesConserved(Next(s, steps[0]), steps[1..]);
    }
  }

  /** While the connection lasts, no response is lost or written twice: those asked for
      are waiting to be sent, on sendChan, being written, or among the messages written
      that are no notifications. */
  lemma AllAreAnswered<T>(limit: nat, steps: seq<Step<T>>)
    requires IsRun(Advance, Start(limit), steps)
    ensures var s: State<T> := After(Advance, Start(limit), steps);
            !s.disconnected ==>
              Count(AsksToRespond, steps) + |s.written|
              == s.responders + Responses(s.sendChan) + One(s.out.Writing? && s.out.w.Response?) + Count(Writes, steps)
  {
    if !After(Advance, Start<T>(limit), steps).disconnected {
      ResponsesConserved<T>(Start(limit), steps);
    }
  }

  // ---------- Reports ----------

  predicate HandsBack<T>(step: Step<T>) { step.TakeReport? || step.DrainReport? }

  predicate FailsToWrite<T>(step: Step<T>) { step.WriteFails? }

  ghost predicate Reports<T>(s: State<T>, step: Step<T>, t: State<T>)
  {
    && |s.handedOn| + InFlight(t) + One(HandsBack(step)) <= |t.handedOn| + InFlight(s)
    && |t.handedOn| + InFlight(s) <= |s.handedOn| + InFlight(t) + One(HandsBack(step)) + One(FailsToWrite(step))
  }

  lemma OutReports<T>(s: State<T>, step: Step<T>)
    requires Enabled(s, step)
    requires step.TakeMessage? || step.WriteOk? || step.WriteFails? || step.Report? || step.OutNoticeQuit?
          || step.FlushMessage? || step.FlushReport? || step.FinishFlushing?
    ensures Reports(s, step, Next(s, step))
  {
  }

  lemma HandlerReports<T>(s: State<T>, step: Step<T>)
    requires Enabled(s, step)
    requires step.TakeNotification? || step.TestConnection? || step.PutOnSendChan? || step.TakeReport?
          || step.NoticeQuit? || step.DrainNotification? || step.DrainReport? || step.FinishDraining?
    ensures Reports(s, step, Next(s, step))
  {
    if step.PutOnSendChan? {
      NotificationsAppend(s.sendChan, Notification(s.handler.m));
      hide Notifications;
    } else {
      hide Notifications;
    }
  }

  lemma OutsideReports<T>(s: State<T>, step: Step<T>)
    requires Enabled(s, step)
    requires step.StartQueuing? || step.PutOnNtfnChan? || step.StartResponding? || step.Respond? || step.Disconnect?
    ensures Reports(s, step, Next(s, step))
  {
    if step.Respond? {
      NotificationsAppend(s.sendChan, Response);
    }
    hide Notifications;
  }

  lemma ReportStep<T>(s: State<T>, step: Step<T>)
    requires Enabled(s, step)
    ensures Reports(s, step, Next(s, step))
  {
    hide Enabled, Next, Reports;
    if step.StartQueuing? || step.PutOnNtfnChan? || step.StartResponding? || step.Respond? || step.Disconnect? {
      OutsideReports(s, step);
    } else if step.TakeMessage? || step.WriteOk? || step.WriteFails? || step.Report? || step.OutNoticeQuit?
          || step.FlushMessage? || step.FlushReport? || step.FinishFlushing? {
      OutReports(s, step);
    } else {
      HandlerReports(s, step);
    }
  }

  lemma {:induction false} ReportsAddUp<T>(s: State<T>, steps: seq<Step<T>>)
    requires IsRun(Advance, s, steps)
    ensures var t := After(Advance, s, steps);
            && |s.handedOn| + InFlight(t) + Count(HandsBack, steps) <= |t.handedOn| + InFlight(s)
            && |t.handedOn| + InFlight(s)
               <= |s.handedOn| + InFlight(t) + Count(HandsBack, steps) + Count(FailsToWrite, steps)
    decreases |steps|
  {
    if steps != [] {
      hide Enabled, Next, InFlight;
      ReportStep(s, steps[0]);
      ReportsAddUp(Next(s, steps[0]), steps[1..]);
    }
  }

  /** Reports say whether all that was handed on has been written. */
  ghost predicate Truthful<T>(s: State<T>)
  {
    && (s.ntfnSentChan != [] ==> (s.ntfnSentChan[0] <==> s.written == s.handedOn))
    && (s.out.Reporting? ==> s.written == s.handedOn)
    && (s.out.FlushReporting? ==> s.written != s.handedOn)
    && (ToWrite(s) != [] ==> |s.written| < |s.handedOn|)
  }

  lemma TruthfulHandler<T>(s: State<T>, step: Step<T>)
    requires Inv(s) && Truthful(s) && Enabled(s, step)
    requires step.TakeNotification? || step.TestConnection? || step.PutOnSendChan? || step.TakeReport?
          || step.NoticeQuit? || step.DrainNotification? || step.DrainReport? || step.FinishDraining?
    ensures Truthful(Next(s, step))
  {
    if step.PutOnSendChan? {
      NotificationsAppend(s.sendChan, Notification(s.handler.m));
    }
    hide Notifications;
  }

  lemma TruthfulOut<T>(s: State<T>, step: Step<T>)
    requires Inv(s) && Truthful(s) && Enabled(s, step)
    requires step.TakeMessage? || step.WriteOk? || step.WriteFails? || step.Report? || step.OutNoticeQuit?
          || step.FlushMessage? || step.FlushReport? || step.FinishFlushing?
    ensures Truthful(Next(s, step))
  {
    if !step.TakeMessage? && !step.FlushMessage? {
      hide Notifications;
    }
  }

  lemma TruthfulOutside<T>(s: State<T>, step: Step<T>)
    requires Inv(s) && Truthful(s) && Enabled(s, step)
    requires step.StartQueuing? || step.PutOnNtfnChan? || step.StartResponding? || step.Respond? || step.Disconnect?
    ensures Truthful(Next(s, step))
  {
    if step.Respond? {
      NotificationsAppend(s.sendChan, Response);
    }
    hide Notifications;
  }

  lemma TruthfulStep<T>(s: State<T>, step: Step<T>)
    requires Inv(s) && Truthful(s) && Enabled(s, step)
    ensures Truthful(Next(s, step))
  {
    hide Inv, Enabled, Next, Truthful;
    if step.StartQueuing? || step.PutOnNtfnChan? || step.StartResponding? || step.Respond? || step.Disconnect? {
      TruthfulOutside(s, step);
    } else if step.TakeMessage? || step.WriteOk? || step.WriteFails? || step.Report? || step.OutNoticeQuit?
          || step.FlushMessage? || step.FlushReport? || step.FinishFlushing? {
      TruthfulOut(s, step);
    } else {
      TruthfulHandler(s, step);
    }
  }

  lemma {:induction false} TruthfulRun<T>(s: State<T>, steps: seq<Step<T>>)
    requires Inv(s) && Truthful(s) && IsRun(Advance, s, steps)
    ensures Truthful(After(Advance, s, steps))
    decreases |steps|
  {
    if steps != [] {
      hide Inv, Enabled, Next, Truthful;
      StepKeepsInv(s, steps[0]);
      TruthfulStep(s, steps[0]);
      TruthfulRun(Next(s, steps[0]), steps[1..]);
    }
  }

  /** Every notification handed on is in flight or has been reported back, but for one
      whose write failed; and a report is true exactly when it was written. */
  lemma EveryoneHearsTheTruth<T>(limit: nat, steps: seq<Step<T>>)
    requires IsRun(Advance, Start(limit), steps)
    ensures var s: State<T> := After(Advance, Start(limit), steps);
            && InFlight(s) + Count(HandsBack, steps) <= |s.handedOn|
            && |s.handedOn| <= InFlight(s) + Count(HandsBack, steps) + Count(FailsToWrite, steps)
            && (s.ntfnSentChan != [] ==> (s.ntfnSentChan[0] <==> s.written == s.handedOn))
  {
    StartInv<T>(limit);
    ReportsAddUp(Start<T>(limit), steps);
    TruthfulRun(Start<T>(limit), steps);
  }

  // ---------- After a disconnect ----------

  lemma LatecomerStep<T>(s: State<T>, step: Step<T>)
    requires Enabled(s, step) && s.disconnected
    ensures var t := Next(s, step);
            && t.disconnected
            && One(Queues(step)) + One(t.queuer.Putting?) == One(s.queuer.Putting?)
            && One(PutsResponse(step)) + t.responders == s.responders
            && One(PutsNotification(step)) + One(t.handler.Sending?) == One(s.handler.Sending?)
  {
  }

  /** Once disconnected, only those that are past their test still get to send, each of
      them once. */
  lemma {:induction false} NoLatecomers<T>(s: State<T>, steps: seq<Step<T>>)
    requires s.disconnected && IsRun(Advance, s, steps)
    ensures var t := After(Advance, s, steps);
            && Count(Queues, steps) + One(t.queuer.Putting?) == One(s.queuer.Putting?)
            && Count(PutsResponse, steps) + t.responders == s.responders
            && Count(PutsNotification, steps) + One(t.handler.Sending?) == One(s.handler.Sending?)
    decreases |steps|
  {
    if steps != [] {
      hide Enabled, Next;
      LatecomerStep(s, steps[0]);
      NoLatecomers(Next(s, steps[0]), steps[1..]);
    }
  }

  // ---------- Room on the channels ----------

  predicate WithinCapacity<T>(s: State<T>)
  {
    |s.ntfnChan| <= 1 && |s.ntfnSentChan| <= 1 && |s.sendChan| <= 50
  }

  lemma CapacityStep<T>(s: State<T>, step: Step<T>)
    requires Enabled(s, step) && WithinCapacity(s)
    ensures WithinCapacity(Next(s, step))
  {
  }

  /** No channel ever holds more than it was made for. */
  lemma {:induction false} CapacitiesHold<T>(s: State<T>, steps: seq<Step<T>>)
    requires IsRun(Advance, s, steps) && WithinCapacity(s)
    ensures WithinCapacity(After(Advance, s, steps))
    decreases |steps|
  {
    if steps != [] {
      hide Enabled, Next, WithinCapacity;
      CapacityStep(s, steps[0]);
      CapacitiesHold(Next(s, steps[0]), steps[1..]);
    }
  }

  // ---------- Any notifications can be sent ----------

  /** Nothing underway, and these have been written. */
  function Quiet<T>(limit: nat, ms: seq<T>): State<T>
  {
    Start(limit).(received := ms, handedOn := ms, written := ms)
  }

  /** The handler has a notification to send. */
  function Ready<T>(limit: nat, ms: seq<T>, m: T): State<T>
  {
    Quiet(limit, ms).(received := ms + [m], handedOn := ms + [m], waiting := true, handler := Sending(m))
  }

  lemma LetInAndTested<T>(limit: nat, ms: seq<T>, m: T) returns (steps: seq<Step<T>>)
    ensures IsRun(Advance, Quiet(limit, ms), steps) && Asked(steps) == [m]
    ensures After(Advance, Quiet(limit, ms), steps) == Ready(limit, ms, m)
  {
    hide IsRun, After;
    var s0 := Quiet(limit, ms);
    NoSteps(Advance, s0);
    steps := Then(Advance, s0, [], s0, StartQueuing(m));
    steps := Then(Advance, s0, steps, s0.(queuer := Putting(m)), PutOnNtfnChan);
    assert [] + [m] == [m] && [m][1..] == [];
    steps := Then(Advance, s0, steps, s0.(ntfnChan := [m]), TakeNotification);
    steps := Then(Advance, s0, steps, Ready(limit, ms, m).(handler := CheckingConnection(m)), TestConnection);
    assert steps == [StartQueuing(m)] + [PutOnNtfnChan, TakeNotification, TestConnection];
    NoneAsked<T>(steps[1..]);
  }

  lemma Put<T>(limit: nat, ms: seq<T>, m: T)
    ensures var s := Ready(limit, ms, m);
            Advance(s, PutOnSendChan) == Some(s.(handler := Selecting, sendChan := [Notification(m)]))
  {
    assert [] + [Notification(m)] == [Notification(m)];
  }

  lemma Write<T>(limit: nat, ms: seq<T>, m: T)
    ensures var s := Ready(limit, ms, m).(handler := Selecting);
            var w := Notification(m);
            && Advance(s.(sendChan := [w]), TakeMessage) == Some(s.(out := Writing(w)))
            && Advance(s.(out := Writing(w)), WriteOk) == Some(s.(out := Reporting(w), written := ms + [m]))
  {
    assert [Notification(m)][1..] == [];
  }

  lemma Sent<T>(limit: nat, ms: seq<T>, m: T) returns (steps: seq<Step<T>>)
    ensures IsRun(Advance, Ready(limit, ms, m), steps) && Asked(steps) == []
    ensures After(Advance, Ready(limit, ms, m), steps)
         == Ready(limit, ms, m).(handler := Selecting, out := Reporting(Notification(m)), written := ms + [m])
  {
    Put(limit, ms, m);
    Write(limit, ms, m);
    hide IsRun, After, Advance, Ready;
    var s0, w := Ready(limit, ms, m), Notification(m);
    var s1 := s0.(handler := Selecting);
    NoSteps(Advance, s0);
    steps := Then(Advance, s0, [], s0, PutOnSendChan);
    steps := Then(Advance, s0, steps, s1.(sendChan := [w]), TakeMessage);
    steps := Then(Advance, s0, steps, s1.(out := Writing(w)), WriteOk);
    NoneAsked(steps);
  }

  lemma Reported<T>(limit: nat, ms: seq<T>, m: T) returns (steps: seq<Step<T>>)
    ensures var s := Ready(limit, ms, m).(handler := Selecting, out := Reporting(Notification(m)), written := ms + [m]);
            IsRun(Advance, s, steps) && Asked(steps) == [] && After(Advance, s, steps) == Quiet(limit, ms + [m])
  {
    hide IsRun, After;
    var s0 := Ready(limit, ms, m).(handler := Selecting, out := Reporting(Notification(m)), written := ms + [m]);
    NoSteps(Advance, s0);
    assert [] + [true] == [true] && [true][1..] == [];
    steps := Then(Advance, s0, [], s0, Report);
    steps := Then(Advance, s0, steps, s0.(out := Receiving, ntfnSentChan := [true]), TakeReport);
    NoneAsked(steps);
  }

  lemma OneMore<T>(limit: nat, ms: seq<T>, m: T) returns (steps: seq<Step<T>>)
    ensures IsRun(Advance, Quiet(limit, ms), steps) && Asked(steps) == [m]
    ensures After(Advance, Quiet(limit, ms), steps) == Quiet(limit, ms + [m])
  {
    hide IsRun, After;
    steps := LetInAndTested(limit, ms, m);
    var sending := Sent(limit, ms, m);
    RunSum(Advance, Quiet(limit, ms), steps, sending);
    AskedSum(steps, sending);
    var reporting := Reported(limit, ms, m);
    RunSum(Advance, Quiet(limit, ms), steps + sending, reporting);
    AskedSum(steps + sending, reporting);
    steps := steps + sending + reporting;
  }

  lemma {:induction false} NoneAsked<T>(steps: seq<Step<T>>)
    requires forall step | step in steps :: !step.StartQueuing?
    ensures Asked(steps) == []
  {
    if steps != [] {
      assert steps[0] in steps;
      NoneAsked(steps[1..]);
    }
  }

  lemma {:induction false} AskedSum<T>(a: seq<Step<T>>, b: seq<Step<T>>)
    ensures Asked(a + b) == Asked(a) + Asked(b)
    decreases |a|
  {
    if a == [] {
      assert a + b == b;
    } else {
      assert (a + b)[0] == a[0] && (a + b)[1..] == a[1..] + b;
      AskedSum(a[1..], b);
      var now := if a[0].StartQueuing? then [a[0].m] else [];
      assert now + (Asked(a[1..]) + Asked(b)) == now + Asked(a[1..]) + Asked(b);
    }
  }

  /** Whatever is asked for can be written, and leaves everybody where they started. */
  lemma {:induction false} AnythingCanBeWritten<T>(limit: nat, ms: seq<T>) returns (steps: seq<Step<T>>)
    ensures IsRun(Advance, Start(limit), steps) && Asked(steps) == ms
    ensures After(Advance, Start(limit), steps) == Start(limit).(received := ms, handedOn := ms, written := ms)
    decreases |ms|
  {
    if ms == [] {
      NoSteps(Advance, Start<T>(limit));
      steps := [];
    } else {
      hide IsRun, After;
      var first, last := ms[..|ms| - 1], ms[|ms| - 1];
      assert ms == first + [last];
      steps := AnythingCanBeWritten(limit, first);
      var more := OneMore(limit, first, last);
      RunSum(Advance, Start<T>(limit), steps, more);
      AskedSum(steps, more);
      steps := steps + more;
    }
  }
}
