/** The connection of the RPC client over whole runs (rpcclient/infrastructure.go): when it
is down, how often it is read, and how the reconnect handler goes on. */
module ClientConnections {

  import opened ClientProtocol
  import opened ClientRuns
  import opened Options
  import opened Runs

  /** A call of doDisconnect. */
  predicate HangsUp<C>(step: Step<C>)
  {
    step.DoDisconnect? || step.GiveUpResending? || step.Leave? || step.CloseConnection?
  }

  predicate FailsToRead<C>(step: Step<C>) { step.ReadFails? }

  predicate Notices<C>(step: Step<C>) { step.NoticeDisconnect? }

  predicate Dials<C>(step: Step<C>) { step.PassCheck? }

  predicate FailsToDial<C>(step: Step<C>) { step.DialFails? }

  predicate GivesUp<C>(step: Step<C>) { step.NoticeShutdown? }

  /** What one step does to the connection, its readers and the reconnect handler. */
  ghost predicate Connects<C>(s: State<C>, step: Step<C>, t: State<C>)
  {
    && (t.disconnected <==> HangsUp(step) || (s.disconnected && !Reconnects(step)))
    && t.reading + One(ReadsOn(step)) + One(FailsToRead(step)) == s.reading + One(Tests(step) && !s.shutdown)
    && t.leaving + One(Leaves(step)) == s.leaving + One(FailsToRead(step)) + One(Tests(step) && s.shutdown)
    && (t.reconnector.Over? <==> s.reconnector.Over? || GivesUp(step))
    && (GivesUp(step) ==> s.shutdown)
    && (!t.reconnector.Over? ==>
          && One(Notices(step)) + One(FailsToDial(step)) + One(s.reconnector.Checking?)
             == One(Dials(step)) + One(t.reconnector.Checking?)
          && One(Dials(step)) + One(s.reconnector.Dialing?)
             == One(FailsToDial(step)) + One(Reconnects(step)) + One(t.reconnector.Dialing?))
  }

  lemma DialingConnects<C>(s: State<C>, step: Step<C>)
    requires (step.DialFails? || step.DialSucceeds?) && Enabled(s, step)
    ensures Connects(s, step, HandlerNext(s, step))
  {
  }

  lemma WaitingConnects<C>(s: State<C>, step: Step<C>)
    requires (step.NoticeDisconnect? || step.NoticeShutdown? || step.PassCheck?) && Enabled(s, step)
    ensures Connects(s, step, HandlerNext(s, step))
  {
  }

  lemma EndingConnects<C>(s: State<C>, step: Step<C>)
    requires (step.GiveUpResending? || step.Leave?) && Enabled(s, step)
    ensures Connects(s, step, HandlerNext(s, step))
  {
  }

  lemma ReadingConnects<C>(s: State<C>, step: Step<C>)
    requires (step.TestShutdown? || step.ReadOk? || step.ReadFails?) && Enabled(s, step)
    ensures Connects(s, step, HandlerNext(s, step))
  {
  }

  lemma HangingUpConnects<C>(s: State<C>, step: Step<C>)
    requires (step.DoDisconnect? || step.CloseConnection?) && Enabled(s, step)
    ensures Connects(s, step, Next(s, step))
  {
    hide HandlerNext, Put, SetFate, Drop, IgnoredIds, CloseShutdown;
  }

  predicate SameForConnection<C>(s: State<C>, t: State<C>)
  {
    && t.disconnected == s.disconnected && t.reading == s.reading && t.leaving == s.leaving
    && t.reconnector == s.reconnector
  }

  lemma LockedConnects<C>(s: State<C>, step: Step<C>)
    requires (step.DisconnectLocked? || step.ShutdownLocked? || step.FailDone?) && Enabled(s, step)
    ensures SameForConnection(s, Next(s, step))
  {
    hide HandlerNext, Put, SetFate, Drop, IgnoredIds;
  }

  lemma RequestConnects<C>(s: State<C>, step: Step<C>)
    requires !HandlerStep(step) && Enabled(s, step)
    requires !step.DoDisconnect? && !step.DisconnectLocked? && !step.ShutdownLocked? && !step.FailDone? && !step.CloseConnection?
    ensures SameForConnection(s, Next(s, step))
  {
    hide HandlerNext, Drop, IgnoredIds;
  }

  lemma StepConnects<C>(s: State<C>, step: Step<C>)
    requires Enabled(s, step)
    ensures Connects(s, step, Next(s, step))
  {
    hide Enabled, Next;
    if HandlerStep(step) {
      hide Connects;
      NextOfHandler(s, step);
      if step.DialFails? || step.DialSucceeds? {
        DialingConnects(s, step);
      } else if step.NoticeDisconnect? || step.NoticeShutdown? || step.PassCheck? {
        WaitingConnects(s, step);
      } else if step.GiveUpResending? || step.Leave? {
        EndingConnects(s, step);
      } else {
        ReadingConnects(s, step);
      }
    } else if step.DoDisconnect? || step.CloseConnection? {
      hide Connects;
      HangingUpConnects(s, step);
    } else if step.DisconnectLocked? || step.ShutdownLocked? || step.FailDone? {
      LockedConnects(s, step);
    } else {
      RequestConnects(s, step);
    }
  }

  // ---------- When the connection is down ----------

  lemma {:induction false} DownSinceExactly<C>(s: State<C>, steps: seq<Step<C>>)
    requires IsRun(Advance, s, steps) && forall step | step in steps :: !Reconnects(step)
    ensures After(Advance, s, steps).disconnected <==> s.disconnected || exists step | step in steps :: HangsUp(step)
    decreases |steps|
  {
    if steps != [] {
      hide Enabled, Next;
      assert steps[0] in steps;
      StepConnects(s, steps[0]);
      DownSinceExactly(Next(s, steps[0]), steps[1..]);
      assert steps == [steps[0]] + steps[1..];
    }
  }

  lemma OneRun<C>(s: State<C>, step: Step<C>)
    requires IsRun(Advance, s, [step])
    ensures Enabled(s, step)
  {
  }

  /** After a reconnect the connection is down exactly when somebody has hung up since. */
  lemma DownExactly<C>(s: State<C>, steps: seq<Step<C>>, i: nat)
    requires IsRun(Advance, s, steps) && i < |steps| && Reconnects(steps[i])
    requires forall k | i < k < |steps| :: !Reconnects(steps[k])
    ensures After(Advance, s, steps).disconnected <==> exists k :: i < k < |steps| && HangsUp(steps[k])
  {
    hide Enabled, Next, IsRun, After;
    var since := steps[i + 1..];
    RunSplit(Advance, s, steps, i + 1);
    UpAgain(s, steps, i);
    DownSinceExactly(After(Advance, s, steps[..i + 1]), since);
    assert forall k | i < k < |steps| :: since[k - i - 1] == steps[k];
    assert forall k | 0 <= k < |since| :: since[k] == steps[k + i + 1];
  }

  lemma UpAgain<C>(s: State<C>, steps: seq<Step<C>>, i: nat)
    requires i < |steps| && IsRun(Advance, s, steps[..i + 1]) && Reconnects(steps[i])
    ensures !After(Advance, s, steps[..i + 1]).disconnected
  {
    hide Enabled, Next, IsRun, After;
    var before := steps[..i + 1];
    RunSplit(Advance, s, before, i);
    assert before[i..] == [steps[i]];
    var t := After(Advance, s, before[..i]);
    OneRun(t, steps[i]);
    OneStep(Advance, t, steps[i]);
    StepConnects(t, steps[i]);
  }

  // ---------- Reads ----------

  /** As long as nobody shuts the client down, every test is followed by a read, which
      goes on or fails or is still waiting; whoever fails to read leaves. */
  lemma {:induction false} EveryTestIsFollowedByARead<C>(s: State<C>, steps: seq<Step<C>>)
    requires IsRun(Advance, s, steps) && !After(Advance, s, steps).shutdown
    ensures var t := After(Advance, s, steps);
      && t.reading + Count(ReadsOn, steps) + Count(FailsToRead, steps) == s.reading + Count(Tests, steps)
      && t.leaving + Count(Leaves, steps) == s.leaving + Count(FailsToRead, steps)
    decreases |steps|
  {
    if steps != [] {
      hide Enabled, Next;
      var s' := Next(s, steps[0]);
      assert !s.shutdown by {
        if s.shutdown {
          ShutdownStays(s, steps);
        }
      }
      StepConnects(s, steps[0]);
      EveryTestIsFollowedByARead(s', steps[1..]);
    }
  }

  /** After a shutdown no new read begins. */
  lemma {:induction false} NoReadsAfterShutdown<C>(s: State<C>, steps: seq<Step<C>>)
    requires IsRun(Advance, s, steps) && s.shutdown
    ensures var t := After(Advance, s, steps);
      && t.reading + Count(ReadsOn, steps) + Count(FailsToRead, steps) == s.reading
      && t.leaving + Count(Leaves, steps) == s.leaving + Count(FailsToRead, steps) + Count(Tests, steps)
    decreases |steps|
  {
    if steps != [] {
      ShutdownStays(s, [steps[0]]);
      hide Enabled, Next;
      OneStep(Advance, s, steps[0]);
      StepConnects(s, steps[0]);
      NoReadsAfterShutdown(Next(s, steps[0]), steps[1..]);
    }
  }

  // ---------- Reconnecting ----------

  /** The reconnect handler ends only when it notices a shutdown. */
  lemma {:induction false} OverExactly<C>(s: State<C>, steps: seq<Step<C>>)
    requires IsRun(Advance, s, steps)
    ensures After(Advance, s, steps).reconnector.Over?
       <==> s.reconnector.Over? || exists step | step in steps :: GivesUp(step)
    ensures (exists step | step in steps :: GivesUp(step)) ==> After(Advance, s, steps).shutdown
    decreases |steps|
  {
    if steps != [] {
      StepConnects(s, steps[0]);
      if GivesUp(steps[0]) {
        ShutdownStays(s, steps);
      }
      hide Enabled, Next;
      OverExactly(Next(s, steps[0]), steps[1..]);
      assert steps == [steps[0]] + steps[1..];
    }
  }

  /** Until then every lost connection that it notices and every failed dial leads to a
      check, every check passed to a dial, and a dial fails or succeeds. */
  lemma {:induction false} EveryLossIsDialed<C>(s: State<C>, steps: seq<Step<C>>)
    requires IsRun(Advance, s, steps) && !After(Advance, s, steps).reconnector.Over?
    ensures var t := After(Advance, s, steps);
      && Count(Notices, steps) + Count(FailsToDial, steps) + One(s.reconnector.Checking?)
         == Count(Dials, steps) + One(t.reconnector.Checking?)
      && Count(Dials, steps) + One(s.reconnector.Dialing?)
         == Count(FailsToDial, steps) + Count(Reconnects, steps) + One(t.reconnector.Dialing?)
    decreases |steps|
  {
    if steps != [] {
      hide Enabled, Next;
      StepConnects(s, steps[0]);
      OverExactly(Next(s, steps[0]), steps[1..]);
      EveryLossIsDialed(Next(s, steps[0]), steps[1..]);
    }
  }
}
