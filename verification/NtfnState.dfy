/** The notification registrations that the RPC client re-establishes after a reconnect
(notificationState, trackRegisteredNtfns and reregisterNtfns in rpcclient). */
module NtfnState {

  import opened Options

  datatype OutPoint = OutPoint(hash: string, index: nat)

  /** What a client can send: the commands that register for notifications, and others. */
  datatype Command =
    | NotifyBlocks
    | NotifyNewTransactions(verbose: Option<bool>)
    | NotifySpent(outPoints: seq<OutPoint>)
    | NotifyReceived(addresses: seq<string>)
    | OtherCommand(name: string)

  /** The registrations as a value. */
  datatype Registered = Registered(
    blocks: bool, newTx: bool, newTxVerbose: bool, spent: set<OutPoint>, received: set<string>)

  const NOTHING := Registered(false, false, false, {}, {})

  function Elements<T>(xs: seq<T>): set<T> { set x | x in xs }

  /** What one answered command adds. */
  function Tracked(s: Registered, cmd: Command): Registered
  {
    match cmd
    case NotifyBlocks => s.(blocks := true)
    case NotifyNewTransactions(v) => if v == Some(true) then s.(newTxVerbose := true) else s.(newTx := true)
    case NotifySpent(ops) => s.(spent := s.spent + Elements(ops))
    case NotifyReceived(addrs) => s.(received := s.received + Elements(addrs))
    case OtherCommand(_) => s
  }

  function TrackedAll(s: Registered, cmds: seq<Command>): Registered
    decreases |cmds|
  {
    if cmds == [] then s else TrackedAll(Tracked(s, cmds[0]), cmds[1..])
  }

  /** xs lists every element of s, each once, in any order. */
  ghost predicate Lists<T(!new)>(xs: seq<T>, s: set<T>)
  {
    (forall x :: x in xs <==> x in s) && |xs| == |s|
  }

  function Maybe<T>(b: bool, x: T): seq<T> { if b then [x] else [] }

  /** The commands that re-establish s: at most one of each kind, in this order, those
      with a list naming every element once in whatever order the map yields them. */
  ghost predicate Reestablishes(cmds: seq<Command>, s: Registered)
  {
    exists ops: seq<OutPoint>, addrs: seq<string> ::
      && Lists(ops, s.spent) && Lists(addrs, s.received)
      && cmds == Commands(s, ops, addrs)
  }

  function Commands(s: Registered, ops: seq<OutPoint>, addrs: seq<string>): seq<Command>
  {
    Maybe(s.blocks, NotifyBlocks)
    + Maybe(s.newTx || s.newTxVerbose, NotifyNewTransactions(Some(s.newTxVerbose)))
    + Maybe(ops != [], NotifySpent(ops))
    + Maybe(addrs != [], NotifyReceived(addrs))
  }

  // ---------- The state and its methods ----------

  class NotificationState {
    var notifyBlocks: bool
    var notifyNewTx: bool
    var notifyNewTxVerbose: bool
    var notifyReceived: set<string>
    var notifySpent: set<OutPoint>

    function View(): Registered
      reads this
    {
      Registered(notifyBlocks, notifyNewTx, notifyNewTxVerbose, notifySpent, notifyReceived)
    }

    constructor ()
      ensures View() == NOTHING
    {
      notifyBlocks, notifyNewTx, notifyNewTxVerbose := false, false, false;
      notifyReceived, notifySpent := {}, {};
    }

    /** trackRegisteredNtfns: handlers says whether the client has notification handlers. */
    method Track(handlers: bool, cmd: Command)
      modifies this
      ensures View() == if handlers then Tracked(old(View()), cmd) else old(View())
    {
      if !handlers {
        return;
      }
      match cmd {
        case NotifyBlocks =>
          notifyBlocks := true;
        case NotifyNewTransactions(verbose) =>
          if verbose.Some? && verbose.value {
            notifyNewTxVerbose := true;
          } else {
            notifyNewTx := true;
          }
        case NotifySpent(ops) =>
          for i := 0 to |ops|
            invariant View() == old(View()).(spent := notifySpent)
            invariant notifySpent == old(notifySpent) + Elements(ops[..i])
          {
            assert ops[..i + 1] == ops[..i] + [ops[i]];
            notifySpent := notifySpent + {ops[i]};
          }
          assert ops[..|ops|] == ops;
        case NotifyReceived(addrs) =>
          for i := 0 to |addrs|
            invariant View() == old(View()).(received := notifyReceived)
            invariant notifyReceived == old(notifyReceived) + Elements(addrs[..i])
          {
            assert addrs[..i + 1] == addrs[..i] + [addrs[i]];
            notifyReceived := notifyReceived + {addrs[i]};
          }
          assert addrs[..|addrs|] == addrs;
        case OtherCommand(_) =>
      }
    }

    /** The commands reregisterNtfns sends when each of them is accepted. */
    method Reregister(handlers: bool) returns (cmds: seq<Command>)
      ensures !handlers ==> cmds == []
      ensures handlers ==> Reestablishes(cmds, View())
    {
      cmds := [];
      if !handlers {
        return;
      }
      if notifyBlocks {
        cmds := cmds + [NotifyBlocks];
      }
      if notifyNewTx || notifyNewTxVerbose {
        cmds := cmds + [NotifyNewTransactions(Some(notifyNewTxVerbose))];
      }
      var outpoints := AnyOrder(notifySpent);
      if |notifySpent| > 0 {
        cmds := cmds + [NotifySpent(outpoints)];
      }
      var addresses := AnyOrder(notifyReceived);
      if |notifyReceived| > 0 {
        cmds := cmds + [NotifyReceived(addresses)];
      }
      assert cmds == Commands(View(), outpoints, addresses);
    }
  }

  /** Appends the keys of a map to a slice, in the order the iteration happens to take. */
  method AnyOrder<T(!new,==)>(s: set<T>) returns (xs: seq<T>)
    ensures Lists(xs, s)
  {
    xs := [];
    var left := s;
    while left != {}
      invariant left <= s
      invariant forall x :: x in xs <==> x in s - left
      invariant |xs| == |s| - |left|
      decreases |left|
    {
      var x :| x in left;
      left := left - {x};
      xs := xs + [x];
    }
  }

  // ---------- Fidelity ----------

  /** All that a command registers for is registered already. */
  predicate Covered(cmd: Command, s: Registered)
  {
    match cmd
    case NotifyBlocks => s.blocks
    case NotifyNewTransactions(v) => if v == Some(true) then s.newTxVerbose else s.newTx
    case NotifySpent(ops) => forall i | 0 <= i < |ops| :: ops[i] in s.spent
    case NotifyReceived(addrs) => forall i | 0 <= i < |addrs| :: addrs[i] in s.received
    case OtherCommand(_) => true
  }

  /** Tracking a command changes nothing exactly when it registers for nothing new. */
  lemma CoveredIsNoChange(cmd: Command, s: Registered)
    ensures Tracked(s, cmd) == s <==> Covered(cmd, s)
  {
    match cmd {
      case NotifySpent(ops) =>
        assert forall i | 0 <= i < |ops| :: ops[i] in Elements(ops);
        if Covered(cmd, s) {
          assert s.spent + Elements(ops) == s.spent;
        } else {
          var i :| 0 <= i < |ops| && ops[i] !in s.spent;
          assert ops[i] in Tracked(s, cmd).spent;
        }
      case NotifyReceived(addrs) =>
        assert forall i | 0 <= i < |addrs| :: addrs[i] in Elements(addrs);
        if Covered(cmd, s) {
          assert s.received + Elements(addrs) == s.received;
        } else {
          var i :| 0 <= i < |addrs| && addrs[i] !in s.received;
          assert addrs[i] in Tracked(s, cmd).received;
        }
      case _ =>
    }
  }

  /** Registrations accumulate: what is registered after any commands was registered before
      or is named by one of them, and nothing is ever lost. */
  lemma {:induction false} RegistrationsAccumulate(s: Registered, cmds: seq<Command>)
    ensures var t := TrackedAll(s, cmds);
      && (forall op :: op in t.spent <==>
            op in s.spent || exists i :: 0 <= i < |cmds| && cmds[i].NotifySpent? && op in cmds[i].outPoints)
      && (forall a :: a in t.received <==>
            a in s.received || exists i :: 0 <= i < |cmds| && cmds[i].NotifyReceived? && a in cmds[i].addresses)
      && (t.blocks <==> s.blocks || NotifyBlocks in cmds)
      && (t.newTxVerbose <==> s.newTxVerbose || NotifyNewTransactions(Some(true)) in cmds)
      && (t.newTx <==>
            s.newTx || NotifyNewTransactions(None) in cmds || NotifyNewTransactions(Some(false)) in cmds)
    decreases |cmds|
  {
    if cmds != [] {
      var rest := cmds[1..];
      RegistrationsAccumulate(Tracked(s, cmds[0]), rest);
      assert forall i :: 0 < i < |cmds| ==> cmds[i] == rest[i - 1];
      assert forall c :: c in cmds <==> c == cmds[0] || c in rest;
      if cmds[0].NotifyNewTransactions? && cmds[0].verbose.Some? && !cmds[0].verbose.value {
        assert cmds[0] == NotifyNewTransactions(Some(false));
      }
      forall op
        ensures (exists i :: 0 <= i < |cmds| && cmds[i].NotifySpent? && op in cmds[i].outPoints)
           <==> || (cmds[0].NotifySpent? && op in cmds[0].outPoints)
                || exists i :: 0 <= i < |rest| && rest[i].NotifySpent? && op in rest[i].outPoints
      {
        if i :| 0 <= i < |rest| && rest[i].NotifySpent? && op in rest[i].outPoints {
          assert cmds[i + 1] == rest[i];
        }
      }
      forall a
        ensures (exists i :: 0 <= i < |cmds| && cmds[i].NotifyReceived? && a in cmds[i].addresses)
           <==> || (cmds[0].NotifyReceived? && a in cmds[0].addresses)
                || exists i :: 0 <= i < |rest| && rest[i].NotifyReceived? && a in rest[i].addresses
      {
        if i :| 0 <= i < |rest| && rest[i].NotifyReceived? && a in rest[i].addresses {
          assert cmds[i + 1] == rest[i];
        }
      }
      hide TrackedAll;
    }
  }

  lemma {:induction false} CoveredKeep(s: Registered, cmds: seq<Command>)
    requires forall c | c in cmds :: Covered(c, s)
    ensures TrackedAll(s, cmds) == s
    decreases |cmds|
  {
    if cmds != [] {
      assert Covered(cmds[0], s);
      CoveredIsNoChange(cmds[0], s);
      CoveredKeep(s, cmds[1..]);
    }
  }

  lemma CommandsCovered(s: Registered, ops: seq<OutPoint>, addrs: seq<string>, c: Command)
    requires Elements(ops) == s.spent && Elements(addrs) == s.received
    requires c in Commands(s, ops, addrs)
    ensures Covered(c, s)
  {
    assert forall i | 0 <= i < |ops| :: ops[i] in Elements(ops);
    assert forall i | 0 <= i < |addrs| :: addrs[i] in Elements(addrs);
  }

  /** Re-registering changes nothing in the client, however many of the commands are
      answered before it breaks off. */
  lemma ReplayKeepsState(s: Registered, cmds: seq<Command>, n: nat)
    requires Reestablishes(cmds, s) && n <= |cmds|
    ensures TrackedAll(s, cmds[..n]) == s
  {
    hide TrackedAll, Lists, Commands, Covered;
    var ops, addrs :| Lists(ops, s.spent) && Lists(addrs, s.received) && cmds == Commands(s, ops, addrs);
    ListsElements(ops, s.spent);
    ListsElements(addrs, s.received);
    forall c | c in cmds[..n]
      ensures Covered(c, s)
    {
      CommandsCovered(s, ops, addrs, c);
    }
    CoveredKeep(s, cmds[..n]);
  }

  lemma {:induction false} TrackedAllAppend(s: Registered, a: seq<Command>, b: seq<Command>)
    ensures TrackedAll(s, a + b) == TrackedAll(TrackedAll(s, a), b)
    decreases |a|
  {
    if a == [] {
      assert a + b == b;
    } else {
      assert (a + b)[1..] == a[1..] + b;
      TrackedAllAppend(Tracked(s, a[0]), a[1..], b);
    }
  }

  lemma ListsElements<T(!new)>(xs: seq<T>, s: set<T>)
    requires Lists(xs, s)
    ensures Elements(xs) == s && (xs == [] <==> s == {})
  {
  }

  function TrackedIf(s: Registered, b: bool, cmd: Command): Registered
  {
    if b then Tracked(s, cmd) else s
  }

  lemma TrackedMaybe(s: Registered, cmds: seq<Command>, b: bool, cmd: Command)
    ensures TrackedAll(s, cmds + Maybe(b, cmd)) == TrackedIf(TrackedAll(s, cmds), b, cmd)
  {
    TrackedAllAppend(s, cmds, Maybe(b, cmd));
    assert [cmd][1..] == [];
  }

  lemma TrackedCommands(s0: Registered, s: Registered, ops: seq<OutPoint>, addrs: seq<string>)
    ensures TrackedAll(s0, Commands(s, ops, addrs))
         == var s1 := TrackedIf(s0, s.blocks, NotifyBlocks);
            var s2 := TrackedIf(s1, s.newTx || s.newTxVerbose, NotifyNewTransactions(Some(s.newTxVerbose)));
            var s3 := TrackedIf(s2, ops != [], NotifySpent(ops));
            TrackedIf(s3, addrs != [], NotifyReceived(addrs))
  {
    hide Maybe, TrackedIf;
    var c1 := Maybe(s.blocks, NotifyBlocks);
    var c2 := c1 + Maybe(s.newTx || s.newTxVerbose, NotifyNewTransactions(Some(s.newTxVerbose)));
    var c3 := c2 + Maybe(ops != [], NotifySpent(ops));
    TrackedMaybe(s0, [], s.blocks, NotifyBlocks);
    assert [] + c1 == c1;
    TrackedMaybe(s0, c1, s.newTx || s.newTxVerbose, NotifyNewTransactions(Some(s.newTxVerbose)));
    TrackedMaybe(s0, c2, ops != [], NotifySpent(ops));
    TrackedMaybe(s0, c3, addrs != [], NotifyReceived(addrs));
  }

  /** A server that starts from nothing ends up with the same registrations, except that
      the terse new-transaction registration is lost when the verbose one is held too. */
  lemma ReplayRebuilds(s: Registered, cmds: seq<Command>)
    requires Reestablishes(cmds, s)
    ensures TrackedAll(NOTHING, cmds) == s.(newTx := s.newTx && !s.newTxVerbose)
    ensures TrackedAll(NOTHING, cmds) == s <==> !(s.newTx && s.newTxVerbose)
  {
    hide TrackedAll, Lists, Commands;
    var ops, addrs :| Lists(ops, s.spent) && Lists(addrs, s.received) && cmds == Commands(s, ops, addrs);
    ListsElements(ops, s.spent);
    ListsElements(addrs, s.received);
    TrackedCommands(NOTHING, s, ops, addrs);
  }

  /** Two commands are enough to reach a state that re-registering does not rebuild. */
  lemma BothKindsAreReachable()
    ensures var s := TrackedAll(NOTHING, [NotifyNewTransactions(None), NotifyNewTransactions(Some(true))]);
            s.newTx && s.newTxVerbose
  {
    var first := NotifyNewTransactions(None);
    var second := NotifyNewTransactions(Some(true));
    assert [first, second][1..] == [second];
  }
}
