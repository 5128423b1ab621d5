/** What the RPC client keeps about its pending requests, as plain sequences
(rpcclient/infrastructure.go). */
module Requests {

  import opened NtfnState

  datatype Response =
    | Reply(result: string, failed: bool)   // what the server sent: a result or an error
    | ErrClientShutdown
    | ErrClientDisconnect
    | ErrClientNotConnected

  /** A request with the channel its response goes to. */
  datatype Request<C> = Request(id: nat, methodName: string, cmd: Command, responseChan: C)

  /** The methods that are not sent again after a reconnect. */
  const IGNORE_RESENDS: set<string> := {"rescan"}

  predicate Ignored<C>(r: Request<C>) { r.methodName in IGNORE_RESENDS }

  ghost predicate DistinctIds<C>(rs: seq<Request<C>>)
  {
    forall i, j | 0 <= i < j < |rs| :: rs[i].id != rs[j].id
  }

  /** The requests other than the one with this id, in order. */
  function Without<C>(rs: seq<Request<C>>, id: nat): seq<Request<C>>
  {
    if rs == [] then []
    else (if rs[0].id == id then [] else [rs[0]]) + Without(rs[1..], id)
  }

  /** The requests that are sent again after a reconnect, in order. */
  function Resent<C>(rs: seq<Request<C>>): seq<Request<C>>
  {
    if rs == [] then []
    else (if Ignored(rs[0]) then [] else [rs[0]]) + Resent(rs[1..])
  }

  lemma {:induction false} WithoutElements<C>(rs: seq<Request<C>>, id: nat)
    ensures forall r | r in Without(rs, id) :: r in rs && r.id != id
    ensures forall r | r in rs && r.id != id :: r in Without(rs, id)
  {
    if rs != [] {
      WithoutElements(rs[1..], id);
      assert rs == [rs[0]] + rs[1..];
    }
  }

  lemma {:induction false} ResentElements<C>(rs: seq<Request<C>>)
    ensures forall r | r in Resent(rs) :: r in rs && !Ignored(r)
    ensures forall r | r in rs && !Ignored(r) :: r in Resent(rs)
  {
    if rs != [] {
      ResentElements(rs[1..]);
      assert rs == [rs[0]] + rs[1..];
    }
  }

  /** The elements of a in the order in which b has them, with others of b in between. */
  ghost predicate Sublist<T>(a: seq<T>, b: seq<T>)
    decreases |b|
  {
    a == [] || (b != [] && if a[0] == b[0] then Sublist(a[1..], b[1..]) else Sublist(a, b[1..]))
  }

  /** What is sent again is everything but the rescans, in order. */
  lemma {:induction false} RescansAreNotResent<C>(rs: seq<Request<C>>)
    ensures forall r | r in rs :: r in Resent(rs) <==> r.methodName != "rescan"
    ensures forall r | r in Resent(rs) :: r in rs
    ensures Sublist(Resent(rs), rs)
  {
    ResentElements(rs);
    if rs != [] {
      RescansAreNotResent(rs[1..]);
      assert Resent(rs) != [] && rs[0].methodName != "rescan" ==> Resent(rs)[1..] == Resent(rs[1..]);
      if Ignored(rs[0]) {
        assert Resent(rs) == Resent(rs[1..]);
        assert Resent(rs) != [] ==> Resent(rs)[0] in Resent(rs);
      }
    }
  }

  lemma DistinctPrepend<C>(r: Request<C>, rs: seq<Request<C>>)
    requires DistinctIds(rs) && forall x | x in rs :: x.id != r.id
    ensures DistinctIds([r] + rs)
  {
    var all := [r] + rs;
    forall i, j | 0 <= i < j < |all| ensures all[i].id != all[j].id {
      assert all[j] == rs[j - 1];
    }
  }

  lemma {:induction false} WithoutDistinct<C>(rs: seq<Request<C>>, id: nat)
    requires DistinctIds(rs)
    ensures DistinctIds(Without(rs, id))
  {
    if rs != [] {
      WithoutDistinct(rs[1..], id);
      WithoutElements(rs[1..], id);
      DistinctPrepend(rs[0], Without(rs[1..], id));
    }
  }

  lemma {:induction false} ResentDistinct<C>(rs: seq<Request<C>>)
    requires DistinctIds(rs)
    ensures DistinctIds(Resent(rs))
  {
    if rs != [] {
      ResentDistinct(rs[1..]);
      ResentElements(rs[1..]);
      DistinctPrepend(rs[0], Resent(rs[1..]));
    }
  }

  lemma {:induction false} WithoutAbsent<C>(rs: seq<Request<C>>, id: nat)
    requires forall r | r in rs :: r.id != id
    ensures Without(rs, id) == rs
  {
    if rs != [] {
      WithoutAbsent(rs[1..], id);
    }
  }

  /** Removing the request at a known place. */
  lemma {:induction false} WithoutAt<C>(rs: seq<Request<C>>, i: nat)
    requires DistinctIds(rs) && i < |rs|
    ensures Without(rs, rs[i].id) == rs[..i] + rs[i + 1..]
    decreases |rs|
  {
    if i == 0 {
      WithoutAbsent(rs[1..], rs[0].id);
    } else {
      WithoutAt(rs[1..], i - 1);
      assert rs[..i] + rs[i + 1..] == [rs[0]] + (rs[1..][..i - 1] + rs[1..][i..]);
    }
  }

  lemma {:induction false} ResentAppend<C>(a: seq<Request<C>>, b: seq<Request<C>>)
    ensures Resent(a + b) == Resent(a) + Resent(b)
    decreases |a|
  {
    if a == [] {
      assert a + b == b;
    } else {
      assert (a + b)[1..] == a[1..] + b;
      ResentAppend(a[1..], b);
    }
  }

  // ---------- What a reply leaves in the notification state ----------

  /** The registrations after a reply to cmd. Whether the reply is an error is not asked. */
  function AfterReply(handlers: bool, s: Registered, cmd: Command, reply: Response): Registered
  {
    if handlers then Tracked(s, cmd) else s
  }

  /** The registrations if only successful commands were remembered, as is documented. */
  function AfterSuccess(handlers: bool, s: Registered, cmd: Command, reply: Response): Registered
  {
    if handlers && !(reply.Reply? && reply.failed) then Tracked(s, cmd) else s
  }

  /** The two agree exactly when the reply is no error, there are no handlers, or the
      command registers for nothing new. */
  lemma RememberedAsDocumented(handlers: bool, s: Registered, cmd: Command, reply: Response)
    ensures AfterReply(handlers, s, cmd, reply) == AfterSuccess(handlers, s, cmd, reply)
       <==> !(reply.Reply? && reply.failed) || !handlers || Covered(cmd, s)
  {
    CoveredIsNoChange(cmd, s);
  }

  /** A refused notifyblocks is remembered, and would be sent again after a reconnect. */
  lemma RefusedCommandIsRemembered()
    ensures AfterReply(true, NOTHING, NotifyBlocks, Reply("", true)) == NOTHING.(blocks := true)
    ensures AfterSuccess(true, NOTHING, NotifyBlocks, Reply("", true)) == NOTHING
  {
  }
}
