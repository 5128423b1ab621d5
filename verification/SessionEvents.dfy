/** Exactly what runs on a websocket connection (inHandler in rpcwebsocket.go): not only
nothing but what a session may run, but all of it, in order. */
module SessionEvents {

  import opened Session

  /** A command that is run for a session with these rights. */
  predicate Runs(auth: Auth, r: Request, rpcLimited: set<string>)
  {
    WellFormed(r) && r.command == Other && auth.authenticated && (auth.isAdmin || r.methodName in rpcLimited)
  }

  /** The methods of those of rs that are run. */
  function RunOf(auth: Auth, rs: seq<Request>, rpcLimited: set<string>): seq<Event>
  {
    if rs == [] then []
    else (if Runs(auth, rs[0], rpcLimited) then [Ran(rs[0].methodName)] else []) + RunOf(auth, rs[1..], rpcLimited)
  }

  /** The entries of a batch up to the first that ends the session, with that one. */
  function UpToEnd(auth: Auth, rs: seq<Request>, rpcLimited: set<string>): seq<Request>
  {
    if rs == [] then []
    else [rs[0]] + if EntryEnds(auth, rs[0], rpcLimited) then [] else UpToEnd(auth, rs[1..], rpcLimited)
  }

  function ReachedIn(auth: Auth, m: Message, rpcLimited: set<string>): seq<Request>
  {
    match m
    case Single(r) => [r]
    case Batch(rs) => UpToEnd(auth, rs, rpcLimited)
    case GarbledBatch => []
    case NoMore => []
  }

  /** The requests in these messages up to the first that ends the session. */
  function Reached(auth: Auth, ms: seq<Message>, rpcLimited: set<string>): seq<Request>
    decreases |ms|
  {
    if ms == [] then []
    else
      ReachedIn(auth, ms[0], rpcLimited)
      + if MessageEnds(auth, ms[0], rpcLimited) then [] else Reached(auth, ms[1..], rpcLimited)
  }

  lemma {:induction false} RunOfSum(auth: Auth, a: seq<Request>, b: seq<Request>, rpcLimited: set<string>)
    ensures RunOf(auth, a + b, rpcLimited) == RunOf(auth, a, rpcLimited) + RunOf(auth, b, rpcLimited)
    decreases |a|
  {
    if a == [] {
      assert a + b == b;
    } else {
      assert (a + b)[1..] == a[1..] + b;
      RunOfSum(auth, a[1..], b, rpcLimited);
    }
  }

  lemma RunOfOne(auth: Auth, r: Request, rpcLimited: set<string>)
    ensures RunOf(auth, [r], rpcLimited) == if Runs(auth, r, rpcLimited) then [Ran(r.methodName)] else []
  {
    assert [r][1..] == [];
  }

  /** A request is run exactly if it is a well-formed command that the session may run; a
      login that an unauthenticated session makes is the only other thing that shows. */
  lemma RequestEvents(auth: Auth, r: Request, rpcLimited: set<string>)
    ensures HandleSingle(auth, r, rpcLimited).1 == HandleEntry(auth, r, rpcLimited).1
    ensures HandleSingle(auth, r, rpcLimited).1 ==
              if Runs(auth, r, rpcLimited) then [Ran(r.methodName)]
              else if !auth.authenticated && Grants(r, true) then [LoggedIn(true)]
              else if !auth.authenticated && Grants(r, false) then [LoggedIn(false)]
              else []
    ensures HandleEntry(auth, r, rpcLimited).2 == Return
       <==> Runs(auth, r, rpcLimited) && (r.version !in {"1.0", "2.0"} || r.id == Composite)
  {
  }

  lemma {:induction false} BatchEvents(auth: Auth, rs: seq<Request>, rpcLimited: set<string>)
    requires auth.authenticated
    ensures HandleBatch(auth, rs, rpcLimited).1 == RunOf(auth, UpToEnd(auth, rs, rpcLimited), rpcLimited)
    decreases |rs|
  {
    if rs != [] {
      RequestEvents(auth, rs[0], rpcLimited);
      EntryKeeps(auth, rs[0], rpcLimited);
      BatchEvents(auth, rs[1..], rpcLimited);
      hide HandleEntry, HandleSingle, Runs, EntryEnds;
      RunOfOne(auth, rs[0], rpcLimited);
      RunOfSum(auth, [rs[0]], UpToEnd(auth, rs[1..], rpcLimited), rpcLimited);
    }
  }

  lemma EntryKeeps(auth: Auth, r: Request, rpcLimited: set<string>)
    requires auth.authenticated
    ensures HandleEntry(auth, r, rpcLimited).0 == auth
    ensures HandleEntry(auth, r, rpcLimited).2.Continue? <==> !EntryEnds(auth, r, rpcLimited)
  {
  }

  /** An authenticated session runs exactly the commands it may, in the order in which they
      arrive alone or in batches, up to what ends it. */
  lemma {:induction false} AuthenticatedEvents(auth: Auth, ms: seq<Message>, rpcLimited: set<string>)
    requires auth.authenticated
    ensures Run(auth, ms, rpcLimited).1 == RunOf(auth, Reached(auth, ms, rpcLimited), rpcLimited)
    decreases |ms|
  {
    if ms != [] {
      MessageGoesOn(auth, ms[0], rpcLimited);
      MessageEvents(auth, ms[0], rpcLimited);
      AuthenticatedEvents(auth, ms[1..], rpcLimited);
      hide OnMessage, MessageEnds, RunOf, UpToEnd;
      RunOfSum(auth, ReachedIn(auth, ms[0], rpcLimited), Reached(auth, ms[1..], rpcLimited), rpcLimited);
      var (a, es, fate) := OnMessage(auth, ms[0], rpcLimited);
      if !fate.Continue? {
        assert ReachedIn(auth, ms[0], rpcLimited) + [] == ReachedIn(auth, ms[0], rpcLimited);
      }
    }
  }

  lemma MessageEvents(auth: Auth, m: Message, rpcLimited: set<string>)
    requires auth.authenticated
    ensures OnMessage(auth, m, rpcLimited).1 == RunOf(auth, ReachedIn(auth, m, rpcLimited), rpcLimited)
  {
    match m
    case Single(r) =>
      RequestEvents(auth, r, rpcLimited);
      RunOfOne(auth, r, rpcLimited);
    case Batch(rs) => BatchEvents(auth, rs, rpcLimited);
    case _ =>
  }

  // ---------- Behind a login ----------

  /** Request i of the message, behind malformed ones, is a login that grants this much. */
  predicate LoginAt(m: Message, i: nat, admin: bool)
  {
    match m
    case Single(r) => i == 0 && Grants(r, admin)
    case Batch(rs) => i < |rs| && Grants(rs[i], admin) && forall j | 0 <= j < i :: Malformed(rs[j])
    case GarbledBatch => false
    case NoMore => false
  }

  /** The messages with what comes before and with a login cut off. */
  function Behind(ms: seq<Message>, k: nat, i: nat): seq<Message>
    requires k < |ms| && (ms[k].Batch? ==> i < |ms[k].entries|)
  {
    (if ms[k].Batch? then [Batch(ms[k].entries[i + 1..])] else []) + ms[k + 1..]
  }

  lemma {:induction false} BatchBehindLogin(auth: Auth, rs: seq<Request>, i: nat, admin: bool, rpcLimited: set<string>)
    requires !auth.authenticated && LoginAt(Batch(rs), i, admin)
    ensures HandleBatch(auth, rs, rpcLimited)
         == Resume([LoggedIn(admin)], HandleBatch(Auth(true, admin), rs[i + 1..], rpcLimited))
    decreases i
  {
    if i > 0 {
      assert Malformed(rs[0]) && rs[1..][i - 1] == rs[i];
      assert rs[1..][i..] == rs[i + 1..];
      forall j | 0 <= j < i - 1 ensures Malformed(rs[1..][j]) {
        assert rs[1..][j] == rs[j + 1];
      }
      BatchBehindLogin(auth, rs[1..], i - 1, admin, rpcLimited);
      var rest := HandleBatch(auth, rs[1..], rpcLimited);
      assert [] + rest.1 == rest.1;
    }
  }

  lemma SilentChangesNothing(auth: Auth, m: Message, rpcLimited: set<string>)
    requires !auth.authenticated && Silent(m)
    ensures OnMessage(auth, m, rpcLimited) == (auth, [], Continue)
  {
    MessageUnauthenticated(auth, m, true, rpcLimited);
    MessageGuarded(auth, m, rpcLimited);
  }

  lemma MessageBehindLogin(auth: Auth, ms: seq<Message>, i: nat, admin: bool, rpcLimited: set<string>)
    requires !auth.authenticated && ms != [] && LoginAt(ms[0], i, admin)
    ensures Run(auth, ms, rpcLimited) == Resume([LoggedIn(admin)], Run(Auth(true, admin), Behind(ms, 0, i), rpcLimited))
  {
    var b := Auth(true, admin);
    match ms[0]
    case Single(r) =>
      assert Behind(ms, 0, i) == ms[1..];
    case Batch(rs) =>
      var more := Batch(rs[i + 1..]);
      BatchBehindLogin(auth, rs, i, admin, rpcLimited);
      assert Behind(ms, 0, i)[0] == more && Behind(ms, 0, i)[1..] == ms[1..];
      hide HandleBatch, LoginAt;
      var (a, es, fate) := OnMessage(b, more, rpcLimited);
      EmptyRest(b, rs[i + 1..], rpcLimited);
      var rest := Run(a, ms[1..], rpcLimited);
      assert [LoggedIn(admin)] + es + rest.1 == [LoggedIn(admin)] + (es + rest.1);
  }

  lemma EmptyRest(auth: Auth, rs: seq<Request>, rpcLimited: set<string>)
    requires auth.authenticated
    ensures OnMessage(auth, Batch(rs), rpcLimited) == HandleBatch(auth, rs, rpcLimited)
  {
  }

  /** A session that logs in behind silent messages shows this login and then exactly what
      the rights it grants allow, in order, up to what ends the session. */
  lemma {:induction false} LoginEvents(auth: Auth, ms: seq<Message>, k: nat, i: nat, admin: bool, rpcLimited: set<string>)
    requires !auth.authenticated && k < |ms| && LoginAt(ms[k], i, admin) && forall j | 0 <= j < k :: Silent(ms[j])
    ensures var b := Auth(true, admin);
            && Run(auth, ms, rpcLimited).0 == b
            && Run(auth, ms, rpcLimited).1
               == [LoggedIn(admin)] + RunOf(b, Reached(b, Behind(ms, k, i), rpcLimited), rpcLimited)
    decreases k
  {
    hide LoginAt, Silent, RunOf, Reached;
    var b := Auth(true, admin);
    if k == 0 {
      LoginIsInside(ms[0], i, admin);
      MessageBehindLogin(auth, ms, i, admin, rpcLimited);
      AuthenticatedEvents(b, Behind(ms, 0, i), rpcLimited);
      AuthenticatedGoesOn(b, Behind(ms, 0, i), rpcLimited);
    } else {
      LoginIsInside(ms[k], i, admin);
      SilentChangesNothing(auth, ms[0], rpcLimited);
      LoginEvents(auth, ms[1..], k - 1, i, admin, rpcLimited);
      assert Behind(ms[1..], k - 1, i) == Behind(ms, k, i);
      hide OnMessage;
      assert forall es: seq<Event> :: [] + es == es;
    }
  }

  lemma LoginIsInside(m: Message, i: nat, admin: bool)
    requires LoginAt(m, i, admin)
    ensures m.Batch? ==> i < |m.entries|
  {
  }

  /** And a session that does not log in shows nothing. */
  lemma NoLoginNoEvents(auth: Auth, ms: seq<Message>, rpcLimited: set<string>)
    requires !auth.authenticated
    ensures Run(auth, ms, rpcLimited).1 != []
       <==> exists k, i: nat, admin :: 0 <= k < |ms| && LoginAt(ms[k], i, admin) && forall j | 0 <= j < k :: Silent(ms[j])
  {
    SessionGuarded(auth, ms, rpcLimited);
    if Run(auth, ms, rpcLimited).1 != [] {
      hide Run;
      LoginNeedsCredentials(auth, ms, rpcLimited);
      var admin := Run(auth, ms, rpcLimited).0.isAdmin;
      var k :| 0 <= k < |ms| && MessageGrants(ms[k], admin) && forall j :: 0 <= j < k ==> Silent(ms[j]);
      var i := GrantedAt(ms[k], admin);
      assert LoginAt(ms[k], i, admin);
    }
    if k, i: nat, admin :| 0 <= k < |ms| && LoginAt(ms[k], i, admin) && forall j | 0 <= j < k :: Silent(ms[j]) {
      LoginEvents(auth, ms, k, i, admin, rpcLimited);
    }
  }

  lemma GrantedAt(m: Message, admin: bool) returns (i: nat)
    requires MessageGrants(m, admin)
    ensures LoginAt(m, i, admin)
  {
    i := 0;
    if m.Batch? {
      i :| i < |m.entries| && Grants(m.entries[i], admin) && forall j :: 0 <= j < i ==> Malformed(m.entries[j]);
    }
  }
}
