/** Who may do what on a websocket connection (inHandler in rpcwebsocket.go): the
authentication state over single and batched messages. The source checks a request in two
places, once for single requests and once for the entries of a batch; so does this. */
module Session {

  /** How a login compares with the two configured ones. */
  datatype Credentials = Credentials(admin: bool, limited: bool)

  /** What parseCmd makes of a request. */
  datatype Command = Invalid | Authenticate(login: Credentials) | Other

  /** The id of a request: none, a number or string, or something else. */
  datatype Id = NoId | Scalar | Composite

  /** One request; Garbled is one that does not unmarshal. The version is empty when the
      request has none. */
  datatype Request =
    | Garbled
    | Request(version: string, methodName: string, hasParams: bool, id: Id, command: Command)

  /** What reading from the connection gives; NoMore is a failed read or a closed quit
      channel. */
  datatype Message =
    | Single(request: Request)
    | GarbledBatch
    | Batch(entries: seq<Request>)
    | NoMore

  /** What shows from outside: a login that was accepted, and a handler that was run. */
  datatype Event = LoggedIn(admin: bool) | Ran(methodName: string)

  datatype Auth = Auth(authenticated: bool, isAdmin: bool)

  /** Whether the loop goes on, breaks off and disconnects, or returns without
      disconnecting. */
  datatype Fate = Continue | Break | Return

  type Outcome = (Auth, seq<Event>, Fate)

  const RPC_VERSIONS: set<string> := {"1.0", "2.0"}

  /** Whether createMarshalledReply can reply to a request. */
  predicate Answerable(r: Request)
    requires r.Request?
  {
    r.version in RPC_VERSIONS && !r.id.Composite?
  }

  /** A request on its own. A reply that cannot be marshalled is only logged. */
  function HandleSingle(auth: Auth, r: Request, rpcLimited: set<string>): Outcome
  {
    match r
    case Garbled => if !auth.authenticated then (auth, [], Break) else (auth, [], Continue)
    case Request(_, m, hasParams, id, command) =>
      if m == "" || !hasParams then (auth, [], Continue)
      else if id.NoId? then if !auth.authenticated then (auth, [], Break) else (auth, [], Continue)
      else if command.Invalid? then if !auth.authenticated then (auth, [], Break) else (auth, [], Continue)
      else if auth.authenticated && command.Authenticate? then (auth, [], Break)
      else if !auth.authenticated && !command.Authenticate? then (auth, [], Break)
      else if !auth.authenticated then
        if !command.login.admin && !command.login.limited then (auth, [], Break)
        else (Auth(true, command.login.admin), [LoggedIn(command.login.admin)], Continue)
      else if !auth.isAdmin && m !in rpcLimited then (auth, [], Continue)
      else (auth, [Ran(m)], Continue)
  }

  /** An entry of a batch. The handler runs before its reply is marshalled, and a failure
      to do so returns from the whole input handler. */
  function HandleEntry(auth: Auth, r: Request, rpcLimited: set<string>): Outcome
  {
    match r
    case Garbled => (auth, [], if auth.authenticated then Continue else Break)
    case Request(_, m, hasParams, id, command) =>
      if m == "" || !hasParams then (auth, [], Continue)
      else if id.NoId? then (auth, [], if auth.authenticated then Continue else Break)
      else
        match command
        case Invalid => (auth, [], if auth.authenticated then Continue else Break)
        case Authenticate(login) =>
          if auth.authenticated || !(login.admin || login.limited) then (auth, [], Break)
          else (Auth(true, login.admin), [LoggedIn(login.admin)], Continue)
        case Other =>
          if !auth.authenticated then (auth, [], Break)
          else if !auth.isAdmin && m !in rpcLimited then (auth, [], Continue)
          else (auth, [Ran(m)], if Answerable(r) then Continue else Return)
  }

  /** The loop over a batch. */
  function HandleBatch(auth: Auth, rs: seq<Request>, rpcLimited: set<string>): Outcome
    decreases |rs|
  {
    if rs == [] then (auth, [], Continue)
    else
      var (a, es, fate) := HandleEntry(auth, rs[0], rpcLimited);
      if !fate.Continue? then (a, es, fate)
      else
        var (b, fs, g) := HandleBatch(a, rs[1..], rpcLimited);
        (b, es + fs, g)
  }

  function OnMessage(auth: Auth, m: Message, rpcLimited: set<string>): Outcome
  {
    match m
    case Single(r) => HandleSingle(auth, r, rpcLimited)
    case GarbledBatch => (auth, [], if auth.authenticated then Continue else Break)
    case Batch(rs) =>
      if rs == [] then (auth, [], if auth.authenticated then Continue else Break)
      else HandleBatch(auth, rs, rpcLimited)
    case NoMore => (auth, [], Break)
  }

  /** A connection over the messages read so far. */
  function Run(auth: Auth, ms: seq<Message>, rpcLimited: set<string>): Outcome
    decreases |ms|
  {
    if ms == [] then (auth, [], Continue)
    else
      var (a, es, fate) := OnMessage(auth, ms[0], rpcLimited);
      if !fate.Continue? then (a, es, fate)
      else
        var (b, fs, g) := Run(a, ms[1..], rpcLimited);
        (b, es + fs, g)
  }

  lemma RunOne(auth: Auth, m: Message, rpcLimited: set<string>)
    ensures Run(auth, [m], rpcLimited) == OnMessage(auth, m, rpcLimited)
  {
    var (a, es, fate) := OnMessage(auth, m, rpcLimited);
    assert [m][1..] == [] && es + [] == es;
  }

  // ---------- Kinds of requests ----------

  /** A request that is answered with an error and otherwise passed over. */
  predicate Malformed(r: Request) { r.Request? && (r.methodName == "" || !r.hasParams) }

  predicate WellFormed(r: Request)
  {
    r.Request? && !Malformed(r) && !r.id.NoId? && !r.command.Invalid?
  }

  /** A login that matches a configured one, and grants this much. */
  predicate Grants(r: Request, admin: bool)
  {
    WellFormed(r) && r.command.Authenticate?
    && (r.command.login.admin || r.command.login.limited) && r.command.login.admin == admin
  }

  predicate MayRun(auth: Auth, m: string, rpcLimited: set<string>)
  {
    auth.authenticated && (auth.isAdmin || m in rpcLimited)
  }

  predicate IsLogin(r: Request) { WellFormed(r) && r.command.Authenticate? }

  /** A command that may run but cannot be answered. */
  predicate RunsUnanswered(auth: Auth, r: Request, rpcLimited: set<string>)
  {
    WellFormed(r) && r.command.Other? && MayRun(auth, r.methodName, rpcLimited) && !Answerable(r)
  }

  /** An entry of a batch that an authenticated session does not survive. */
  predicate EntryEnds(auth: Auth, r: Request, rpcLimited: set<string>)
  {
    IsLogin(r) || RunsUnanswered(auth, r, rpcLimited)
  }

  /** A message that an authenticated session does not survive. */
  predicate MessageEnds(auth: Auth, m: Message, rpcLimited: set<string>)
  {
    match m
    case Single(r) => IsLogin(r)
    case GarbledBatch => false
    case Batch(rs) => exists i :: 0 <= i < |rs| && EntryEnds(auth, rs[i], rpcLimited)
    case NoMore => true
  }

  // ---------- What may show ----------

  /** Command handlers that an authenticated session of this kind may run. */
  predicate OnlyAllowed(isAdmin: bool, es: seq<Event>, rpcLimited: set<string>)
  {
    forall i | 0 <= i < |es| :: es[i].Ran? && (isAdmin || es[i].methodName in rpcLimited)
  }

  /** Starting from auth and ending in auth', es is at most one accepted login, none if
      the session was authenticated already, then only what that login allows. */
  predicate Guarded(auth: Auth, es: seq<Event>, auth': Auth, rpcLimited: set<string>)
  {
    if auth.authenticated then auth' == auth && OnlyAllowed(auth.isAdmin, es, rpcLimited)
    else if es == [] then auth' == auth
    else es[0].LoggedIn? && auth' == Auth(true, es[0].admin) && OnlyAllowed(es[0].admin, es[1..], rpcLimited)
  }

  lemma GuardedSum(a: Auth, es: seq<Event>, b: Auth, fs: seq<Event>, c: Auth, rpcLimited: set<string>)
    requires Guarded(a, es, b, rpcLimited) && Guarded(b, fs, c, rpcLimited)
    ensures Guarded(a, es + fs, c, rpcLimited)
  {
    if !a.authenticated {
      if es == [] {
        assert es + fs == fs;
      } else {
        assert (es + fs)[1..] == es[1..] + fs;
      }
    }
  }

  lemma {:induction false} BatchGuarded(auth: Auth, rs: seq<Request>, rpcLimited: set<string>)
    ensures var (a, es, _) := HandleBatch(auth, rs, rpcLimited); Guarded(auth, es, a, rpcLimited)
    decreases |rs|
  {
    if rs != [] {
      var (a, es, fate) := HandleEntry(auth, rs[0], rpcLimited);
      assert Guarded(auth, es, a, rpcLimited);
      if fate.Continue? {
        var (b, fs, g) := HandleBatch(a, rs[1..], rpcLimited);
        BatchGuarded(a, rs[1..], rpcLimited);
        GuardedSum(auth, es, a, fs, b, rpcLimited);
      }
    }
  }

  lemma MessageGuarded(auth: Auth, m: Message, rpcLimited: set<string>)
    ensures var (a, es, _) := OnMessage(auth, m, rpcLimited); Guarded(auth, es, a, rpcLimited)
  {
    if m.Batch? {
      BatchGuarded(auth, m.entries, rpcLimited);
    }
  }

  /** Over every connection: at most one login is accepted and nothing runs before it;
      what it granted never changes; and a session that is not the administrator's runs
      only the limited methods. */
  lemma {:induction false} SessionGuarded(auth: Auth, ms: seq<Message>, rpcLimited: set<string>)
    ensures var (a, es, _) := Run(auth, ms, rpcLimited); Guarded(auth, es, a, rpcLimited)
    decreases |ms|
  {
    if ms != [] {
      var (a, es, fate) := OnMessage(auth, ms[0], rpcLimited);
      MessageGuarded(auth, ms[0], rpcLimited);
      if fate.Continue? {
        var (b, fs, g) := Run(a, ms[1..], rpcLimited);
        SessionGuarded(a, ms[1..], rpcLimited);
        GuardedSum(auth, es, a, fs, b, rpcLimited);
      }
    }
  }

  // ---------- When an authenticated session goes on ----------

  lemma {:induction false} BatchGoesOn(auth: Auth, rs: seq<Request>, rpcLimited: set<string>)
    requires auth.authenticated
    ensures HandleBatch(auth, rs, rpcLimited).2.Continue? <==>
            forall i :: 0 <= i < |rs| ==> !EntryEnds(auth, rs[i], rpcLimited)
    ensures HandleBatch(auth, rs, rpcLimited).0 == auth
    decreases |rs|
  {
    if rs != [] {
      BatchGoesOn(auth, rs[1..], rpcLimited);
      assert forall i :: 0 < i < |rs| ==> rs[i] == rs[1..][i - 1];
    }
  }

  lemma MessageGoesOn(auth: Auth, m: Message, rpcLimited: set<string>)
    requires auth.authenticated
    ensures OnMessage(auth, m, rpcLimited).2.Continue? <==> !MessageEnds(auth, m, rpcLimited)
    ensures OnMessage(auth, m, rpcLimited).0 == auth
  {
    if m.Batch? {
      BatchGoesOn(auth, m.entries, rpcLimited);
    }
  }

  /** An authenticated session goes on exactly as long as nothing ends it; in particular
      a further login always does. */
  lemma {:induction false} AuthenticatedGoesOn(auth: Auth, ms: seq<Message>, rpcLimited: set<string>)
    requires auth.authenticated
    ensures Run(auth, ms, rpcLimited).2.Continue? <==>
            forall i :: 0 <= i < |ms| ==> !MessageEnds(auth, ms[i], rpcLimited)
    ensures Run(auth, ms, rpcLimited).0 == auth
    decreases |ms|
  {
    if ms != [] {
      MessageGoesOn(auth, ms[0], rpcLimited);
      AuthenticatedGoesOn(auth, ms[1..], rpcLimited);
      assert forall i :: 0 < i < |ms| ==> ms[i] == ms[1..][i - 1];
    }
  }

  // ---------- When an unauthenticated session goes on ----------

  /** A message that leaves an unauthenticated session as it was. */
  predicate Silent(m: Message)
  {
    match m
    case Single(r) => Malformed(r)
    case GarbledBatch => false
    case Batch(rs) => rs != [] && forall i :: 0 <= i < |rs| ==> Malformed(rs[i])
    case NoMore => false
  }

  /** The first entry from which an unauthenticated session can go on is entry k. */
  ghost predicate BatchLogsInAt(rs: seq<Request>, k: int, admin: bool, rpcLimited: set<string>)
  {
    && 0 <= k < |rs| && Grants(rs[k], admin)
    && (forall j :: 0 <= j < k ==> Malformed(rs[j]))
    && (forall j :: k < j < |rs| ==> !EntryEnds(Auth(true, admin), rs[j], rpcLimited))
  }

  /** A message with which an unauthenticated session logs in and goes on. */
  ghost predicate LogsIn(m: Message, admin: bool, rpcLimited: set<string>)
  {
    match m
    case Single(r) => Grants(r, admin)
    case GarbledBatch => false
    case Batch(rs) => exists k :: BatchLogsInAt(rs, k, admin, rpcLimited)
    case NoMore => false
  }

  /** The first message that is not silent logs in, and nothing after it ends the session. */
  ghost predicate LogsInAt(ms: seq<Message>, k: int, admin: bool, rpcLimited: set<string>)
  {
    && 0 <= k < |ms| && LogsIn(ms[k], admin, rpcLimited)
    && (forall j :: 0 <= j < k ==> Silent(ms[j]))
    && (forall j :: k < j < |ms| ==> !MessageEnds(Auth(true, admin), ms[j], rpcLimited))
  }

  lemma EntryUnauthenticated(auth: Auth, r: Request, rpcLimited: set<string>)
    requires !auth.authenticated
    ensures var (a, _, fate) := HandleEntry(auth, r, rpcLimited);
            && (fate.Continue? && !a.authenticated <==> Malformed(r))
            && (a.authenticated ==> fate.Continue? && Grants(r, a.isAdmin))
            && (!a.authenticated ==> a == auth && forall admin :: !Grants(r, admin))
  {
  }

  lemma BatchLogsInLater(rs: seq<Request>, admin: bool, rpcLimited: set<string>)
    requires rs != [] && Malformed(rs[0])
    ensures (exists k :: BatchLogsInAt(rs, k, admin, rpcLimited))
       <==> (exists k :: BatchLogsInAt(rs[1..], k, admin, rpcLimited))
  {
    if k :| BatchLogsInAt(rs, k, admin, rpcLimited) {
      assert BatchLogsInAt(rs[1..], k - 1, admin, rpcLimited);
    }
    if k :| BatchLogsInAt(rs[1..], k, admin, rpcLimited) {
      forall j | 0 <= j < k + 1 ensures Malformed(rs[j]) {
        assert j > 0 ==> rs[j] == rs[1..][j - 1];
      }
      forall j | k + 1 < j < |rs| ensures !EntryEnds(Auth(true, admin), rs[j], rpcLimited) {
        assert rs[j] == rs[1..][j - 1];
      }
      assert BatchLogsInAt(rs, k + 1, admin, rpcLimited);
    }
  }

  lemma BatchLogsInFirst(rs: seq<Request>, admin: bool, rpcLimited: set<string>)
    requires rs != [] && !Malformed(rs[0])
    ensures (exists k :: BatchLogsInAt(rs, k, admin, rpcLimited))
       <==> Grants(rs[0], admin)
            && forall i :: 0 <= i < |rs[1..]| ==> !EntryEnds(Auth(true, admin), rs[1..][i], rpcLimited)
  {
    assert forall k :: BatchLogsInAt(rs, k, admin, rpcLimited) ==> k == 0;
    if Grants(rs[0], admin)
       && forall i :: 0 <= i < |rs[1..]| ==> !EntryEnds(Auth(true, admin), rs[1..][i], rpcLimited) {
      forall j | 0 < j < |rs| ensures !EntryEnds(Auth(true, admin), rs[j], rpcLimited) {
        assert rs[j] == rs[1..][j - 1];
      }
      assert BatchLogsInAt(rs, 0, admin, rpcLimited);
    }
    if BatchLogsInAt(rs, 0, admin, rpcLimited) {
      assert forall i :: 0 <= i < |rs[1..]| ==> rs[1..][i] == rs[i + 1];
    }
  }

  lemma {:induction false} BatchUnauthenticated(auth: Auth, rs: seq<Request>, admin: bool, rpcLimited: set<string>)
    requires !auth.authenticated
    ensures var (a, _, fate) := HandleBatch(auth, rs, rpcLimited);
            && (fate.Continue? && !a.authenticated <==> forall i :: 0 <= i < |rs| ==> Malformed(rs[i]))
            && (fate.Continue? && a == Auth(true, admin) <==> exists k :: BatchLogsInAt(rs, k, admin, rpcLimited))
            && (!a.authenticated ==> a == auth)
    decreases |rs|
  {
    if rs != [] {
      var (a, es, fate) := HandleEntry(auth, rs[0], rpcLimited);
      EntryUnauthenticated(auth, rs[0], rpcLimited);
      assert forall i :: 0 < i < |rs| ==> rs[i] == rs[1..][i - 1];
      if Malformed(rs[0]) {
        BatchUnauthenticated(auth, rs[1..], admin, rpcLimited);
        BatchLogsInLater(rs, admin, rpcLimited);
      } else {
        BatchLogsInFirst(rs, admin, rpcLimited);
        if a.authenticated {
          BatchGoesOn(a, rs[1..], rpcLimited);
        }
      }
      hide BatchLogsInAt, HandleEntry, EntryEnds, Grants, Malformed;
    }
  }

  lemma MessageUnauthenticated(auth: Auth, m: Message, admin: bool, rpcLimited: set<string>)
    requires !auth.authenticated
    ensures var (a, _, fate) := OnMessage(auth, m, rpcLimited);
            && (fate.Continue? && !a.authenticated <==> Silent(m))
            && (fate.Continue? && a == Auth(true, admin) <==> LogsIn(m, admin, rpcLimited))
            && (!a.authenticated ==> a == auth)
  {
    if m.Batch? {
      BatchUnauthenticated(auth, m.entries, admin, rpcLimited);
      if k :| BatchLogsInAt(m.entries, k, admin, rpcLimited) {
        assert m.entries != [];
      }
    }
  }

  lemma LogsInLater(ms: seq<Message>, admin: bool, rpcLimited: set<string>)
    requires ms != [] && Silent(ms[0]) && !LogsIn(ms[0], admin, rpcLimited)
    ensures (exists k :: LogsInAt(ms, k, admin, rpcLimited)) <==> (exists k :: LogsInAt(ms[1..], k, admin, rpcLimited))
  {
    hide Silent, LogsIn, MessageEnds;
    if k :| LogsInAt(ms, k, admin, rpcLimited) {
      assert LogsInAt(ms[1..], k - 1, admin, rpcLimited);
    }
    if k :| LogsInAt(ms[1..], k, admin, rpcLimited) {
      forall j | 0 <= j < k + 1 ensures Silent(ms[j]) {
        assert j > 0 ==> ms[j] == ms[1..][j - 1];
      }
      forall j | k + 1 < j < |ms| ensures !MessageEnds(Auth(true, admin), ms[j], rpcLimited) {
        assert ms[j] == ms[1..][j - 1];
      }
      assert LogsInAt(ms, k + 1, admin, rpcLimited);
    }
  }

  lemma LogsInFirst(ms: seq<Message>, admin: bool, rpcLimited: set<string>)
    requires ms != [] && !Silent(ms[0])
    ensures (exists k :: LogsInAt(ms, k, admin, rpcLimited))
       <==> LogsIn(ms[0], admin, rpcLimited)
            && forall i :: 0 <= i < |ms[1..]| ==> !MessageEnds(Auth(true, admin), ms[1..][i], rpcLimited)
  {
    hide Silent, LogsIn, MessageEnds;
    assert forall k :: LogsInAt(ms, k, admin, rpcLimited) ==> k == 0;
    if LogsIn(ms[0], admin, rpcLimited)
       && forall i :: 0 <= i < |ms[1..]| ==> !MessageEnds(Auth(true, admin), ms[1..][i], rpcLimited) {
      forall j | 0 < j < |ms| ensures !MessageEnds(Auth(true, admin), ms[j], rpcLimited) {
        assert ms[j] == ms[1..][j - 1];
      }
      assert LogsInAt(ms, 0, admin, rpcLimited);
    }
    if LogsInAt(ms, 0, admin, rpcLimited) {
      assert forall i :: 0 <= i < |ms[1..]| ==> ms[1..][i] == ms[i + 1];
    }
  }

  /** An unauthenticated session is still open and unauthenticated exactly when all it got
      are silent messages, and open with these rights exactly when the first message that
      is not silent logs in and nothing after it ends the session. */
  lemma {:induction false} UnauthenticatedGoesOn(auth: Auth, ms: seq<Message>, admin: bool, rpcLimited: set<string>)
    requires !auth.authenticated
    ensures var (a, _, fate) := Run(auth, ms, rpcLimited);
            && (fate.Continue? && !a.authenticated <==> forall i :: 0 <= i < |ms| ==> Silent(ms[i]))
            && (fate.Continue? && a == Auth(true, admin) <==> exists k :: LogsInAt(ms, k, admin, rpcLimited))
            && (!a.authenticated ==> a == auth)
    decreases |ms|
  {
    if ms != [] {
      var (a, es, fate) := OnMessage(auth, ms[0], rpcLimited);
      MessageUnauthenticated(auth, ms[0], admin, rpcLimited);
      assert forall i :: 0 < i < |ms| ==> ms[i] == ms[1..][i - 1];
      if Silent(ms[0]) {
        UnauthenticatedGoesOn(auth, ms[1..], admin, rpcLimited);
        LogsInLater(ms, admin, rpcLimited);
      } else {
        LogsInFirst(ms, admin, rpcLimited);
        if a.authenticated {
          AuthenticatedGoesOn(a, ms[1..], rpcLimited);
        }
      }
      hide LogsInAt, LogsIn, OnMessage, MessageEnds, Silent;
    }
  }

  /** A client that has not logged in is told off, but not disconnected, when its first
      request has no method. */
  lemma FirstRequestNeedNotBeALogin(rpcLimited: set<string>)
    ensures var auth := Auth(false, false);
            Run(auth, [Single(Request("1.0", "", true, Scalar, Other))], rpcLimited) == (auth, [], Continue)
  {
    RunOne(Auth(false, false), Single(Request("1.0", "", true, Scalar, Other)), rpcLimited);
  }

  /** A session that ends up authenticated was sent matching credentials, after nothing
      but silent messages and malformed entries, and has the rights they grant. */
  lemma {:induction false} LoginNeedsCredentials(auth: Auth, ms: seq<Message>, rpcLimited: set<string>)
    requires !auth.authenticated && Run(auth, ms, rpcLimited).0.authenticated
    ensures exists k :: 0 <= k < |ms| && MessageGrants(ms[k], Run(auth, ms, rpcLimited).0.isAdmin)
                        && forall j :: 0 <= j < k ==> Silent(ms[j])
    decreases |ms|
  {
    var admin := Run(auth, ms, rpcLimited).0.isAdmin;
    var (a, es, fate) := OnMessage(auth, ms[0], rpcLimited);
    if a.authenticated {
      if ms[0].Batch? {
        BatchLogin(auth, ms[0].entries, rpcLimited);
      }
      if fate.Continue? {
        AuthenticatedGoesOn(a, ms[1..], rpcLimited);
      }
      assert MessageGrants(ms[0], admin);
    } else {
      MessageUnauthenticated(auth, ms[0], true, rpcLimited);
      LoginNeedsCredentials(auth, ms[1..], rpcLimited);
      var k :| 0 <= k < |ms[1..]| && MessageGrants(ms[1..][k], admin) && forall j :: 0 <= j < k ==> Silent(ms[1..][j]);
      assert forall j :: 0 < j <= k + 1 ==> ms[j] == ms[1..][j - 1];
      assert MessageGrants(ms[k + 1], admin);
    }
  }

  /** A login that the first request or entry other than malformed ones makes. */
  predicate MessageGrants(m: Message, admin: bool)
  {
    match m
    case Single(r) => Grants(r, admin)
    case GarbledBatch => false
    case Batch(rs) =>
      exists k :: 0 <= k < |rs| && Grants(rs[k], admin) && forall j :: 0 <= j < k ==> Malformed(rs[j])
    case NoMore => false
  }

  lemma {:induction false} BatchLogin(auth: Auth, rs: seq<Request>, rpcLimited: set<string>)
    requires !auth.authenticated && HandleBatch(auth, rs, rpcLimited).0.authenticated
    ensures MessageGrants(Batch(rs), HandleBatch(auth, rs, rpcLimited).0.isAdmin)
    decreases |rs|
  {
    var admin := HandleBatch(auth, rs, rpcLimited).0.isAdmin;
    var (a, es, fate) := HandleEntry(auth, rs[0], rpcLimited);
    EntryUnauthenticated(auth, rs[0], rpcLimited);
    if a.authenticated {
      if fate.Continue? {
        BatchGoesOn(a, rs[1..], rpcLimited);
      }
      assert Grants(rs[0], admin);
    } else {
      BatchLogin(auth, rs[1..], rpcLimited);
      var k :| 0 <= k < |rs[1..]| && Grants(rs[1..][k], admin) && forall j :: 0 <= j < k ==> Malformed(rs[1..][j]);
      assert forall j :: 0 < j <= k + 1 ==> rs[j] == rs[1..][j - 1];
      assert Grants(rs[k + 1], admin);
    }
  }

  // ---------- Batches and single requests ----------

  function Singles(rs: seq<Request>): seq<Message> { seq(|rs|, i requires 0 <= i < |rs| => Single(rs[i])) }

  /** Entry i is a command that runs unanswered, reached by an authenticated session. */
  ghost predicate UnansweredAt(auth: Auth, rs: seq<Request>, i: int, rpcLimited: set<string>)
  {
    0 <= i < |rs| && RunsUnanswered(auth, rs[i], rpcLimited)
    && forall j :: 0 <= j < i ==> !EntryEnds(auth, rs[j], rpcLimited)
  }

  /** A batch that comes to a command it cannot answer: after entries that end nothing,
      and for an unauthenticated session after malformed ones and a matching login. */
  ghost predicate ComesToUnanswered(auth: Auth, rs: seq<Request>, rpcLimited: set<string>)
  {
    if auth.authenticated then exists i :: UnansweredAt(auth, rs, i, rpcLimited)
    else exists k, i :: LogsInBefore(rs, k, i, rpcLimited)
  }

  ghost predicate LogsInBefore(rs: seq<Request>, k: int, i: int, rpcLimited: set<string>)
  {
    && 0 <= k < i < |rs| && IsLogin(rs[k])
    && var login := rs[k].command.login;
       && Grants(rs[k], login.admin)
       && (forall j :: 0 <= j < k ==> Malformed(rs[j]))
       && (forall j :: k < j < i ==> !EntryEnds(Auth(true, login.admin), rs[j], rpcLimited))
       && RunsUnanswered(Auth(true, login.admin), rs[i], rpcLimited)
  }

  /** The two places where a request is checked agree, but for a reply that fails. */
  lemma EntryIsSingle(auth: Auth, r: Request, rpcLimited: set<string>)
    ensures HandleEntry(auth, r, rpcLimited) == HandleSingle(auth, r, rpcLimited)
       <==> !RunsUnanswered(auth, r, rpcLimited)
    ensures var (a, es, fate), (b, fs, g) := HandleEntry(auth, r, rpcLimited), HandleSingle(auth, r, rpcLimited);
            && a == b && es == fs
            && (RunsUnanswered(auth, r, rpcLimited) ==> fate == Return && g == Continue)
  {
  }

  lemma {:induction false} AuthenticatedReturns(auth: Auth, rs: seq<Request>, rpcLimited: set<string>)
    requires auth.authenticated
    ensures HandleBatch(auth, rs, rpcLimited).2.Return? <==> exists i :: UnansweredAt(auth, rs, i, rpcLimited)
    decreases |rs|
  {
    if rs != [] {
      AuthenticatedReturns(auth, rs[1..], rpcLimited);
      assert forall j :: 0 < j < |rs| ==> rs[j] == rs[1..][j - 1];
      if i :| UnansweredAt(auth, rs, i, rpcLimited) {
        assert i > 0 ==> UnansweredAt(auth, rs[1..], i - 1, rpcLimited);
      }
      if EntryEnds(auth, rs[0], rpcLimited) {
        assert RunsUnanswered(auth, rs[0], rpcLimited) ==> UnansweredAt(auth, rs, 0, rpcLimited);
      } else if i :| UnansweredAt(auth, rs[1..], i, rpcLimited) {
        assert UnansweredAt(auth, rs, i + 1, rpcLimited);
      }
    }
  }

  lemma {:induction false} UnauthenticatedReturns(auth: Auth, rs: seq<Request>, rpcLimited: set<string>)
    requires !auth.authenticated
    ensures HandleBatch(auth, rs, rpcLimited).2.Return? <==> exists k, i :: LogsInBefore(rs, k, i, rpcLimited)
    decreases |rs|
  {
    if rs != [] {
      EntryUnauthenticated(auth, rs[0], rpcLimited);
      var (a, es, fate) := HandleEntry(auth, rs[0], rpcLimited);
      assert forall j :: 0 < j < |rs| ==> rs[j] == rs[1..][j - 1];
      if Malformed(rs[0]) {
        UnauthenticatedReturns(auth, rs[1..], rpcLimited);
        if k, i :| LogsInBefore(rs, k, i, rpcLimited) {
          assert LogsInBefore(rs[1..], k - 1, i - 1, rpcLimited);
        }
        if k, i :| LogsInBefore(rs[1..], k, i, rpcLimited) {
          assert LogsInBefore(rs, k + 1, i + 1, rpcLimited);
        }
      } else if a.authenticated {
        AuthenticatedReturns(a, rs[1..], rpcLimited);
        if k, i :| LogsInBefore(rs, k, i, rpcLimited) {
          assert UnansweredAt(a, rs[1..], i - 1, rpcLimited);
        }
        if i :| UnansweredAt(a, rs[1..], i, rpcLimited) {
          assert LogsInBefore(rs, 0, i + 1, rpcLimited);
        }
      }
    }
  }

  lemma {:induction false} AgreeUnlessReturned(auth: Auth, rs: seq<Request>, rpcLimited: set<string>)
    ensures var (a, es, fate), (b, fs, g) := HandleBatch(auth, rs, rpcLimited), Run(auth, Singles(rs), rpcLimited);
            && a == b && es <= fs && !g.Return?
            && (!fate.Return? ==> es == fs && fate == g)
    decreases |rs|
  {
    if rs != [] {
      EntryIsSingle(auth, rs[0], rpcLimited);
      var (a, es, fate) := HandleSingle(auth, rs[0], rpcLimited);
      assert Singles(rs)[0] == Single(rs[0]) && Singles(rs)[1..] == Singles(rs[1..]);
      AgreeUnlessReturned(a, rs[1..], rpcLimited);
      if RunsUnanswered(auth, rs[0], rpcLimited) {
        AuthenticatedKeeps(auth, Singles(rs[1..]), rpcLimited);
      }
      hide HandleEntry, HandleSingle;
    }
  }

  lemma AuthenticatedKeeps(auth: Auth, ms: seq<Message>, rpcLimited: set<string>)
    requires auth.authenticated
    ensures Run(auth, ms, rpcLimited).0 == auth
  {
    AuthenticatedGoesOn(auth, ms, rpcLimited);
  }

  lemma EntriesAreSingles(auth: Auth, rs: seq<Request>, rpcLimited: set<string>)
    ensures HandleBatch(auth, rs, rpcLimited) == Run(auth, Singles(rs), rpcLimited)
       <==> !ComesToUnanswered(auth, rs, rpcLimited)
    ensures HandleBatch(auth, rs, rpcLimited).0 == Run(auth, Singles(rs), rpcLimited).0
    ensures HandleBatch(auth, rs, rpcLimited).1 <= Run(auth, Singles(rs), rpcLimited).1
  {
    AgreeUnlessReturned(auth, rs, rpcLimited);
    if auth.authenticated {
      AuthenticatedReturns(auth, rs, rpcLimited);
    } else {
      UnauthenticatedReturns(auth, rs, rpcLimited);
    }
  }

  /** A batch logs in and runs exactly what its requests would one by one, and leaves the
      session as they would, unless it is empty and nobody has logged in, or it comes to a
      command that may run but cannot be answered. The first breaks off; the second runs
      nothing after that command. */
  lemma BatchIsSingles(auth: Auth, rs: seq<Request>, rpcLimited: set<string>)
    ensures OnMessage(auth, Batch(rs), rpcLimited) == Run(auth, Singles(rs), rpcLimited)
       <==> !(rs == [] && !auth.authenticated) && !ComesToUnanswered(auth, rs, rpcLimited)
    ensures OnMessage(auth, Batch(rs), rpcLimited).0 == Run(auth, Singles(rs), rpcLimited).0
    ensures OnMessage(auth, Batch(rs), rpcLimited).1 <= Run(auth, Singles(rs), rpcLimited).1
  {
    EntriesAreSingles(auth, rs, rpcLimited);
    if rs == [] {
      assert Singles(rs) == [];
    }
  }

  /** The empty batch of a client that has not logged in: its requests, none, would leave
      the session open. */
  lemma EmptyBatch(rpcLimited: set<string>)
    ensures var nobody := Auth(false, false);
            && Run(nobody, Singles([]), rpcLimited) == (nobody, [], Continue)
            && Run(nobody, [Batch([])], rpcLimited) == (nobody, [], Break)
  {
    RunOne(Auth(false, false), Batch([]), rpcLimited);
  }

  /** An administrator's command without a version: alone it runs and the session goes on;
      in a batch it runs and the handler returns, without disconnecting. */
  lemma CommandWithoutVersion(rpcLimited: set<string>)
    ensures var admin := Auth(true, true);
            var r := Request("", "getblockhash", true, Scalar, Other);
            && Run(admin, [Single(r)], rpcLimited) == (admin, [Ran("getblockhash")], Continue)
            && Run(admin, [Batch([r])], rpcLimited) == (admin, [Ran("getblockhash")], Return)
  {
    var admin := Auth(true, true);
    var r := Request("", "getblockhash", true, Scalar, Other);
    RunOne(admin, Single(r), rpcLimited);
    RunOne(admin, Batch([r]), rpcLimited);
    assert HandleBatch(admin, [r], rpcLimited) == (admin, [Ran("getblockhash")], Return);
  }

  // ---------- The loop ----------

  class Client {
    var authenticated: bool
    var isAdmin: bool
    var disconnected: bool

    constructor (authenticated: bool, isAdmin: bool)
      ensures this.authenticated == authenticated && this.isAdmin == isAdmin && !disconnected
    {
      this.authenticated, this.isAdmin, disconnected := authenticated, isAdmin, false;
    }

    function State(): Auth
      reads this
    {
      Auth(authenticated, isAdmin)
    }

    /** The checks on a single request. */
    method CheckSingle(r: Request, rpcLimited: set<string>) returns (es: seq<Event>, fate: Fate)
      modifies `authenticated, `isAdmin
      ensures (State(), es, fate) == HandleSingle(old(State()), r, rpcLimited)
    {
      es, fate := [], Continue;
      if r.Garbled? {
        if !authenticated {
          fate := Break;
        }
        return;
      }
      if r.methodName == "" || !r.hasParams {
        return;
      }
      if r.id.NoId? {
        if !authenticated {
          fate := Break;
        }
        return;
      }
      if r.command.Invalid? {
        if !authenticated {
          fate := Break;
        }
        return;
      }
      if authenticated && r.command.Authenticate? {
        fate := Break;
        return;
      }
      if !authenticated && !r.command.Authenticate? {
        fate := Break;
        return;
      }
      if !authenticated {
        if !r.command.login.admin && !r.command.login.limited {
          fate := Break;
          return;
        }
        authenticated := true;
        isAdmin := r.command.login.admin;
        es := [LoggedIn(isAdmin)];
        return;
      }
      if !isAdmin {
        if r.methodName !in rpcLimited {
          return;
        }
      }
      es := [Ran(r.methodName)];
    }

    /** The checks on an entry of a batch. */
    method CheckEntry(r: Request, rpcLimited: set<string>) returns (es: seq<Event>, fate: Fate)
      modifies `authenticated, `isAdmin
      ensures (State(), es, fate) == HandleEntry(old(State()), r, rpcLimited)
    {
      es, fate := [], Continue;
      if r.Garbled? {
        if !authenticated {
          fate := Break;
        }
        return;
      }
      if r.methodName == "" || !r.hasParams {
        return;
      }
      if r.id.NoId? {
        if !authenticated {
          fate := Break;
        }
        return;
      }
      if r.command.Invalid? {
        if !authenticated {
          fate := Break;
        }
        return;
      }
      if authenticated && r.command.Authenticate? {
        fate := Break;
        return;
      }
      if !authenticated && !r.command.Authenticate? {
        fate := Break;
        return;
      }
      if !authenticated {
        if !r.command.login.admin && !r.command.login.limited {
          fate := Break;
          return;
        }
        authenticated := true;
        isAdmin := r.command.login.admin;
        es := [LoggedIn(isAdmin)];
        return;
      }
      if !isAdmin {
        if r.methodName !in rpcLimited {
          return;
        }
      }
      es := [Ran(r.methodName)];
      if (r.version != "1.0" && r.version != "2.0") || r.id.Composite? {
        fate := Return;
      }
    }

    method ServeBatch(rs: seq<Request>, rpcLimited: set<string>) returns (es: seq<Event>, fate: Fate)
      modifies `authenticated, `isAdmin
      ensures (State(), es, fate) == HandleBatch(old(State()), rs, rpcLimited)
    {
      es, fate := [], Continue;
      var i := 0;
      assert rs[0..] == rs;
      ResumeAgain([], [], HandleBatch(State(), rs, rpcLimited));
      while i < |rs|
        invariant 0 <= i <= |rs| && fate.Continue?
        invariant HandleBatch(old(State()), rs, rpcLimited) == Resume(es, HandleBatch(State(), rs[i..], rpcLimited))
      {
        assert rs[i..][1..] == rs[i + 1..];
        var fs;
        fs, fate := CheckEntry(rs[i], rpcLimited);
        ResumeAgain(es, fs, HandleBatch(State(), rs[i + 1..], rpcLimited));
        es := es + fs;
        if !fate.Continue? {
          return;
        }
        i := i + 1;
      }
      ResumeAgain(es, [], (State(), [], Continue));
    }

    /** Serves messages until one ends the session; every way out but Return
        disconnects. */
    method InHandler(ms: seq<Message>, rpcLimited: set<string>) returns (es: seq<Event>, fate: Fate)
      requires !disconnected
      modifies this
      ensures (State(), es, fate) == Run(old(State()), ms, rpcLimited)
      ensures disconnected <==> fate.Break?
    {
      es, fate := [], Continue;
      var i := 0;
      assert ms[0..] == ms;
      ResumeAgain([], [], Run(State(), ms, rpcLimited));
      while i < |ms|
        invariant 0 <= i <= |ms| && fate.Continue? && !disconnected
        invariant Run(old(State()), ms, rpcLimited) == Resume(es, Run(State(), ms[i..], rpcLimited))
      {
        assert ms[i..][1..] == ms[i + 1..];
        var fs := [];
        match ms[i] {
          case Single(r) =>
            fs, fate := CheckSingle(r, rpcLimited);
          case GarbledBatch =>
            fate := if authenticated then Continue else Break;
          case Batch(rs) =>
            if |rs| == 0 {
              fate := if authenticated then Continue else Break;
            } else {
              fs, fate := ServeBatch(rs, rpcLimited);
            }
          case NoMore =>
            fate := Break;
        }
        ResumeAgain(es, fs, Run(State(), ms[i + 1..], rpcLimited));
        es := es + fs;
        if !fate.Continue? {
          disconnected := fate.Break?;
          return;
        }
        i := i + 1;
      }
      ResumeAgain(es, [], (State(), [], Continue));
    }
  }

  /** A loop that has shown es so far. */
  function Resume(es: seq<Event>, rest: Outcome): Outcome
  {
    (rest.0, es + rest.1, rest.2)
  }

  lemma ResumeAgain(es: seq<Event>, fs: seq<Event>, rest: Outcome)
    ensures Resume(es, Resume(fs, rest)) == Resume(es + fs, rest)
    ensures Resume([], rest) == rest
    ensures Resume(es, (rest.0, [], rest.2)) == (rest.0, es, rest.2)
  {
    assert es + (fs + rest.1) == es + fs + rest.1;
    assert [] + rest.1 == rest.1;
    assert es + [] == es;
  }
}
