/** The two-way index of watched outpoints (rpcwebsocket.go): which clients watch an
outpoint, and which outpoints a client watches. */
module WatchIndex {
  import opened Options
  import opened OutPoints

  /** A marshalled redeemingtx notification. */
  type Json = string

  class WsClient {
    /** The quit channel, which the notification manager uses as the client's key. */
    const quit: nat
    var spentRequests: set<OutPoint>
    var disconnected: bool
    /** What QueueNotification has put on ntfnChan. */
    var queued: seq<Json>

    constructor (quit: nat)
      ensures this.quit == quit && spentRequests == {} && !disconnected && queued == []
    {
      this.quit := quit;
      spentRequests, disconnected, queued := {}, false, [];
    }

    /** A disconnected client gets an error instead. */
    method QueueNotification(json: Json) returns (ok: bool)
      modifies this`queued
      ensures ok == !disconnected
      ensures queued == if ok then old(queued) + [json] else old(queued)
    {
      ok := !disconnected;
      if ok {
        queued := queued + [json];
      }
    }
  }

  type Index = map<OutPoint, map<nat, WsClient>>

  predicate Watching(ops: Index, q: nat, op: OutPoint) { op in ops && q in ops[op] }

  /** The index with one client gone from one outpoint. */
  function Without(ops: Index, q: nat, op: OutPoint): Index
  {
    if op !in ops then ops
    else
      var rest := ops[op] - {q};
      if |rest| == 0 then ops - {op} else ops[op := rest]
  }

  /** No inner map is empty. */
  predicate NoEmptyEntry(ops: Index) { forall op | op in ops :: ops[op] != map[] }

  /** Each key stands for the client that carries it. */
  ghost predicate KeysMatch(ops: Index, clients: set<WsClient>)
  {
    forall op, q | Watching(ops, q, op) :: ops[op][q] in clients && ops[op][q].quit == q
  }

  ghost predicate KeysDistinct(clients: set<WsClient>)
  {
    forall c, d | c in clients && d in clients && c.quit == d.quit :: c == d
  }

  /** Both sides agree. */
  ghost predicate Agree(ops: Index, clients: set<WsClient>)
    reads clients`spentRequests
  {
    forall c, op | c in clients :: op in c.spentRequests <==> Watching(ops, c.quit, op)
  }

  ghost predicate Indexed(ops: Index, clients: set<WsClient>)
    reads clients`spentRequests
  {
    NoEmptyEntry(ops) && KeysDistinct(clients) && KeysMatch(ops, clients) && Agree(ops, clients)
  }

  lemma WithoutWatching(ops: Index, q: nat, op: OutPoint)
    requires NoEmptyEntry(ops)
    ensures NoEmptyEntry(Without(ops, q, op))
    ensures forall r, p :: Watching(Without(ops, q, op), r, p) <==> Watching(ops, r, p) && !(r == q && p == op)
    ensures forall r, p | Watching(Without(ops, q, op), r, p) :: Without(ops, q, op)[p][r] == ops[p][r]
    ensures forall p | p != op :: (p in Without(ops, q, op) <==> p in ops)
                               && (p in ops ==> Without(ops, q, op)[p] == ops[p])
  {
    if op in ops {
      var rest := ops[op] - {q};
      if |rest| == 0 {
        assert rest == map[];
        assert forall r | r in ops[op] :: r == q || r in rest;
      }
    }
  }

  /** The index with the watchers of one outpoint cut down to some of them. */
  function Restricted(ops: Index, op: OutPoint, qs: set<nat>): Index
    requires op in ops && qs <= ops[op].Keys
  {
    if qs == {} then ops - {op} else ops[op := map q | q in qs :: ops[op][q]]
  }

  /** The keys of the inner map of an outpoint; it is empty once the outpoint has left the
      index. */
  function Watchers(ops: Index, op: OutPoint): set<nat>
  {
    if op in ops then ops[op].Keys else {}
  }

  /** What a walk over the watchers of op has still to visit, whether the visited ones
      have been removed from the index or not. */
  lemma StillToVisit(before: Index, op: OutPoint, removed: bool, left: set<nat>, visited: set<nat>)
    requires op in before && left <= before[op].Keys && visited == before[op].Keys - left
    ensures var ops := if removed then Restricted(before, op, left) else before;
            && Watchers(ops, op) - visited == left
            && forall q | q in left :: op in ops && q in ops[op] && ops[op][q] == before[op][q]
  {
  }

  lemma RestrictedStep(ops: Index, op: OutPoint, qs: set<nat>, q: nat)
    requires op in ops && q in qs && qs <= ops[op].Keys
    ensures Without(Restricted(ops, op, qs), q, op) == Restricted(ops, op, qs - {q})
  {
    var inner := (map r | r in qs :: ops[op][r]) - {q};
    assert inner.Keys == qs - {q};
    if qs == {q} {
      assert inner == map[];
      assert Restricted(ops, op, qs) - {op} == ops - {op};
    } else {
      var r :| r in qs - {q};
      assert r in inner;
      assert |inner| != 0;
      assert inner == map r | r in qs - {q} :: ops[op][r];
    }
  }

  lemma Turn(before: Index, op: OutPoint, removed: bool, left: set<nat>, visited: set<nat>, q: nat)
    requires op in before && left <= before[op].Keys && visited == before[op].Keys - left && q in left
    ensures var ops := if removed then Restricted(before, op, left) else before;
            var ops' := if removed then Without(ops, q, op) else ops;
            && op in ops && q in ops[op] && ops[op][q] == before[op][q]
            && ops' == (if removed then Restricted(before, op, left - {q}) else before)
            && Watchers(ops', op) - (visited + {q}) == left - {q}
    ensures visited + {q} == before[op].Keys - (left - {q})
  {
    RestrictedStep(before, op, left, q);
    StillToVisit(before, op, removed, left, visited);
    StillToVisit(before, op, removed, left - {q}, visited + {q});
  }

  lemma RestrictedAll(ops: Index, op: OutPoint)
    requires op in ops && ops[op] != map[]
    ensures Restricted(ops, op, ops[op].Keys) == ops
  {
    var q :| q in ops[op];
    assert ops[op] == map q | q in ops[op].Keys :: ops[op][q];
  }

  lemma RestrictedNone(ops: Index, op: OutPoint)
    requires op in ops
    ensures Restricted(ops, op, {}) == ops - {op}
  {
  }

  lemma WatchersKnown(ops: Index, op: OutPoint, clients: set<WsClient>)
    requires Indexed(ops, clients) && op in ops
    ensures forall q | q in ops[op].Keys :: ops[op][q] in clients && ops[op][q].quit == q
    ensures KeysDistinct(clients) && ops[op] != map[]
  {
    assert forall q | q in ops[op].Keys :: Watching(ops, q, op);
  }

  /** Who hears of a transaction with these inputs. */
  ghost predicate Concerned(ops: Index, q: nat, inputs: seq<OutPoint>)
  {
    exists i | 0 <= i < |inputs| :: Watching(ops, q, inputs[i])
  }

  function ToSet(inputs: seq<OutPoint>): set<OutPoint> { set op | op in inputs }

  class Manager {
    var ops: Index

    constructor ()
      ensures ops == map[]
    {
      ops := map[];
    }

    method DropWatcher(q: nat, op: OutPoint)
      modifies this
      ensures ops == Without(old(ops), q, op)
    {
      if op !in ops {
        return;
      }
      var notifyMap := ops[op] - {q};
      if |notifyMap| == 0 {
        ops := ops - {op};
      } else {
        ops := ops[op := notifyMap];
      }
    }

    /** Removes one client from one outpoint, on both sides. */
    method RemoveSpentRequest(c: WsClient, op: OutPoint, ghost clients: set<WsClient>)
      requires Indexed(ops, clients) && c in clients
      modifies this, c`spentRequests
      ensures Indexed(ops, clients)
      ensures c.spentRequests == old(c.spentRequests) - {op}
      ensures ops == Without(old(ops), c.quit, op)
    {
      hide Without;
      WithoutWatching(ops, c.quit, op);
      c.spentRequests := c.spentRequests - {op};
      DropWatcher(c.quit, op);
    }

    /** One turn of the loop over the watchers of an outpoint. */
    method NotifyWatcher(c: WsClient, op: OutPoint, block: bool, json: Json, notified: set<nat>,
                         ghost clients: set<WsClient>)
      returns (notified': set<nat>)
      requires Indexed(ops, clients) && c in clients
      modifies this, c`spentRequests, c`queued
      ensures Indexed(ops, clients)
      ensures ops == if block then Without(old(ops), c.quit, op) else old(ops)
      ensures notified' == notified + {c.quit}
      ensures c.queued == old(c.queued) + if c.quit in notified || c.disconnected then [] else [json]
    {
      hide Indexed, Without;
      if block {
        RemoveSpentRequest(c, op, clients);
      }
      notified' := notified + {c.quit};
      if c.quit !in notified {
        var _ := c.QueueNotification(json);
      }
    }

    /** What one client has got out of a round of notifications. */
    twostate predicate Told(c: WsClient, qs: set<nat>, notified: set<nat>, json: Json)
      reads c
    {
      c.queued == old(c.queued) + if c.quit in qs - notified && !c.disconnected then [json] else []
    }

    /** Everybody who watches op and has not heard yet is told once; with a block, nobody
        watches it any longer. Each turn takes some watcher that the inner map still has
        and that has not had its turn, as a walk over a map does while entries go. */
    method NotifyWatchers(op: OutPoint, block: bool, json: Json, notified: set<nat>, ghost clients: set<WsClient>)
      returns (notified': set<nat>)
      requires Indexed(ops, clients) && op in ops
      modifies this, clients`spentRequests, clients`queued
      ensures Indexed(ops, clients)
      ensures ops == if block then old(ops) - {op} else old(ops)
      ensures notified' == notified + old(ops)[op].Keys
      ensures forall c | c in clients :: Told(c, old(ops)[op].Keys, notified, json)
    {
      hide Indexed, Restricted, Without, Watchers;
      WatchersKnown(ops, op, clients);
      RestrictedAll(ops, op);
      RestrictedNone(ops, op);
      ghost var before, all, left := ops, ops[op].Keys, ops[op].Keys;
      var visited: set<nat> := {};
      notified' := notified;
      StillToVisit(before, op, block, left, visited);
      while Watchers(ops, op) - visited != {}
        invariant left <= all && visited == all - left
        invariant Indexed(ops, clients)
        invariant ops == if block then Restricted(before, op, left) else before
        invariant Watchers(ops, op) - visited == left
        invariant notified' == notified + visited
        invariant forall c | c in clients :: Told(c, visited, notified, json)
        decreases left
      {
        var q :| q in Watchers(ops, op) - visited;
        Turn(before, op, block, left, visited, q);
        var c := ops[op][q];
        notified' := NotifyWatcher(c, op, block, json, notified', clients);
        visited, left := visited + {q}, left - {q};
      }
    }

    /** Each client that watches any input of the transaction and is still connected is
        queued the notification exactly once. With a block, exactly the spent outpoints
        leave the index, on both sides; without one it stays as it is. */
    method NotifyForTxIns(inputs: seq<OutPoint>, block: bool, marshalled: Option<Json>, ghost clients: set<WsClient>)
      requires Indexed(ops, clients)
      modifies this, clients`spentRequests, clients`queued
      ensures Indexed(ops, clients)
      ensures ops == if block && marshalled.Some? then old(ops) - ToSet(inputs) else old(ops)
      ensures forall c | c in clients ::
                c.spentRequests == old(c.spentRequests) - if block && marshalled.Some? then ToSet(inputs) else {}
      ensures forall c | c in clients ::
                c.queued == old(c.queued) +
                if marshalled.Some? && !c.disconnected && Concerned(old(ops), c.quit, inputs) then [marshalled.value]
                else []
    {
      hide Indexed;
      IndexedAgrees(ops, clients);
      NotifyInputs(inputs, block, marshalled, clients);
      IndexedAgrees(ops, clients);
      forall c | c in clients
        ensures c.spentRequests == old(c.spentRequests) - if block && marshalled.Some? then ToSet(inputs) else {}
      {
        assert forall op :: op in c.spentRequests <==> Watching(ops, c.quit, op);
        assert forall op :: op in old(c.spentRequests) <==> Watching(old(ops), c.quit, op);
      }
    }

    method NotifyInputs(inputs: seq<OutPoint>, block: bool, marshalled: Option<Json>, ghost clients: set<WsClient>)
      requires Indexed(ops, clients)
      modifies this, clients`spentRequests, clients`queued
      ensures Indexed(ops, clients)
      ensures ops == if block && marshalled.Some? then old(ops) - ToSet(inputs) else old(ops)
      ensures forall c | c in clients ::
                c.queued == old(c.queued) +
                if marshalled.Some? && !c.disconnected && Concerned(old(ops), c.quit, inputs) then [marshalled.value]
                else []
    {
      hide Indexed, Left, Hears, Concerned, ToSet;
      ghost var before := ops;
      RoundEnds(before, inputs);
      if |ops| == 0 {
        NobodyWatches(before, inputs);
        return;
      }
      var wscNotified: set<nat> := {};
      var i := 0;
      while i < |inputs|
        invariant 0 <= i <= |inputs|
        invariant Indexed(ops, clients)
        invariant ops == if block && marshalled.Some? then Left(before, inputs, i) else before
        invariant marshalled.Some? ==> forall q :: q in wscNotified <==> Hears(before, q, inputs, i)
        invariant forall c | c in clients ::
                    c.queued == old(c.queued) +
                    if marshalled.Some? && !c.disconnected && c.quit in wscNotified then [marshalled.value] else []
      {
        var prevOut := inputs[i];
        RoundStep(before, inputs, i);
        if prevOut in ops && marshalled.Some? {
          wscNotified := NotifyWatchers(prevOut, block, marshalled.value, wscNotified, clients);
        }
        i := i + 1;
      }
    }
  }

  lemma IndexedAgrees(ops: Index, clients: set<WsClient>)
    requires Indexed(ops, clients)
    ensures Agree(ops, clients)
  {
  }

  /** The index without the first i inputs. */
  ghost function Left(before: Index, inputs: seq<OutPoint>, i: nat): Index
    requires i <= |inputs|
  {
    before - ToSet(inputs[..i])
  }

  /** Who hears of a transaction on account of its first i inputs. */
  ghost predicate Hears(before: Index, q: nat, inputs: seq<OutPoint>, i: nat)
    requires i <= |inputs|
  {
    Concerned(before, q, inputs[..i])
  }

  lemma RoundEnds(before: Index, inputs: seq<OutPoint>)
    ensures Left(before, inputs, 0) == before && Left(before, inputs, |inputs|) == before - ToSet(inputs)
    ensures forall q :: !Hears(before, q, inputs, 0)
    ensures forall q :: Hears(before, q, inputs, |inputs|) <==> Concerned(before, q, inputs)
  {
    assert inputs[..|inputs|] == inputs && inputs[..0] == [];
    assert ToSet([]) == {} && before - {} == before;
  }

  lemma NobodyWatches(before: Index, inputs: seq<OutPoint>)
    requires |before| == 0
    ensures before - ToSet(inputs) == before && forall q :: !Concerned(before, q, inputs)
  {
    assert before == map[];
    assert before - ToSet(inputs) == before;
  }

  lemma RoundStep(before: Index, inputs: seq<OutPoint>, i: nat)
    requires i < |inputs|
    ensures var op := inputs[i];
      && Left(before, inputs, i + 1) == Left(before, inputs, i) - {op}
      && (op !in Left(before, inputs, i) ==> Left(before, inputs, i + 1) == Left(before, inputs, i))
      && (op in Left(before, inputs, i) ==> op in before && Left(before, inputs, i)[op] == before[op])
      && (op !in Left(before, inputs, i) || op !in before ==>
            forall q :: Hears(before, q, inputs, i + 1) <==> Hears(before, q, inputs, i))
      && forall q :: Hears(before, q, inputs, i + 1) <==> Hears(before, q, inputs, i) || Watching(before, q, op)
  {
    var op := inputs[i];
    assert ToSet(inputs[..i + 1]) == ToSet(inputs[..i]) + {op};
    assert before - ToSet(inputs[..i + 1]) == (before - ToSet(inputs[..i])) - {op};
    ConcernedStep(before, inputs, i);
  }

  lemma ConcernedStep(ops: Index, inputs: seq<OutPoint>, i: nat)
    requires i < |inputs|
    ensures forall q :: Concerned(ops, q, inputs[..i + 1]) <==>
                        Concerned(ops, q, inputs[..i]) || Watching(ops, q, inputs[i])
    ensures inputs[i] in ToSet(inputs[..i]) ==>
              forall q | Watching(ops, q, inputs[i]) :: Concerned(ops, q, inputs[..i])
  {
    var a, b := inputs[..i], inputs[..i + 1];
    forall q
      ensures Concerned(ops, q, b) <==> Concerned(ops, q, a) || Watching(ops, q, inputs[i])
    {
      if Concerned(ops, q, a) {
        var k :| 0 <= k < |a| && Watching(ops, q, a[k]);
        assert b[k] == a[k];
      }
      if Watching(ops, q, inputs[i]) {
        assert b[i] == inputs[i];
      }
      if Concerned(ops, q, b) {
        var k :| 0 <= k < |b| && Watching(ops, q, b[k]);
        assert k < i ==> a[k] == b[k];
      }
    }
    if inputs[i] in ToSet(a) {
      var k :| 0 <= k < |a| && a[k] == inputs[i];
      assert forall q | Watching(ops, q, inputs[i]) :: Watching(ops, q, a[k]);
    }
  }
}
