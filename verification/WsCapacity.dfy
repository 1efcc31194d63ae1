/** How many clients the hub can hold, when the capacity test and the append are split by the handshake. */
module WsCapacity {
  import opened WsServer

  /** Handshakes never exceed p at any moment of the run. */
  predicate HandshakesWithin(events: seq<Event>, p: nat) {
    forall k :: 0 <= k <= |events| ==> |Run(events[..k]).handshakes| <= p
  }

  lemma {:induction false} WithoutShrinks(clients: seq<ClientId>, gone: set<ClientId>)
    ensures |Without(clients, gone)| <= |clients|
  {
    if clients != [] {
      WithoutShrinks(clients[..|clients| - 1], gone);
    }
  }

  lemma RemovingShrinks(ids: set<ClientId>, id: ClientId)
    ensures |ids - {id}| == if id in ids then |ids| - 1 else |ids|
  {
    if id !in ids { assert ids - {id} == ids; }
  }

  /** A step lets someone in only below the limit; otherwise the room taken does not grow. */
  lemma StepSizes(s: Server, e: Event)
    ensures var t := Step(s, e);
            || |t.clients| + |t.handshakes| <= |s.clients| + |s.handshakes|
            || (t.clients == s.clients && |s.clients| < MAX_CLIENTS)
  {
    match e
    case ConnectAbort(id) => RemovingShrinks(s.handshakes, id);
    case ConnectFinish(id, ok) => RemovingShrinks(s.handshakes, id);
    case Disconnect(id) => WithoutShrinks(s.clients, {id});
    case CastTurn(ok) => if s.cast.Some? { WithoutShrinks(s.clients, SetOf(s.cast.value.failed)); }
    case _ =>
  }

  /** With at most p handshakes in flight at any moment, the hub never holds more than 19 + p clients. */
  lemma {:induction false} CapacityBound(events: seq<Event>, p: nat)
    requires HandshakesWithin(events, p)
    ensures |Run(events).clients| + |Run(events).handshakes| <= 19 + p
  {
    if events != [] {
      var n := |events| - 1;
      forall k | 0 <= k <= n ensures |Run(events[..n][..k]).handshakes| <= p {
        assert events[..n][..k] == events[..k];
      }
      CapacityBound(events[..n], p);
      assert events[..|events|] == events;
      StepSizes(Run(events[..n]), events[n]);
    }
  }

  /** n clients connecting one after the other. */
  function OneByOne(n: nat): (r: seq<Event>)
    ensures |r| == 2 * n
  {
    if n == 0 then [] else OneByOne(n - 1) + [ConnectBegin, ConnectFinish(n - 1, true)]
  }

  /** p more clients whose handshakes all begin before any of them ends. */
  function Begins(p: nat): (r: seq<Event>)
    ensures |r| == p
  {
    if p == 0 then [] else Begins(p - 1) + [ConnectBegin]
  }

  function Finishes(first: nat, p: nat): (r: seq<Event>)
    ensures |r| == p
  {
    if p == 0 then [] else Finishes(first, p - 1) + [ConnectFinish(first + p - 1, true)]
  }

  /** Nineteen clients, then a rush of p. */
  function Rush(p: nat): seq<Event> {
    OneByOne(MAX_CLIENTS - 1) + Begins(p) + Finishes(MAX_CLIENTS - 1, p)
  }

  /** The ids a, a + 1, .., b - 1. */
  function Ids(a: nat, b: nat): (r: set<nat>)
    requires a <= b
    ensures forall i :: i in r <==> a <= i < b
  {
    set i | a <= i < b && Between(a, i, b)
  }

  predicate Between(a: nat, i: nat, b: nat) {
    a <= i < b
  }

  lemma {:induction false} IdsCount(a: nat, b: nat)
    requires a <= b
    ensures |Ids(a, b)| == b - a
    decreases b
  {
    if a < b {
      IdsCount(a, b - 1);
      assert Ids(a, b) == Ids(a, b - 1) + {b - 1};
    } else {
      assert Ids(a, b) == {};
    }
  }

  lemma BeginQueues(s: Server, a: nat)
    requires |s.clients| < MAX_CLIENTS && a <= s.nextId && s.handshakes == Ids(a, s.nextId)
    ensures Step(s, ConnectBegin) == s.(handshakes := Ids(a, s.nextId + 1), nextId := s.nextId + 1)
  {
    assert Ids(a, s.nextId + 1) == Ids(a, s.nextId) + {s.nextId};
  }

  lemma FinishEnters(s: Server, a: nat, b: nat)
    requires a < b && s.handshakes == Ids(a, b)
    ensures var t := Step(s, ConnectFinish(a, true));
            |t.clients| == |s.clients| + 1 && t.handshakes == Ids(a + 1, b) && t.nextId == s.nextId
  {
    assert Ids(a, b) - {a} == Ids(a + 1, b);
  }

  ghost predicate Filled(s: Server, n: nat) {
    |s.clients| == n && s.handshakes == Ids(n, n) && s.nextId == n
  }

  lemma OneMore(events: seq<Event>, n: nat)
    requires Filled(Run(events), n) && n < MAX_CLIENTS
    ensures Run(events + [ConnectBegin]).handshakes == Ids(n, n + 1)
    ensures Filled(Run(events + [ConnectBegin, ConnectFinish(n, true)]), n + 1)
  {
    RunFromSnoc(START, events, ConnectBegin);
    RunFromSnoc(START, events + [ConnectBegin], ConnectFinish(n, true));
    assert events + [ConnectBegin] + [ConnectFinish(n, true)] == events + [ConnectBegin, ConnectFinish(n, true)];
    BeginQueues(Run(events), n);
    FinishEnters(Run(events + [ConnectBegin]), n, n + 1);
  }

  lemma {:induction false} OneByOneFills(n: nat)
    requires n <= MAX_CLIENTS
    ensures Filled(Run(OneByOne(n)), n)
  {
    if n == 0 {
      assert Ids(0, 0) == {};
    } else {
      OneByOneFills(n - 1);
      OneMore(OneByOne(n - 1), n - 1);
    }
  }

  lemma {:induction false} OneByOneNeverOverlaps(n: nat, k: nat)
    requires n <= MAX_CLIENTS && k <= 2 * n
    ensures |Run(OneByOne(n)[..k]).handshakes| <= 1
  {
    if n == 0 {
      assert OneByOne(0)[..0] == [];
    } else if k <= 2 * n - 2 {
      OneByOneNeverOverlaps(n - 1, k);
      assert OneByOne(n)[..k] == OneByOne(n - 1)[..k];
    } else {
      LastOfOneByOne(n, k);
    }
  }

  lemma LastOfOneByOne(n: nat, k: nat)
    requires 0 < n <= MAX_CLIENTS && 2 * n - 1 <= k <= 2 * n
    ensures |Run(OneByOne(n)[..k]).handshakes| <= 1
  {
    OneByOneFills(n);
    OneByOneFills(n - 1);
    if k == 2 * n {
      IdsCount(n, n);
      assert OneByOne(n)[..k] == OneByOne(n);
    } else {
      OneMore(OneByOne(n - 1), n - 1);
      IdsCount(n - 1, n);
      assert OneByOne(n)[..k] == OneByOne(n - 1) + [ConnectBegin];
    }
  }

  lemma {:induction false} BeginsQueueUp(s: Server, n: nat, p: nat)
    requires n < MAX_CLIENTS && Filled(s, n)
    ensures RunFrom(s, Begins(p)) == s.(handshakes := Ids(n, n + p), nextId := n + p)
  {
    if p > 0 {
      BeginsQueueUp(s, n, p - 1);
      BeginAfter(s, Begins(p - 1), n);
    }
  }

  lemma BeginAfter(s: Server, events: seq<Event>, a: nat)
    requires var t := RunFrom(s, events); |t.clients| < MAX_CLIENTS && a <= t.nextId && t.handshakes == Ids(a, t.nextId)
    ensures var t := RunFrom(s, events);
            RunFrom(s, events + [ConnectBegin]) == t.(handshakes := Ids(a, t.nextId + 1), nextId := t.nextId + 1)
  {
    RunFromSnoc(s, events, ConnectBegin);
    BeginQueues(RunFrom(s, events), a);
  }

  lemma FinishAfter(s: Server, events: seq<Event>, a: nat, b: nat)
    requires a < b && RunFrom(s, events).handshakes == Ids(a, b)
    ensures |RunFrom(s, events + [ConnectFinish(a, true)]).clients| == |RunFrom(s, events).clients| + 1
    ensures RunFrom(s, events + [ConnectFinish(a, true)]).handshakes == Ids(a + 1, b)
  {
    RunFromSnoc(s, events, ConnectFinish(a, true));
    FinishEnters(RunFrom(s, events), a, b);
  }

  lemma {:induction false} FinishesAllEnter(s: Server, first: nat, q: nat, p: nat)
    requires p <= q && s.handshakes == Ids(first, first + q)
    ensures |RunFrom(s, Finishes(first, p)).clients| == |s.clients| + p
    ensures RunFrom(s, Finishes(first, p)).handshakes == Ids(first + p, first + q)
  {
    if p > 0 {
      FinishesAllEnter(s, first, q, p - 1);
      OneMoreFinish(s, first, q, p);
    }
  }

  lemma OneMoreFinish(s: Server, first: nat, q: nat, p: nat)
    requires 0 < p <= q && RunFrom(s, Finishes(first, p - 1)).handshakes == Ids(first + p - 1, first + q)
    ensures |RunFrom(s, Finishes(first, p)).clients| == |RunFrom(s, Finishes(first, p - 1)).clients| + 1
    ensures RunFrom(s, Finishes(first, p)).handshakes == Ids(first + p, first + q)
  {
    var before := Finishes(first, p - 1);
    FinishAfter(s, before, first + p - 1, first + q);
    assert Finishes(first, p) == before + [ConnectFinish(first + p - 1, true)];
  }

  lemma BeginsPrefix(p: nat, k: nat)
    requires k <= p
    ensures Begins(p)[..k] == Begins(k)
  {
    if k < p {
      BeginsPrefix(p - 1, k);
      assert Begins(p)[..k] == Begins(p - 1)[..k];
    } else {
      assert Begins(p)[..k] == Begins(p);
    }
  }

  lemma FinishesPrefix(first: nat, p: nat, k: nat)
    requires k <= p
    ensures Finishes(first, p)[..k] == Finishes(first, k)
  {
    if k < p {
      FinishesPrefix(first, p - 1, k);
      assert Finishes(first, p)[..k] == Finishes(first, p - 1)[..k];
    } else {
      assert Finishes(first, p)[..k] == Finishes(first, p);
    }
  }

  /** The rush up to the j-th begin, and up to the j-th finish. */
  lemma RushBegins(p: nat, j: nat)
    requires j <= p
    ensures var t := Run(OneByOne(MAX_CLIENTS - 1) + Begins(j));
            |t.clients| == MAX_CLIENTS - 1 && t.handshakes == Ids(MAX_CLIENTS - 1, MAX_CLIENTS - 1 + j)
  {
    var m := MAX_CLIENTS - 1;
    OneByOneFills(m);
    RunFromConcat(START, OneByOne(m), Begins(j));
    BeginsQueueUp(Run(OneByOne(m)), m, j);
  }

  lemma RushFinishes(p: nat, j: nat)
    requires j <= p
    ensures var t := Run(OneByOne(MAX_CLIENTS - 1) + Begins(p) + Finishes(MAX_CLIENTS - 1, j));
            |t.clients| == MAX_CLIENTS - 1 + j && t.handshakes == Ids(MAX_CLIENTS - 1 + j, MAX_CLIENTS - 1 + p)
  {
    var m := MAX_CLIENTS - 1;
    RushBegins(p, p);
    RunFromConcat(START, OneByOne(m) + Begins(p), Finishes(m, j));
    FinishesAllEnter(Run(OneByOne(m) + Begins(p)), m, p, j);
  }

  lemma RushHandshakes(p: nat, k: nat)
    requires p >= 1 && k <= |Rush(p)|
    ensures |Run(Rush(p)[..k]).handshakes| <= p
  {
    var m := MAX_CLIENTS - 1;
    if k <= 2 * m {
      assert Rush(p)[..k] == OneByOne(m)[..k];
      OneByOneNeverOverlaps(m, k);
    } else if k <= 2 * m + p {
      var j := k - 2 * m;
      BeginsPrefix(p, j);
      assert Rush(p)[..k] == OneByOne(m) + Begins(j);
      RushBegins(p, j);
      IdsCount(m, m + j);
    } else {
      var j := k - 2 * m - p;
      FinishesPrefix(m, p, j);
      assert Rush(p)[..k] == OneByOne(m) + Begins(p) + Finishes(m, j);
      RushFinishes(p, j);
      IdsCount(m + j, m + p);
    }
  }

  /** The bound is attained: a rush of p handshakes fills the hub to 19 + p. */
  lemma RushAttainsBound(p: nat)
    requires p >= 1
    ensures HandshakesWithin(Rush(p), p)
    ensures |Run(Rush(p)).clients| == 19 + p
  {
    RushFinishes(p, p);
    forall k | 0 <= k <= |Rush(p)| ensures |Run(Rush(p)[..k]).handshakes| <= p {
      RushHandshakes(p, k);
    }
  }

  /** The promised maximum of 20 clients holds on every run with at most p handshakes in flight exactly when
      handshakes never overlap. */
  lemma CapacityPromiseIff(p: nat)
    ensures (forall events :: HandshakesWithin(events, p) ==> |Run(events).clients| <= 20) <==> p <= 1
  {
    if p <= 1 {
      forall events | HandshakesWithin(events, p) ensures |Run(events).clients| <= 20 {
        CapacityBound(events, p);
      }
    } else {
      RushAttainsBound(p);
    }
  }
}
