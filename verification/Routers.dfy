/** Router actors: worker selection, fairness, and the recursion of send and dispatch. */
module Routers {
  import opened Basics

  datatype Strategy = RoundRobin | Random | ConsistentKey | Unknown

  const COUNTS := 0x1_0000_0000_0000_0000

  /** The 64-bit round-robin counter. */
  type Counter = n: nat | n < COUNTS

  datatype Router = Router(strategy: Strategy, workers: seq<string>, next: Counter)

  datatype Payload = Nil | Plain | Keyed(key: string)

  datatype Status = Running | Halted

  datatype Result = Accepted | NotFound | RejectedStop | RejectedNil | Refused

  // --- picking a worker ---

  /** The workers that may be picked for the payload. */
  function Picks(r: Router, payload: Payload, hash: string -> nat): set<string>
  {
    if r.workers == [] then {}
    else match r.strategy
      case RoundRobin => {r.workers[r.next % |r.workers|]}
      case Random => Elements(r.workers)
      case ConsistentKey => if payload.Keyed? && payload.key != "" then {r.workers[hash(payload.key) % |r.workers|]} else {}
      case Unknown => {}
  }

  /** The workers that are picked at some value of the counter; a 64-bit counter points at no
      more than 2^64 workers. */
  function Options(r: Router, payload: Payload, hash: string -> nat): set<string>
  {
    if r.strategy.RoundRobin? then Elements(r.workers[..Min(|r.workers|, COUNTS)]) else Picks(r, payload, hash)
  }

  lemma SmallMod(i: nat, n: nat)
    requires i < n
    ensures i % n == i
  {}

  lemma ModAtMost(c: nat, n: nat)
    requires n > 0
    ensures c % n <= c && c % n < n
  {}

  lemma TurnPicks(r: Router, payload: Payload, hash: string -> nat, b: string) returns (c: Counter)
    requires r.strategy.RoundRobin? && b in Options(r, payload, hash)
    ensures b in Picks(r.(next := c), payload, hash)
  {
    var ws := r.workers[..Min(|r.workers|, COUNTS)];
    var i :| 0 <= i < |ws| && ws[i] == b;
    SmallMod(i, |r.workers|);
    c := i;
  }

  lemma PickIsOption(r: Router, payload: Payload, hash: string -> nat, b: string)
    requires b in Picks(r, payload, hash)
    ensures b in Options(r, payload, hash)
  {
    if r.strategy.RoundRobin? {
      ModAtMost(r.next, |r.workers|);
      assert r.workers[..Min(|r.workers|, COUNTS)][r.next % |r.workers|] == b;
    }
  }

  /** The options are what is picked at some value of the counter. */
  lemma OptionsExactly(r: Router, payload: Payload, hash: string -> nat, b: string)
    ensures b in Options(r, payload, hash) <==> exists c: Counter :: b in Picks(r.(next := c), payload, hash)
  {
    if b in Options(r, payload, hash) {
      if r.strategy.RoundRobin? {
        var c := TurnPicks(r, payload, hash, b);
      } else {
        assert b in Picks(r.(next := r.next), payload, hash);
      }
    }
    if c: Counter :| b in Picks(r.(next := c), payload, hash) {
      PickIsOption(r.(next := c), payload, hash, b);
    }
  }

  /** The n-th worker turns are those whose counter is j modulo n. */
  function Turns(c: nat, k: nat, n: nat, j: nat): nat
    requires n > 0
  {
    if k == 0 then 0 else Turns(c, k - 1, n, j) + if (c + k - 1) % n == j then 1 else 0
  }

  lemma SmallMultiple(d: int, n: int)
    requires n > 0 && -n < d * n < n
    ensures d == 0
  {
    assert d >= 1 ==> d * n >= n;
    assert d <= -1 ==> d * n <= -n;
  }

  lemma DivUnique(x: int, n: int, q: int, r: int)
    requires n > 0 && x == q * n + r && 0 <= r < n
    ensures x / n == q && x % n == r
  {
    var d, m := x / n, x % n;
    assert x == d * n + m;
    assert (d - q) * n == d * n - q * n == r - m;
    SmallMultiple(d - q, n);
  }

  /** Counter values below m that are j modulo n. */
  function Before(m: nat, n: nat, j: nat): nat
    requires j < n
  {
    (m + n - 1 - j) / n
  }

  lemma BeforeStep(m: nat, n: nat, j: nat)
    requires j < n
    ensures Before(m + 1, n, j) == Before(m, n, j) + if m % n == j then 1 else 0
  {
    var q, r := m / n, m % n;
    assert m == q * n + r;
    if r < j {
      DivUnique(m + n - 1 - j, n, q, r + n - 1 - j);
      DivUnique(m + n - j, n, q, r + n - j);
    } else if r == j {
      DivUnique(m + n - 1 - j, n, q, n - 1);
      assert m + n - j == (q + 1) * n + 0;
      DivUnique(m + n - j, n, q + 1, 0);
    } else {
      assert m + n - 1 - j == (q + 1) * n + (r - 1 - j);
      DivUnique(m + n - 1 - j, n, q + 1, r - 1 - j);
      assert m + n - j == (q + 1) * n + (r - j);
      DivUnique(m + n - j, n, q + 1, r - j);
    }
  }

  lemma {:induction false} TurnsAreDifference(c: nat, k: nat, n: nat, j: nat)
    requires j < n
    ensures Turns(c, k, n, j) == Before(c + k, n, j) - Before(c, n, j)
  {
    if k > 0 {
      TurnsAreDifference(c, k - 1, n, j);
      BeforeStep(c + k - 1, n, j);
    }
  }

  lemma DivSpread(x: nat, k: nat, n: nat)
    requires n > 0
    ensures k / n <= (x + k) / n - x / n <= (k + n - 1) / n
  {
    var a, b, q, r := x / n, x % n, k / n, k % n;
    assert x == a * n + b && k == q * n + r;
    if b + r < n {
      assert x + k == (a + q) * n + (b + r);
      DivUnique(x + k, n, a + q, b + r);
    } else {
      assert x + k == (a + q + 1) * n + (b + r - n);
      DivUnique(x + k, n, a + q + 1, b + r - n);
    }
    if r == 0 {
      DivUnique(k + n - 1, n, q, n - 1);
    } else {
      assert k + n - 1 == (q + 1) * n + (r - 1);
      DivUnique(k + n - 1, n, q + 1, r - 1);
    }
  }

  /** Any k consecutive turns over n workers give each of them k/n, rounded down or up. */
  lemma RoundRobinFair(c: nat, k: nat, n: nat, j: nat)
    requires j < n
    ensures k / n <= Turns(c, k, n, j) <= (k + n - 1) / n
  {
    TurnsAreDifference(c, k, n, j);
    DivSpread(c + n - 1 - j, k, n);
  }

  function Advanced(r: Router): Router { r.(next := (r.next + 1) % COUNTS) }

  function AdvancedBy(r: Router, k: nat): Router { if k == 0 then r else Advanced(AdvancedBy(r, k - 1)) }

  /** How many of k consecutive messages go to the worker. */
  function Served(r: Router, payload: Payload, hash: string -> nat, k: nat, worker: string): nat
  {
    if k == 0 then 0
    else Served(r, payload, hash, k - 1, worker) + if worker in Picks(AdvancedBy(r, k - 1), payload, hash) then 1 else 0
  }

  lemma {:induction false} CounterAdvances(r: Router, k: nat)
    requires r.next + k < COUNTS
    ensures AdvancedBy(r, k) == r.(next := r.next + k)
  {
    if k > 0 { CounterAdvances(r, k - 1); }
  }

  lemma {:induction false} ServedIsTurns(r: Router, payload: Payload, hash: string -> nat, k: nat, j: nat)
    requires r.strategy.RoundRobin? && j < |r.workers| && NoDup(r.workers) && r.next + k <= COUNTS
    ensures Served(r, payload, hash, k, r.workers[j]) == Turns(r.next, k, |r.workers|, j)
  {
    if k > 0 {
      ServedIsTurns(r, payload, hash, k - 1, j);
      CounterAdvances(r, k - 1);
      var i := (r.next + k - 1) % |r.workers|;
      assert r.workers[i] == r.workers[j] <==> i == j;
    }
  }

  /** While the counter does not wrap, k consecutive messages spread evenly over the pool of a
      round-robin router. */
  lemma PoolIsServedFairly(r: Router, payload: Payload, hash: string -> nat, k: nat, worker: string)
    requires r.strategy.RoundRobin? && worker in r.workers && NoDup(r.workers) && r.next + k <= COUNTS
    ensures k / |r.workers| <= Served(r, payload, hash, k, worker) <= (k + |r.workers| - 1) / |r.workers|
  {
    var j :| 0 <= j < |r.workers| && r.workers[j] == worker;
    ServedIsTurns(r, payload, hash, k, j);
    RoundRobinFair(r.next, k, |r.workers|, j);
  }

  /** Nobody is picked just when there are no workers, the strategy is unknown, or a keyed
      router gets a message without a key. */
  lemma NoPickExactly(r: Router, payload: Payload, hash: string -> nat)
    ensures Picks(r, payload, hash) == {} <==>
            || r.workers == [] || r.strategy == Unknown
            || (r.strategy == ConsistentKey && !(exists key :: key != "" && payload == Keyed(key)))
  {
    EmptyElements(r.workers);
    if payload.Keyed? && payload.key != "" { assert payload == Keyed(payload.key); }
  }

  /** Every worker of a random router can get every message. */
  lemma RandomServesAll(r: Router, payload: Payload, hash: string -> nat, worker: string)
    requires r.strategy == Random
    ensures worker in Picks(r, payload, hash) <==> worker in r.workers
  {}

  /** Messages of a keyed router stay together by key: whatever its counter, two go to the same
      worker just when their hashes agree modulo the size of the pool, so equal keys always do. */
  lemma KeyedPicksAgree(r: Router, c: Counter, d: Counter, a: string, b: string, hash: string -> nat)
    requires r.strategy == ConsistentKey && r.workers != [] && NoDup(r.workers) && a != "" && b != ""
    ensures var n := |r.workers|;
            Picks(r.(next := c), Keyed(a), hash) == Picks(r.(next := d), Keyed(b), hash) <==> hash(a) % n == hash(b) % n
    ensures |Picks(r, Keyed(a), hash)| == 1
  {
    var n := |r.workers|;
    var x, y := r.workers[hash(a) % n], r.workers[hash(b) % n];
    assert {x} == {y} ==> x in {y};
  }

  // --- where a send can go ---

  type Routes = map<string, Router>

  /** What a send meets: the routers, the actors' status, and its own payload. */
  datatype World = World(routers: Routes, status: map<string, Status>, payload: Payload, hash: string -> nat)
  {
    /** a is a registered and running router, and there is something to send. */
    predicate Passing(a: string)
    {
      payload != Nil && a in routers && a in status && status[a] == Running
    }

    function OptionsAt(a: string): set<string>
    {
      if Passing(a) then Options(routers[a], payload, hash) else {}
    }
  }

  /** Counters may differ; pools and strategies do not. */
  ghost predicate SamePools(a: Routes, b: Routes)
  {
    a.Keys == b.Keys && forall id :: id in a ==> a[id].(next := 0) == b[id].(next := 0)
  }

  /** With the counters of t a dispatch at a picks b. */
  ghost predicate Dispatched(w: World, t: Routes, a: string, b: string)
  {
    SamePools(w.routers, t) && w.Passing(a) && b in Picks(t[a], w.payload, w.hash)
  }

  /** A dispatch at a can pick b, as other senders move the counters. */
  ghost predicate Pass(w: World, a: string, b: string) { b in w.OptionsAt(a) }

  lemma SameOptions(w: World, t: Routes, a: string)
    requires SamePools(w.routers, t) && a in t
    ensures Options(t[a], w.payload, w.hash) == Options(w.routers[a], w.payload, w.hash)
    ensures forall c: Counter :: Picks(t[a].(next := c), w.payload, w.hash) == Picks(w.routers[a].(next := c), w.payload, w.hash)
  {
    assert t[a].(next := 0) == w.routers[a].(next := 0);
    forall c: Counter ensures t[a].(next := c) == w.routers[a].(next := c) {}
  }

  lemma DispatchIsPass(w: World, t: Routes, a: string, b: string)
    requires Dispatched(w, t, a, b)
    ensures Pass(w, a, b)
  {
    SameOptions(w, t, a);
    PickIsOption(t[a], w.payload, w.hash, b);
  }

  /** A pass is what some dispatch with some counters does. */
  lemma PassExactly(w: World, a: string, b: string)
    ensures Pass(w, a, b) <==> exists t :: Dispatched(w, t, a, b)
  {
    if Pass(w, a, b) {
      OptionsExactly(w.routers[a], w.payload, w.hash, b);
      var c: Counter :| b in Picks(w.routers[a].(next := c), w.payload, w.hash);
      assert Dispatched(w, w.routers[a := w.routers[a].(next := c)], a, b);
    }
    if t :| Dispatched(w, t, a, b) { DispatchIsPass(w, t, a, b); }
  }

  /** The actors that passes lead through. */
  ghost predicate Chain(w: World, path: seq<string>)
  {
    path != [] && forall i :: 0 <= i < |path| - 1 ==> Pass(w, path[i], path[i + 1])
  }

  ghost predicate ChainFrom(w: World, a: string, path: seq<string>) { Chain(w, path) && path[0] == a }

  /** One send among others: at each dispatch the counters may be anything. */
  ghost predicate SendRun(w: World, a: string, tables: seq<Routes>, path: seq<string>)
  {
    && |path| == |tables| + 1 && path[0] == a
    && forall i :: 0 <= i < |tables| ==> Dispatched(w, tables[i], path[i], path[i + 1])
  }

  lemma RunIsChain(w: World, a: string, tables: seq<Routes>, path: seq<string>)
    requires SendRun(w, a, tables, path)
    ensures ChainFrom(w, a, path)
  {
    forall i | 0 <= i < |path| - 1 ensures Pass(w, path[i], path[i + 1]) { DispatchIsPass(w, tables[i], path[i], path[i + 1]); }
  }

  lemma {:induction false} ChainHasRun(w: World, a: string, path: seq<string>) returns (tables: seq<Routes>)
    requires ChainFrom(w, a, path)
    ensures SendRun(w, a, tables, path)
  {
    if |path| == 1 {
      tables := [];
    } else {
      var n := |path| - 1;
      var before := ChainHasRun(w, a, path[..n]);
      PassExactly(w, path[n - 1], path[n]);
      var t :| Dispatched(w, t, path[n - 1], path[n]);
      tables := before + [t];
    }
  }

  // --- chains ---

  /** A chain that ends where another begins continues it. */
  lemma Joined(w: World, p: seq<string>, q: seq<string>)
    requires Chain(w, p) && Chain(w, q) && p[|p| - 1] == q[0]
    ensures Chain(w, p + q[1..]) && (p + q[1..])[|p + q[1..]| - 1] == q[|q| - 1]
  {
    var r := p + q[1..];
    forall i | 0 <= i < |r| - 1 ensures Pass(w, r[i], r[i + 1]) {
      if i >= |p| - 1 {
        var k := i - (|p| - 1);
        assert r[i] == q[k] && r[i + 1] == q[k + 1];
      }
    }
  }

  /** A chain that comes back to an actor can go round once more, and so on. */
  lemma {:induction false} Pumped(w: World, a: string, path: seq<string>, i: nat, j: nat, n: nat) returns (long: seq<string>)
    requires ChainFrom(w, a, path) && i < j < |path| && path[i] == path[j]
    ensures ChainFrom(w, a, long) && |long| > n && long[|long| - 1] == path[j]
  {
    if n == 0 {
      long := path[..j + 1];
    } else {
      var init := Pumped(w, a, path, i, j, n - 1);
      var loop := path[i..j + 1];
      Joined(w, init, loop);
      long := init + loop[1..];
    }
  }

  /** All but the last actor of a chain are routers. */
  lemma ChainVisitsRouters(w: World, path: seq<string>)
    requires Chain(w, path) && NoDup(path)
    ensures |path| <= |w.routers| + 1
  {
    var init := path[..|path| - 1];
    forall i | 0 <= i < |init| ensures init[i] in w.routers { assert Pass(w, path[i], path[i + 1]); }
    NoDupSize(init);
    assert Elements(init) <= w.routers.Keys;
    SubsetSize(Elements(init), w.routers.Keys);
  }

  // --- exactly when sends among others end ---

  /** No send from a visits more than n actors, whatever other senders do. */
  ghost predicate RunsBounded(w: World, a: string, n: nat)
  {
    forall tables, path :: SendRun(w, a, tables, path) ==> |path| <= n
  }

  ghost predicate NeverReturns(w: World, a: string)
  {
    forall path :: ChainFrom(w, a, path) ==> NoDup(path)
  }

  /** Sends from a end, whatever other senders do to the counters, if and only if no chain of
      passes from a comes back to an actor; they then visit at most one actor more than there
      are routers. */
  lemma SendsEndExactly(w: World, a: string)
    ensures (exists n: nat :: RunsBounded(w, a, n)) <==> NeverReturns(w, a)
    ensures NeverReturns(w, a) ==> RunsBounded(w, a, |w.routers| + 1)
  {
    if NeverReturns(w, a) {
      forall tables, path | SendRun(w, a, tables, path) ensures |path| <= |w.routers| + 1 {
        RunIsChain(w, a, tables, path);
        ChainVisitsRouters(w, path);
      }
      assert RunsBounded(w, a, |w.routers| + 1);
    } else {
      var path :| ChainFrom(w, a, path) && !NoDup(path);
      var i, j :| 0 <= i < j < |path| && path[i] == path[j];
      forall n: nat ensures !RunsBounded(w, a, n) {
        var long := Pumped(w, a, path, i, j, n);
        var tables := ChainHasRun(w, a, long);
      }
    }
  }

  // --- ranks ---

  /** Whatever can be picked ranks below. */
  ghost predicate Ranked(w: World, rank: string -> nat)
  {
    forall a, b :: Pass(w, a, b) ==> rank(b) < rank(a)
  }

  lemma {:induction false} ChainsEnd(w: World, rank: string -> nat, path: seq<string>)
    requires Ranked(w, rank) && Chain(w, path)
    ensures |path| - 1 + rank(path[|path| - 1]) <= rank(path[0])
  {
    if |path| > 1 {
      ChainsEnd(w, rank, path[..|path| - 1]);
      assert Pass(w, path[|path| - 2], path[|path| - 1]);
    }
  }

  ghost predicate Acyclic(w: World)
  {
    forall path :: Chain(w, path) ==> NoDup(path)
  }

  ghost predicate HasChain(w: World, a: string, n: nat)
  {
    exists path :: ChainFrom(w, a, path) && |path| == n + 1
  }

  /** The number of passes of the longest chain from a, up to n. */
  ghost function Longest(w: World, a: string, n: nat): nat
  {
    if n == 0 || HasChain(w, a, n) then n else Longest(w, a, n - 1)
  }

  lemma {:induction false} LongestIsReached(w: World, a: string, n: nat)
    ensures HasChain(w, a, Longest(w, a, n)) && Longest(w, a, n) <= n
    ensures forall m: nat :: m <= n && HasChain(w, a, m) ==> m <= Longest(w, a, n)
  {
    if n == 0 {
      assert ChainFrom(w, a, [a]);
    } else if !HasChain(w, a, n) {
      LongestIsReached(w, a, n - 1);
    }
  }

  /** A rank exists if and only if no chain of passes comes back to an actor. */
  lemma RankedExactly(w: World)
    ensures (exists rank: string -> nat :: Ranked(w, rank)) <==> Acyclic(w)
  {
    if rank: string -> nat :| Ranked(w, rank) {
      forall path | Chain(w, path) ensures NoDup(path) { RankedNoDup(w, rank, path); }
    }
    if Acyclic(w) {
      var rank: string -> nat := (x: string) => Longest(w, x, |w.routers|);
      forall x, y | Pass(w, x, y) ensures rank(y) < rank(x) { LongestDrops(w, x, y); }
      assert Ranked(w, rank);
    }
  }

  lemma RankedNoDup(w: World, rank: string -> nat, path: seq<string>)
    requires Ranked(w, rank) && Chain(w, path)
    ensures NoDup(path)
  {
    forall i, j | 0 <= i < j < |path| ensures path[i] != path[j] {
      ChainsEnd(w, rank, path[i..j + 1]);
    }
  }

  lemma LongestDrops(w: World, x: string, y: string)
    requires Acyclic(w) && Pass(w, x, y)
    ensures Longest(w, y, |w.routers|) < Longest(w, x, |w.routers|)
  {
    LongestIsReached(w, x, |w.routers|);
    LongestIsReached(w, y, |w.routers|);
    var n := Longest(w, y, |w.routers|);
    var path :| ChainFrom(w, y, path) && |path| == n + 1;
    assert Chain(w, [x, y]);
    Joined(w, [x, y], path);
    var longer := [x, y] + path[1..];
    ChainVisitsRouters(w, longer);
    assert ChainFrom(w, x, longer) && |longer| == n + 2;
    assert HasChain(w, x, n + 1);
  }

  // --- a send with no other sender ---

  /** The table after a dispatch at a that picked a worker. */
  function Stepped(t: Routes, a: string): Routes
  {
    if a in t && t[a].strategy.RoundRobin? && t[a].workers != [] then t[a := Advanced(t[a])] else t
  }

  /** A dispatch at a takes the table t to t' and picks b. */
  ghost predicate LoneStep(w: World, t: Routes, a: string, t': Routes, b: string)
  {
    Dispatched(w, t, a, b) && t' == Stepped(t, a)
  }

  /** One send alone, from the counters of tables[0]. */
  ghost predicate LoneRun(w: World, a: string, tables: seq<Routes>, path: seq<string>)
  {
    && |path| == |tables| >= 1 && path[0] == a && SamePools(w.routers, tables[0])
    && forall i :: 0 <= i < |path| - 1 ==> LoneStep(w, tables[i], path[i], tables[i + 1], path[i + 1])
  }

  /** A send from a that starts with these counters visits at most n actors. */
  ghost predicate EndsWithin(w: World, a: string, n: nat)
  {
    forall tables, path :: LoneRun(w, a, tables, path) && tables[0] == w.routers ==> |path| <= n
  }

  lemma SteppedPools(t: Routes, a: string)
    ensures SamePools(t, Stepped(t, a))
  {}

  /** A send alone is a send among others. */
  lemma LoneIsRun(w: World, a: string, tables: seq<Routes>, path: seq<string>)
    requires LoneRun(w, a, tables, path)
    ensures SendRun(w, a, tables[..|tables| - 1], path)
  {
    var ts := tables[..|tables| - 1];
    forall i | 0 <= i < |ts| ensures Dispatched(w, ts[i], path[i], path[i + 1]) {
      assert LoneStep(w, tables[i], path[i], tables[i + 1], path[i + 1]);
    }
  }

  lemma BoundedEndsWithin(w: World, a: string, n: nat)
    requires RunsBounded(w, a, n)
    ensures EndsWithin(w, a, n)
  {
    forall tables, path | LoneRun(w, a, tables, path) && tables[0] == w.routers ensures |path| <= n {
      LoneIsRun(w, a, tables, path);
    }
  }

  /** Under a rank no send, alone or among others, makes more dispatches than the rank of its
      first actor. */
  lemma RankBoundsSends(w: World, rank: string -> nat, a: string)
    requires Ranked(w, rank)
    ensures RunsBounded(w, a, rank(a) + 1) && EndsWithin(w, a, rank(a) + 1)
  {
    forall tables, path | SendRun(w, a, tables, path) ensures |path| <= rank(a) + 1 {
      RunIsChain(w, a, tables, path);
      ChainsEnd(w, rank, path);
    }
    BoundedEndsWithin(w, a, rank(a) + 1);
  }

  /** A run of the world after the first dispatch, seen from before it. */
  lemma LonePrepended(w: World, a: string, b: string, tables: seq<Routes>, path: seq<string>)
    requires Dispatched(w, w.routers, a, b)
    requires LoneRun(w.(routers := Stepped(w.routers, a)), b, tables, path) && tables[0] == Stepped(w.routers, a)
    ensures LoneRun(w, a, [w.routers] + tables, [a] + path)
  {
    var w', ts, p := w.(routers := Stepped(w.routers, a)), [w.routers] + tables, [a] + path;
    SteppedPools(w.routers, a);
    forall i | 0 <= i < |p| - 1 ensures LoneStep(w, ts[i], p[i], ts[i + 1], p[i + 1]) {
      if i > 0 {
        assert LoneStep(w', tables[i - 1], path[i - 1], tables[i], path[i]);
        PoolsCompose(w.routers, w'.routers, ts[i]);
      }
    }
  }

  lemma PoolsCompose(a: Routes, b: Routes, c: Routes)
    requires SamePools(a, b) && SamePools(b, c)
    ensures SamePools(a, c)
  {}

  lemma EndsAfterStep(w: World, a: string, b: string, n: nat)
    requires EndsWithin(w, a, n) && Dispatched(w, w.routers, a, b)
    ensures n >= 1 && EndsWithin(w.(routers := Stepped(w.routers, a)), b, n - 1)
  {
    var w' := w.(routers := Stepped(w.routers, a));
    assert LoneRun(w, a, [w.routers], [a]);
    forall tables, path | LoneRun(w', b, tables, path) && tables[0] == w'.routers ensures |path| <= n - 1 {
      LonePrepended(w, a, b, tables, path);
      assert ([w.routers] + tables)[0] == w.routers;
    }
  }

  lemma SameMembers(ids: seq<string>, w: string)
    ensures w in FirstOccurrences(ids) <==> w in ids
  {
    FirstOccurrencesDistinct(ids);
    assert w in ids <==> w in Elements(ids);
    assert w in FirstOccurrences(ids) <==> w in Elements(FirstOccurrences(ids));
  }

  lemma NormaliseStep(workers: seq<string>, i: nat, f: string -> bool)
    requires i < |workers|
    ensures var pool, w := FirstOccurrences(Filter(f, workers[..i])), workers[i];
            FirstOccurrences(Filter(f, workers[..i + 1])) == if f(w) && w !in pool then pool + [w] else pool
  {
    assert workers[..i + 1] == workers[..i] + [workers[i]];
    FilterSnoc(f, workers[..i], workers[i]);
    FirstOccurrencesSnoc(Filter(f, workers[..i]), workers[i]);
    SameMembers(Filter(f, workers[..i]), workers[i]);
  }

  class RouterRuntime {
    const hash: string -> nat
    var status: map<string, Status>
    var routers: Routes
    ghost var delivered: seq<string>

    constructor (hash: string -> nat)
      ensures this.hash == hash && status == map[] && routers == map[] && delivered == []
    {
      this.hash := hash;
      status, routers, delivered := map[], map[], [];
    }

    /** Drops empty and repeated workers, keeping the first of each. */
    method Normalise(workers: seq<string>) returns (pool: seq<string>)
      ensures pool == FirstOccurrences(Filter((w: string) => w != "", workers))
      ensures NoDup(pool) && forall w :: w in pool <==> w in workers && w != ""
    {
      var f := (w: string) => w != "";
      pool := [];
      for i := 0 to |workers|
        invariant pool == FirstOccurrences(Filter(f, workers[..i]))
      {
        var w := workers[i];
        NormaliseStep(workers, i, f);
        if w == "" || w in pool { continue; }
        pool := pool + [w];
      }
      assert workers[..|workers|] == workers;
      FirstOccurrencesDistinct(Filter(f, workers));
      forall w ensures w in pool <==> w in workers && w != "" {
        SameMembers(Filter(f, workers), w);
        FilterMembers(f, workers);
      }
    }

    method ConfigureRouter(id: string, strategy: Strategy, workers: seq<string>) returns (ok: bool)
      modifies this`routers
      ensures ok <==> id in status && strategy != Unknown
      ensures !ok ==> routers == old(routers)
      ensures ok ==> routers.Keys == old(routers).Keys + {id} && routers == old(routers)[id := routers[id]]
      ensures ok ==> routers[id].strategy == strategy && routers[id].next == 0 && NoDup(routers[id].workers)
      ensures ok ==> forall w :: w in routers[id].workers <==> w in workers && w != ""
    {
      if id !in status || strategy == Unknown { return false; }
      var pool := Normalise(workers);
      routers := routers[id := Router(strategy, pool, 0)];
      ok := true;
    }

    /** A pick advances the counter of a round-robin router and nothing else. */
    method Select(id: string, payload: Payload) returns (worker: Option<string>)
      requires id in routers
      modifies this`routers
      ensures worker.None? <==> Picks(old(routers)[id], payload, hash) == {}
      ensures worker.Some? ==> worker.value in Picks(old(routers)[id], payload, hash)
      ensures var r := old(routers)[id];
              worker.Some? ==>
                && worker.value in r.workers
                && (r.strategy == RoundRobin ==> worker.value == r.workers[r.next % |r.workers|])
                && (r.strategy == ConsistentKey ==> payload.Keyed? && worker.value == r.workers[hash(payload.key) % |r.workers|])
      ensures var r := old(routers)[id];
              routers == if r.strategy.RoundRobin? && r.workers != [] then old(routers)[id := Advanced(r)] else old(routers)
    {
      var r := routers[id];
      if r.workers == [] { return None; }
      match r.strategy
      case RoundRobin =>
        routers := routers[id := r.(next := (r.next + 1) % COUNTS)];
        return Some(r.workers[r.next % |r.workers|]);
      case Random =>
        var i: int :| 0 <= i < |r.workers|;
        assert r.workers[i] in Elements(r.workers);
        return Some(r.workers[i]);
      case ConsistentKey =>
        if payload.Keyed? && payload.key != "" { return Some(r.workers[hash(payload.key) % |r.workers|]); }
        return None;
      case Unknown => return None;
    }

    ghost function WorldFor(payload: Payload): World
      reads this
    {
      World(routers, status, payload, hash)
    }

    /** A send that can end ends: its dispatches form a run of one send alone, it stops where
        no worker is picked, and it hands the message to that actor or to none. */
    method Send(actor: string, payload: Payload, submit: string -> Result, ghost n: nat)
      returns (ack: Result, ghost tables: seq<Routes>, ghost path: seq<string>)
      requires EndsWithin(WorldFor(payload), actor, n)
      modifies this`routers, this`delivered
      decreases n, 1
      ensures LoneRun(old(WorldFor(payload)), actor, tables, path) && |path| <= n
      ensures tables[0] == old(routers) && tables[|tables| - 1] == routers
      ensures Stops(WorldFor(payload), path[|path| - 1])
      ensures ack == if payload == Nil then RejectedNil
                     else if path[|path| - 1] !in status then NotFound
                     else if status[path[|path| - 1]] == Halted then RejectedStop
                     else if path[|path| - 1] in routers then NotFound
                     else submit(path[|path| - 1])
      ensures delivered == old(delivered) + if ack == Accepted then [path[|path| - 1]] else []
    {
      tables, path := [routers], [actor];
      assert LoneRun(WorldFor(payload), actor, tables, path);
      if payload == Nil { return RejectedNil, tables, path; }
      if actor !in status { return NotFound, tables, path; }
      if status[actor] == Halted { return RejectedStop, tables, path; }
      if actor in routers {
        ack, tables, path := Dispatch(actor, payload, submit, n);
        return;
      }
      ack := submit(actor);
      if ack == Accepted { delivered := delivered + [actor]; }
    }

    method Dispatch(id: string, payload: Payload, submit: string -> Result, ghost n: nat)
      returns (ack: Result, ghost tables: seq<Routes>, ghost path: seq<string>)
      requires WorldFor(payload).Passing(id) && EndsWithin(WorldFor(payload), id, n)
      modifies this`routers, this`delivered
      decreases n, 0
      ensures LoneRun(old(WorldFor(payload)), id, tables, path) && |path| <= n
      ensures tables[0] == old(routers) && tables[|tables| - 1] == routers
      ensures Stops(WorldFor(payload), path[|path| - 1])
      ensures ack == if payload == Nil then RejectedNil
                     else if path[|path| - 1] !in status then NotFound
                     else if status[path[|path| - 1]] == Halted then RejectedStop
                     else if path[|path| - 1] in routers then NotFound
                     else submit(path[|path| - 1])
      ensures delivered == old(delivered) + if ack == Accepted then [path[|path| - 1]] else []
    {
      ghost var w := WorldFor(payload);
      var worker := Select(id, payload);
      if worker.None? {
        tables, path := [routers], [id];
        assert LoneRun(w, id, tables, path);
        return NotFound, tables, path;
      }
      assert routers == Stepped(w.routers, id);
      EndsAfterStep(w, id, worker.value, n);
      ack, tables, path := Send(worker.value, payload, submit, n - 1);
      LonePrepended(w, id, worker.value, tables, path);
      tables, path := [w.routers] + tables, [id] + path;
    }
  }

  /** A send that has come to a goes no further. */
  ghost predicate Stops(w: World, a: string)
  {
    w.Passing(a) ==> Picks(w.routers[a], w.payload, w.hash) == {}
  }
}
