/** A send with no other sender: it may come back to a router, whose counter has then moved on.
    Exactly when such sends end. */
module LoneSends {
  import opened Basics
  import opened Routers

  // --- traps ---

  /** From x a send can stay inside s: a round-robin router in its turn picks every worker. */
  ghost predicate Stays(w: World, x: string, s: set<string>)
  {
    && w.Passing(x) && (exists y :: y in s && Pass(w, x, y))
    && (w.routers[x].strategy.RoundRobin? ==> w.OptionsAt(x) <= s)
  }

  /** Routers among which a send can stay. */
  ghost predicate Trap(w: World, s: set<string>)
  {
    s != {} && forall x {:trigger Stays(w, x, s)} :: x in s ==> Stays(w, x, s)
  }

  ghost predicate Reaches(w: World, a: string, x: string)
  {
    exists path :: ChainFrom(w, a, path) && path[|path| - 1] == x
  }

  ghost predicate Trapped(w: World, a: string)
  {
    exists x :: Reaches(w, a, x) && InTrap(w, x)
  }

  ghost predicate InTrap(w: World, x: string)
  {
    exists s :: Trap(w, s) && x in s
  }

  /** No send from a that is alone visits more than n actors, with any counters at its start. */
  ghost predicate LoneBounded(w: World, a: string, n: nat)
  {
    forall tables, path :: LoneRun(w, a, tables, path) ==> |path| <= n
  }

  lemma ReachesSelf(w: World, a: string)
    ensures Reaches(w, a, a)
  {
    assert ChainFrom(w, a, [a]);
  }

  lemma ReachesNext(w: World, a: string, x: string, y: string)
    requires Reaches(w, a, x) && Pass(w, x, y)
    ensures Reaches(w, a, y)
  {
    var path :| ChainFrom(w, a, path) && path[|path| - 1] == x;
    assert Chain(w, [x, y]);
    Joined(w, path, [x, y]);
    assert ChainFrom(w, a, path + [x, y][1..]);
  }

  // --- in a trap a send need not end ---

  lemma {:induction false} LoneExtended(w: World, a: string, tables: seq<Routes>, path: seq<string>, b: string)
    requires LoneRun(w, a, tables, path) && Dispatched(w, tables[|tables| - 1], path[|path| - 1], b)
    ensures LoneRun(w, a, tables + [Stepped(tables[|tables| - 1], path[|path| - 1])], path + [b])
  {
    var ts, p := tables + [Stepped(tables[|tables| - 1], path[|path| - 1])], path + [b];
    forall i | 0 <= i < |p| - 1 ensures LoneStep(w, ts[i], p[i], ts[i + 1], p[i + 1]) {
      if i < |path| - 1 { assert LoneStep(w, tables[i], path[i], tables[i + 1], path[i + 1]); }
    }
  }

  lemma LastPools(w: World, a: string, tables: seq<Routes>, path: seq<string>)
    requires LoneRun(w, a, tables, path)
    ensures SamePools(w.routers, tables[|tables| - 1])
  {
    var n := |path| - 1;
    if n > 0 {
      assert LoneStep(w, tables[n - 1], path[n - 1], tables[n], path[n]);
      SteppedPools(tables[n - 1], path[n - 1]);
      PoolsCompose(w.routers, tables[n - 1], tables[n]);
    }
  }

  /** Whatever the counters, a dispatch in a trap can stay there. */
  lemma StayingPick(w: World, t: Routes, x: string, s: set<string>) returns (y: string)
    requires SamePools(w.routers, t) && Stays(w, x, s)
    ensures y in s && Dispatched(w, t, x, y)
  {
    var z :| z in s && Pass(w, x, z);
    var r := t[x];
    assert r.(next := 0) == w.routers[x].(next := 0);
    if r.strategy.RoundRobin? {
      y := r.workers[r.next % |r.workers|];
      assert Dispatched(w, t, x, y);
      DispatchIsPass(w, t, x, y);
    } else {
      y := z;
    }
  }

  /** A send that has come to a trap can go on for ever, with no other sender. */
  lemma {:induction false} TrapNeverEnds(w: World, a: string, tables: seq<Routes>, path: seq<string>, s: set<string>, n: nat)
    returns (tables': seq<Routes>, path': seq<string>)
    requires LoneRun(w, a, tables, path) && Trap(w, s) && path[|path| - 1] in s
    ensures LoneRun(w, a, tables', path') && tables <= tables' && |path'| == |path| + n && path'[|path'| - 1] in s
  {
    if n == 0 {
      tables', path' := tables, path;
    } else {
      var ts, p := TrapNeverEnds(w, a, tables, path, s, n - 1);
      LastPools(w, a, ts, p);
      assert Stays(w, p[|p| - 1], s);
      var y := StayingPick(w, ts[|ts| - 1], p[|p| - 1], s);
      LoneExtended(w, a, ts, p, y);
      tables', path' := ts + [Stepped(ts[|ts| - 1], p[|p| - 1])], p + [y];
    }
  }

  // --- reaching a trap with the right counters ---

  lemma {:induction false} Shortcut(w: World, a: string, path: seq<string>) returns (short: seq<string>)
    requires ChainFrom(w, a, path)
    ensures ChainFrom(w, a, short) && NoDup(short) && short[|short| - 1] == path[|path| - 1]
    decreases |path|
  {
    if NoDup(path) {
      short := path;
    } else {
      var i, j :| 0 <= i < j < |path| && path[i] == path[j];
      Joined(w, path[..i + 1], path[j..]);
      assert |path[..i + 1] + path[j..][1..]| < |path|;
      short := Shortcut(w, a, path[..i + 1] + path[j..][1..]);
    }
  }

  /** The counters of t at the routers still to be visited lead along the chain. */
  ghost predicate Leading(w: World, path: seq<string>, t: Routes, from: nat)
  {
    forall i :: from <= i < |path| - 1 ==> Dispatched(w, t, path[i], path[i + 1])
  }

  lemma Aim(w: World, path: seq<string>, t: Routes, k: nat) returns (t': Routes)
    requires Chain(w, path) && NoDup(path) && SamePools(w.routers, t) && k < |path| - 1 && Leading(w, path, t, k + 1)
    ensures SamePools(w.routers, t') && Leading(w, path, t', k)
  {
    var a, b := path[k], path[k + 1];
    assert Pass(w, a, b);
    SameOptions(w, t, a);
    OptionsExactly(w.routers[a], w.payload, w.hash, b);
    var c: Counter :| b in Picks(w.routers[a].(next := c), w.payload, w.hash);
    t' := t[a := t[a].(next := c)];
    forall i | k <= i < |path| - 1 ensures Dispatched(w, t', path[i], path[i + 1]) {
      if i > k { assert Dispatched(w, t, path[i], path[i + 1]) && path[i] != a; }
    }
  }

  lemma {:induction false} Aimed(w: World, path: seq<string>, k: nat) returns (t: Routes)
    requires Chain(w, path) && NoDup(path) && k <= |path| - 1
    ensures SamePools(w.routers, t) && Leading(w, path, t, k)
    decreases |path| - k
  {
    if k == |path| - 1 {
      t := w.routers;
    } else {
      var later := Aimed(w, path, k + 1);
      t := Aim(w, path, later, k);
    }
  }

  /** A chain without repetitions is the run of a send alone, from counters that lead along it. */
  lemma {:induction false} Followed(w: World, path: seq<string>, t: Routes, k: nat) returns (tables: seq<Routes>)
    requires Chain(w, path) && NoDup(path) && SamePools(w.routers, t) && Leading(w, path, t, 0) && k < |path|
    ensures LoneRun(w, path[0], tables, path[..k + 1]) && Leading(w, path, tables[k], k)
  {
    if k == 0 {
      tables := [t];
    } else {
      var ts := Followed(w, path, t, k - 1);
      var last, a := ts[k - 1], path[k - 1];
      assert Dispatched(w, last, a, path[k]);
      LoneExtended(w, path[0], ts, path[..k], path[k]);
      assert path[..k] + [path[k]] == path[..k + 1];
      tables := ts + [Stepped(last, a)];
      SteppedPools(last, a);
      PoolsCompose(w.routers, last, Stepped(last, a));
      forall i | k <= i < |path| - 1 ensures Dispatched(w, tables[k], path[i], path[i + 1]) {
        assert Dispatched(w, last, path[i], path[i + 1]) && path[i] != a;
      }
    }
  }

  /** A run depends on the counters of its first table only, not on those of the world. */
  lemma RunElsewhere(w: World, t: Routes, a: string, tables: seq<Routes>, path: seq<string>)
    requires SamePools(w.routers, t) && LoneRun(w, a, tables, path)
    ensures LoneRun(w.(routers := t), a, tables, path)
  {
    var w' := w.(routers := t);
    forall i | 0 <= i < |path| - 1 ensures LoneStep(w', tables[i], path[i], tables[i + 1], path[i + 1]) {
      assert LoneStep(w, tables[i], path[i], tables[i + 1], path[i + 1]);
    }
  }

  /** From an actor that can come to a trap, some counters let a send alone go on for ever. */
  lemma TrappedNeverEnds(w: World, a: string) returns (t: Routes)
    requires Trapped(w, a)
    ensures SamePools(w.routers, t) && forall n: nat :: !EndsWithin(w.(routers := t), a, n) && !LoneBounded(w, a, n)
  {
    var x :| Reaches(w, a, x) && InTrap(w, x);
    var s :| Trap(w, s) && x in s;
    var chain :| ChainFrom(w, a, chain) && chain[|chain| - 1] == x;
    var path := Shortcut(w, a, chain);
    var aim := Aimed(w, path, 0);
    var tables := Followed(w, path, aim, |path| - 1);
    assert path[..|path|] == path;
    t := tables[0];
    forall n: nat ensures !EndsWithin(w.(routers := t), a, n) && !LoneBounded(w, a, n) {
      var ts, p := TrapNeverEnds(w, a, tables, path, s, n);
      assert ts[0] == t;
      RunElsewhere(w, t, a, ts, p);
    }
  }

  // --- layers: how far an actor is from the end of a send ---

  ghost function Staying(w: World, s: set<string>): set<string> { set x | x in s && Stays(w, x, s) }

  /** What is left of p after k rounds of taking out actors from which a send must get out. */
  ghost function Remaining(w: World, p: set<string>, k: nat): set<string>
  {
    if k == 0 then p else Staying(w, Remaining(w, p, k - 1))
  }

  ghost predicate NoTrapIn(w: World, p: set<string>)
  {
    forall s :: s <= p ==> !Trap(w, s)
  }

  lemma StayingShrinks(w: World, s: set<string>)
    requires s != {} && !Trap(w, s)
    ensures |Staying(w, s)| < |s|
  {
    var x :| x in s && !Stays(w, x, s);
    assert x !in Staying(w, s);
    SubsetSmaller(Staying(w, s), s);
  }

  lemma {:induction false} RemainingShrinks(w: World, p: set<string>, k: nat)
    requires NoTrapIn(w, p)
    ensures Remaining(w, p, k) <= p && (Remaining(w, p, k) == {} || |Remaining(w, p, k)| + k <= |p|)
  {
    if k > 0 {
      RemainingShrinks(w, p, k - 1);
      if Remaining(w, p, k - 1) != {} { StayingShrinks(w, Remaining(w, p, k - 1)); }
    }
  }

  lemma SubsetSmaller<T>(a: set<T>, b: set<T>)
    requires a <= b
    ensures a < b ==> |a| < |b|
  {
    if a < b {
      var x :| x in b && x !in a;
      SubsetSize(a, b - {x});
    }
  }

  /** In how many of the first k rounds x is left. */
  ghost function Layer(w: World, p: set<string>, x: string, k: nat): nat
  {
    if k == 0 then 0 else Layer(w, p, x, k - 1) + if x in Remaining(w, p, k - 1) then 1 else 0
  }

  lemma {:induction false} LayerExact(w: World, p: set<string>, x: string, k: nat)
    ensures Layer(w, p, x, k) <= k
    ensures forall i: nat :: i < k ==> (x in Remaining(w, p, i) <==> i < Layer(w, p, x, k))
  {
    if k > 0 {
      LayerExact(w, p, x, k - 1);
      if k > 1 { assert x in Remaining(w, p, k - 1) ==> x in Remaining(w, p, k - 2); }
    }
  }

  /** From x a send gets to a lower layer: sooner or later by round robin, at once otherwise. */
  ghost predicate Descends(w: World, layer: string -> nat, x: string)
  {
    if w.Passing(x) && w.routers[x].strategy.RoundRobin? then exists y :: Pass(w, x, y) && layer(y) < layer(x)
    else forall y :: Pass(w, x, y) ==> layer(y) < layer(x)
  }

  /** x is taken out in the round of its layer. */
  lemma LayerLeaves(w: World, p: set<string>, x: string) returns (rest: set<string>)
    requires NoTrapIn(w, p) && x in p
    ensures !Stays(w, x, rest) && forall y :: y !in rest ==> Layer(w, p, y, |p|) < Layer(w, p, x, |p|)
  {
    var n, k := |p|, Layer(w, p, x, |p|);
    SubsetSize({x}, p);
    LayerExact(w, p, x, n);
    assert x in Remaining(w, p, 0);
    rest := Remaining(w, p, k - 1);
    NotLeft(w, p, x, k);
    forall y | y !in rest ensures Layer(w, p, y, n) < k { LayerExact(w, p, y, n); }
  }

  lemma NotLeft(w: World, p: set<string>, x: string, k: nat)
    requires NoTrapIn(w, p) && k == Layer(w, p, x, |p|) && k >= 1
    ensures x in Remaining(w, p, k - 1) && !Stays(w, x, Remaining(w, p, k - 1))
  {
    LayerExact(w, p, x, |p|);
    RemainingShrinks(w, p, |p|);
    assert x !in Remaining(w, p, k);
  }

  lemma LayersDescend(w: World, p: set<string>, x: string)
    requires NoTrapIn(w, p) && x in p && w.Passing(x) && w.OptionsAt(x) != {}
    ensures Descends(w, (y: string) => Layer(w, p, y, |p|), x)
  {
    var rest := LayerLeaves(w, p, x);
    if w.routers[x].strategy.RoundRobin? {
      var z :| z in w.OptionsAt(x);
      assert z in rest ==> z in rest && Pass(w, x, z);
      var y :| y in w.OptionsAt(x) && y !in rest;
      assert Pass(w, x, y);
    }
  }

  // --- turns until a given worker ---

  lemma ModNext(c: nat, n: nat)
    requires n > 0
    ensures (c + 1) % n == if c % n + 1 == n then 0 else c % n + 1
  {
    var q, r := c / n, c % n;
    if r + 1 == n {
      assert c + 1 == (q + 1) * n + 0;
      DivUnique(c + 1, n, q + 1, 0);
    } else {
      DivUnique(c + 1, n, q, r + 1);
    }
  }

  /** How often a router of n workers picks others before it picks the j-th, where the counter
      may wrap on the way. */
  function Wait(c: Counter, n: nat, j: nat): nat
    requires j < n
  {
    var i := c % n;
    var turns := if i <= j then j - i else j + n - i;
    if turns < COUNTS - c then turns else COUNTS - c + j
  }

  lemma WaitBounded(c: Counter, n: nat, j: nat)
    requires j < n
    ensures Wait(c, n, j) < 2 * n
  {}

  lemma WaitDrops(c: Counter, n: nat, j: nat)
    requires j < n && j < COUNTS && c % n != j
    ensures Wait((c + 1) % COUNTS, n, j) + 1 == Wait(c, n, j)
  {
    ModNext(c, n);
    if c + 1 == COUNTS {
      assert (c + 1) % COUNTS == 0;
      SmallMod(0, n);
    } else {
      SmallMod(c + 1, COUNTS);
    }
  }

  lemma WaitIsOver(c: Counter, n: nat, j: nat)
    requires j < n
    ensures c % n == j <==> Wait(c, n, j) == 0
  {}

  // --- a budget that every dispatch spends from ---

  /** order lists the routers a send can come to; none has more than most workers, twice over. */
  datatype Plan = Plan(order: seq<string>, layer: string -> nat, top: nat, most: nat)

  ghost predicate InPlan(w: World, plan: Plan, x: string)
  {
    && w.Passing(x) && 2 * |w.routers[x].workers| <= plan.most
    && (w.OptionsAt(x) != {} ==> Descends(w, plan.layer, x))
    && forall y :: Pass(w, x, y) && w.Passing(y) ==> y in plan.order
  }

  ghost predicate PlanOk(w: World, plan: Plan)
  {
    && NoDup(plan.order) && plan.most >= 1 && (forall x :: plan.layer(x) <= plan.top)
    && forall x {:trigger InPlan(w, plan, x)} :: x in plan.order ==> InPlan(w, plan, x)
  }

  /** A turn of x that leads to a lower layer. */
  ghost predicate IsExit(w: World, layer: string -> nat, x: string, j: nat)
  {
    x in w.routers && j < |w.routers[x].workers| && j < COUNTS && layer(w.routers[x].workers[j]) < layer(x)
  }

  ghost function Exit(w: World, layer: string -> nat, x: string): nat
  {
    if exists j: nat :: IsExit(w, layer, x, j) then var j: nat :| IsExit(w, layer, x, j); j else 0
  }

  lemma ExitFound(w: World, layer: string -> nat, x: string)
    requires w.Passing(x) && w.routers[x].strategy.RoundRobin? && w.OptionsAt(x) != {} && Descends(w, layer, x)
    ensures IsExit(w, layer, x, Exit(w, layer, x))
  {
    var y :| Pass(w, x, y) && layer(y) < layer(x);
    var ws := w.routers[x].workers;
    var j :| 0 <= j < |ws[..Min(|ws|, COUNTS)]| && ws[..Min(|ws|, COUNTS)][j] == y;
    assert IsExit(w, layer, x, j);
  }

  /** The turns that x still has before its exit. */
  ghost function Left(w: World, plan: Plan, t: Routes, x: string): nat
  {
    if x in t && t[x].strategy.RoundRobin? && Exit(w, plan.layer, x) < |t[x].workers|
    then Wait(t[x].next, |t[x].workers|, Exit(w, plan.layer, x)) else 0
  }

  /** Grows so fast from layer to layer that a full turn of a layer is paid by one step down. */
  function Up(m: nat, d: nat): nat
  {
    if d == 0 then 0 else m * (Up(m, d - 1) + 1)
  }

  function Weight(plan: Plan, k: nat): nat
    requires k <= plan.top
  {
    Up(plan.most, plan.top - k) + 1
  }

  function Level(plan: Plan, k: nat): int
    requires k <= plan.top
  {
    Up(plan.most, plan.top) - Up(plan.most, plan.top - k)
  }

  lemma UpStep(m: nat, d: nat)
    requires m >= 1
    ensures Up(m, d + 1) == m * Up(m, d) + m && Up(m, d) < Up(m, d + 1)
  {
    MulAtLeast(m, Up(m, d));
  }

  lemma MulAtLeast(m: nat, x: nat)
    requires m >= 1
    ensures x <= m * x && m * (x + 1) == m * x + m
  {}

  lemma {:induction false} UpMonotone(m: nat, d: nat, e: nat)
    requires m >= 1 && d <= e
    ensures Up(m, d) <= Up(m, e)
  {
    if d < e {
      UpMonotone(m, d, e - 1);
      UpStep(m, e - 1);
    }
  }

  /** A turn elsewhere costs less than a turn of this layer saves. */
  lemma LevelRise(plan: Plan, k: nat, k': nat)
    requires plan.most >= 1 && k <= plan.top && k' <= plan.top
    ensures Level(plan, k') - Level(plan, k) < Weight(plan, k)
  {}

  /** A step down pays for a full turn of this layer. */
  lemma LevelDrop(plan: Plan, k: nat, k': nat, left: nat)
    requires plan.most >= 1 && k' < k <= plan.top && left < plan.most
    ensures left * Weight(plan, k) < Level(plan, k) - Level(plan, k')
  {
    var d, u := plan.top - k, Up(plan.most, plan.top - k);
    UpMonotone(plan.most, d + 1, plan.top - k');
    UpStep(plan.most, d);
    MulMore(left, plan.most - 1, u + 1);
    OneTimeLess(plan.most, u);
  }

  lemma OneTimeLess(m: nat, u: nat)
    requires m >= 1
    ensures (m - 1) * (u + 1) == m * u + m - u - 1
  {}

  lemma MulMore(a: nat, b: nat, x: nat)
    requires a <= b
    ensures a * x <= b * x
  {}

  ghost function Cost(w: World, plan: Plan, t: Routes, x: string): nat
    requires plan.layer(x) <= plan.top
  {
    Left(w, plan, t, x) * Weight(plan, plan.layer(x))
  }

  ghost function Sum(w: World, plan: Plan, t: Routes, xs: seq<string>): nat
    requires forall x :: plan.layer(x) <= plan.top
  {
    if xs == [] then 0 else Sum(w, plan, t, xs[..|xs| - 1]) + Cost(w, plan, t, xs[|xs| - 1])
  }

  lemma {:induction false} SumSame(w: World, plan: Plan, t: Routes, t': Routes, xs: seq<string>)
    requires forall x :: plan.layer(x) <= plan.top
    requires forall x :: x in xs ==> Cost(w, plan, t, x) == Cost(w, plan, t', x)
    ensures Sum(w, plan, t, xs) == Sum(w, plan, t', xs)
  {
    if xs != [] { SumSame(w, plan, t, t', xs[..|xs| - 1]); }
  }

  lemma {:induction false} SumChange(w: World, plan: Plan, t: Routes, t': Routes, xs: seq<string>, a: string)
    requires (forall x :: plan.layer(x) <= plan.top) && a in xs && NoDup(xs)
    requires forall x :: x in xs && x != a ==> Cost(w, plan, t, x) == Cost(w, plan, t', x)
    ensures Sum(w, plan, t', xs) - Cost(w, plan, t', a) == Sum(w, plan, t, xs) - Cost(w, plan, t, a)
  {
    var init := xs[..|xs| - 1];
    if xs[|xs| - 1] == a {
      SumSame(w, plan, t, t', init);
    } else {
      SumChange(w, plan, t, t', init, a);
    }
  }

  ghost function Budget(w: World, plan: Plan, t: Routes, a: string): int
    requires forall x :: plan.layer(x) <= plan.top
  {
    Sum(w, plan, t, plan.order) + Level(plan, plan.layer(a))
  }

  lemma LevelNat(plan: Plan, k: nat)
    requires plan.most >= 1 && k <= plan.top
    ensures 0 <= Level(plan, k) <= Up(plan.most, plan.top)
  {
    UpMonotone(plan.most, plan.top - k, plan.top);
  }

  /** A dispatch of a round-robin router either uses up one of its turns, or is its exit and
      leads to a lower layer. */
  lemma TurnSpent(w: World, plan: Plan, t: Routes, a: string, b: string)
    requires PlanOk(w, plan) && a in plan.order && Dispatched(w, t, a, b) && t[a].strategy.RoundRobin?
    ensures var left, left' := Left(w, plan, t, a), Left(w, plan, Stepped(t, a), a);
            left' + 1 == left || (left == 0 && left' < plan.most && plan.layer(b) < plan.layer(a))
  {
    assert InPlan(w, plan, a);
    DispatchIsPass(w, t, a, b);
    assert t[a].(next := 0) == w.routers[a].(next := 0);
    ExitFound(w, plan.layer, a);
    var c, n, j := t[a].next, |t[a].workers|, Exit(w, plan.layer, a);
    WaitIsOver(c, n, j);
    WaitBounded((c + 1) % COUNTS, n, j);
    if c % n != j { WaitDrops(c, n, j); }
  }

  lemma CostElsewhere(w: World, plan: Plan, t: Routes, a: string, x: string)
    requires plan.layer(x) <= plan.top && x != a
    ensures Cost(w, plan, t, x) == Cost(w, plan, Stepped(t, a), x)
  {}

  /** What a turn of a adds to its cost is less than what the change of layer pays. */
  lemma TurnPaid(plan: Plan, k: nat, k': nat, left: nat, left': nat)
    requires plan.most >= 1 && k <= plan.top && k' <= plan.top
    requires left' + 1 == left || (left == 0 && left' < plan.most && k' < k)
    ensures left' * Weight(plan, k) - left * Weight(plan, k) < Level(plan, k) - Level(plan, k')
  {
    if left' + 1 == left {
      LevelRise(plan, k, k');
      assert left * Weight(plan, k) == left' * Weight(plan, k) + Weight(plan, k);
    } else {
      LevelDrop(plan, k, k', left');
    }
  }

  lemma RoundRobinSpends(w: World, plan: Plan, t: Routes, a: string, b: string)
    requires PlanOk(w, plan) && a in plan.order && Dispatched(w, t, a, b) && t[a].strategy.RoundRobin?
    ensures Budget(w, plan, Stepped(t, a), b) < Budget(w, plan, t, a)
  {
    var t' := Stepped(t, a);
    TurnSpent(w, plan, t, a, b);
    TurnPaid(plan, plan.layer(a), plan.layer(b), Left(w, plan, t, a), Left(w, plan, t', a));
    forall x | x in plan.order && x != a ensures Cost(w, plan, t, x) == Cost(w, plan, t', x) { CostElsewhere(w, plan, t, a, x); }
    SumChange(w, plan, t, t', plan.order, a);
  }

  /** Every dispatch spends from the budget. */
  lemma BudgetDrops(w: World, plan: Plan, t: Routes, a: string, b: string)
    requires PlanOk(w, plan) && a in plan.order && Dispatched(w, t, a, b)
    ensures Budget(w, plan, Stepped(t, a), b) < Budget(w, plan, t, a)
  {
    if t[a].strategy.RoundRobin? {
      RoundRobinSpends(w, plan, t, a, b);
    } else {
      assert InPlan(w, plan, a);
      DispatchIsPass(w, t, a, b);
      assert t[a].(next := 0) == w.routers[a].(next := 0);
      LevelDrop(plan, plan.layer(a), plan.layer(b), 0);
    }
  }

  lemma {:induction false} LoneRunBound(w: World, plan: Plan, a: string, tables: seq<Routes>, path: seq<string>)
    requires PlanOk(w, plan) && LoneRun(w, a, tables, path) && (w.Passing(a) ==> a in plan.order)
    ensures |path| - 1 <= Budget(w, plan, tables[0], a)
    decreases |path|
  {
    LevelNat(plan, plan.layer(a));
    if |path| > 1 {
      assert LoneStep(w, tables[0], a, tables[1], path[1]);
      assert InPlan(w, plan, a);
      DispatchIsPass(w, tables[0], a, path[1]);
      BudgetDrops(w, plan, tables[0], a, path[1]);
      LoneTail(w, a, tables, path);
      LoneRunBound(w, plan, path[1], tables[1..], path[1..]);
    }
  }

  lemma LoneTail(w: World, a: string, tables: seq<Routes>, path: seq<string>)
    requires LoneRun(w, a, tables, path) && |path| > 1
    ensures LoneRun(w, path[1], tables[1..], path[1..])
  {
    assert LoneStep(w, tables[0], path[0], tables[1], path[1]);
    SteppedPools(tables[0], path[0]);
    PoolsCompose(w.routers, tables[0], tables[1]);
    forall i | 0 <= i < |path[1..]| - 1 ensures LoneStep(w, tables[1..][i], path[1..][i], tables[1..][i + 1], path[1..][i + 1]) {
      assert LoneStep(w, tables[i + 1], path[i + 1], tables[i + 2], path[i + 2]);
    }
  }

  // --- the same bound for all counters ---

  lemma LeftBounded(w: World, plan: Plan, t: Routes, x: string)
    requires PlanOk(w, plan) && x in plan.order && SamePools(w.routers, t)
    ensures Left(w, plan, t, x) <= plan.most
  {
    assert InPlan(w, plan, x);
    assert t[x].(next := 0) == w.routers[x].(next := 0);
    if Exit(w, plan.layer, x) < |t[x].workers| { WaitBounded(t[x].next, |t[x].workers|, Exit(w, plan.layer, x)); }
  }

  lemma CostBounded(w: World, plan: Plan, t: Routes, x: string)
    requires PlanOk(w, plan) && x in plan.order && SamePools(w.routers, t)
    ensures Cost(w, plan, t, x) <= plan.most * (Up(plan.most, plan.top) + 1)
  {
    LeftBounded(w, plan, t, x);
    UpMonotone(plan.most, plan.top - plan.layer(x), plan.top);
    MulBoth(Left(w, plan, t, x), plan.most, Weight(plan, plan.layer(x)), Up(plan.most, plan.top) + 1);
  }

  lemma MulBoth(a: nat, b: nat, x: nat, y: nat)
    requires a <= b && x <= y
    ensures a * x <= b * y
  {
    MulMore(a, b, x);
    MulMore(x, y, b);
  }

  lemma {:induction false} SumBounded(w: World, plan: Plan, t: Routes, xs: seq<string>, c: nat)
    requires (forall x :: plan.layer(x) <= plan.top) && forall x :: x in xs ==> Cost(w, plan, t, x) <= c
    ensures Sum(w, plan, t, xs) <= |xs| * c
  {
    if xs != [] {
      var init, last := xs[..|xs| - 1], xs[|xs| - 1];
      SumBounded(w, plan, t, init, c);
      assert last in xs;
      OneMoreTime(|init|, c);
    }
  }

  lemma OneMoreTime(n: nat, c: nat)
    ensures (n + 1) * c == n * c + c
  {}

  lemma PlanBounds(w: World, plan: Plan, a: string) returns (n: nat)
    requires PlanOk(w, plan) && (w.Passing(a) ==> a in plan.order)
    ensures LoneBounded(w, a, n)
  {
    LevelNat(plan, plan.layer(a));
    var c := plan.most * (Up(plan.most, plan.top) + 1);
    n := |plan.order| * c + Up(plan.most, plan.top) + 1;
    forall tables, path | LoneRun(w, a, tables, path) ensures |path| <= n {
      LoneRunBound(w, plan, a, tables, path);
      forall x | x in plan.order ensures Cost(w, plan, tables[0], x) <= c { CostBounded(w, plan, tables[0], x); }
      SumBounded(w, plan, tables[0], plan.order, c);
    }
  }

  // --- a plan where there is no trap ---

  lemma {:induction false} Listed(p: set<string>) returns (order: seq<string>)
    ensures NoDup(order) && Elements(order) == p
  {
    if p == {} {
      order := [];
    } else {
      var x :| x in p;
      var rest := Listed(p - {x});
      assert x !in Elements(rest);
      order := rest + [x];
      assert Elements(order) == Elements(rest) + {x};
    }
  }

  function Largest(w: World, xs: seq<string>): (n: nat)
    ensures n >= 1
  {
    if xs == [] then 1
    else
      var x := xs[|xs| - 1];
      Largest(w, xs[..|xs| - 1]) + if x in w.routers then 2 * |w.routers[x].workers| else 0
  }

  lemma {:induction false} LargestBounds(w: World, xs: seq<string>, x: string)
    requires x in xs && x in w.routers
    ensures 2 * |w.routers[x].workers| <= Largest(w, xs)
  {
    if xs[|xs| - 1] != x { LargestBounds(w, xs[..|xs| - 1], x); }
  }

  /** The running routers that a send from a can come to. */
  ghost function Visited(w: World, a: string): set<string>
  {
    set x | x in w.routers && w.Passing(x) && Reaches(w, a, x)
  }

  lemma NoTrapVisited(w: World, a: string)
    ensures !Trapped(w, a) ==> NoTrapIn(w, Visited(w, a))
  {
    forall s | s <= Visited(w, a) && Trap(w, s) ensures Trapped(w, a) {
      var x :| x in s;
      assert x in Visited(w, a) && InTrap(w, x);
    }
  }

  lemma LayerTop(w: World, p: set<string>, x: string)
    ensures Layer(w, p, x, |p|) <= |p|
  {
    LayerExact(w, p, x, |p|);
  }

  lemma PlanExists(w: World, a: string) returns (plan: Plan)
    requires !Trapped(w, a)
    ensures PlanOk(w, plan) && (w.Passing(a) ==> a in plan.order)
  {
    var p := Visited(w, a);
    NoTrapVisited(w, a);
    ReachesSelf(w, a);
    var order := Listed(p);
    plan := Plan(order, (x: string) => Layer(w, p, x, |p|), |p|, Largest(w, order));
    forall x ensures plan.layer(x) <= plan.top { LayerTop(w, p, x); }
    assert w.Passing(a) ==> a in Elements(order);
    forall x | x in order ensures InPlan(w, plan, x) { VisitedInPlan(w, a, plan, x); }
  }

  lemma VisitedInPlan(w: World, a: string, plan: Plan, x: string)
    requires NoTrapIn(w, Visited(w, a)) && Elements(plan.order) == Visited(w, a) && x in plan.order
    requires plan.layer == ((y: string) => Layer(w, Visited(w, a), y, |Visited(w, a)|)) && plan.most == Largest(w, plan.order)
    ensures InPlan(w, plan, x)
  {
    assert x in Elements(plan.order);
    LargestBounds(w, plan.order, x);
    if w.OptionsAt(x) != {} { LayersDescend(w, Visited(w, a), x); }
    forall y | Pass(w, x, y) && w.Passing(y) ensures y in plan.order {
      ReachesNext(w, a, x, y);
      assert y in Elements(plan.order);
    }
  }

  lemma BoundedElsewhere(w: World, t: Routes, a: string, n: nat)
    requires SamePools(w.routers, t) && LoneBounded(w, a, n)
    ensures EndsWithin(w.(routers := t), a, n)
  {
    var w' := w.(routers := t);
    forall tables, path | LoneRun(w', a, tables, path) && tables[0] == t ensures |path| <= n {
      RunElsewhere(w', w.routers, a, tables, path);
      assert w'.(routers := w.routers) == w;
    }
  }

  /** A send alone ends, with any counters at its start, if and only if it can come to no trap.
      Its length is then bounded over all counters, and otherwise not even over some one table
      of them. */
  lemma LoneSendsEndExactly(w: World, a: string)
    ensures (exists n: nat :: LoneBounded(w, a, n)) <==> !Trapped(w, a)
    ensures (forall t :: SamePools(w.routers, t) ==> exists n: nat :: EndsWithin(w.(routers := t), a, n)) <==> !Trapped(w, a)
  {
    if Trapped(w, a) {
      var t := TrappedNeverEnds(w, a);
    } else {
      var plan := PlanExists(w, a);
      var n := PlanBounds(w, plan, a);
      forall t | SamePools(w.routers, t) ensures EndsWithin(w.(routers := t), a, n) { BoundedElsewhere(w, t, a, n); }
    }
  }

  // --- round robin only ---

  /** A send that comes to x goes no further: x passes nothing on. */
  ghost predicate End(w: World, x: string) { w.OptionsAt(x) == {} }

  ghost predicate CanEnd(w: World, x: string)
  {
    exists y :: Reaches(w, x, y) && End(w, y)
  }

  lemma NoEndVisited(w: World, x: string, z: string)
    requires !CanEnd(w, x) && Reaches(w, x, z)
    ensures z in Visited(w, x) && w.OptionsAt(z) != {}
  {
    assert !End(w, z);
  }

  lemma NoEndStays(w: World, x: string, z: string)
    requires !CanEnd(w, x) && Reaches(w, x, z)
    ensures Stays(w, z, Visited(w, x))
  {
    NoEndVisited(w, x, z);
    forall y | y in w.OptionsAt(z) ensures y in Visited(w, x) {
      assert Pass(w, z, y);
      ReachesNext(w, x, z, y);
      NoEndVisited(w, x, y);
    }
    var y :| y in w.OptionsAt(z);
    assert Pass(w, z, y);
  }

  /** What x can reach is a trap when none of it can end. */
  lemma NoEndTraps(w: World, x: string)
    requires !CanEnd(w, x)
    ensures InTrap(w, x)
  {
    var s := Visited(w, x);
    ReachesSelf(w, x);
    NoEndVisited(w, x, x);
    forall z | z in s ensures Stays(w, z, s) { NoEndStays(w, x, z); }
    assert Trap(w, s);
  }

  lemma {:induction false} TrapIsClosed(w: World, s: set<string>, path: seq<string>)
    requires (forall r :: r in w.routers ==> w.routers[r].strategy.RoundRobin?) && Trap(w, s) && Chain(w, path) && path[0] in s
    ensures path[|path| - 1] in s
  {
    if |path| > 1 {
      var n := |path| - 1;
      TrapIsClosed(w, s, path[..n]);
      assert Stays(w, path[n - 1], s) && Pass(w, path[n - 1], path[n]);
    }
  }

  lemma TrapHasNoEnd(w: World, x: string)
    requires (forall r :: r in w.routers ==> w.routers[r].strategy.RoundRobin?) && InTrap(w, x)
    ensures !CanEnd(w, x)
  {
    var s :| Trap(w, s) && x in s;
    forall y | Reaches(w, x, y) ensures !End(w, y) {
      var path :| ChainFrom(w, x, path) && path[|path| - 1] == y;
      TrapIsClosed(w, s, path);
      assert Stays(w, y, s);
    }
  }

  /** Where all routers are round robin a send alone ends, with any counters at its start, if
      and only if every actor it can come to can reach one that passes nothing on. */
  lemma RoundRobinEndsExactly(w: World, a: string)
    requires forall r :: r in w.routers ==> w.routers[r].strategy.RoundRobin?
    ensures (exists n: nat :: LoneBounded(w, a, n)) <==> forall x :: Reaches(w, a, x) ==> CanEnd(w, x)
  {
    LoneSendsEndExactly(w, a);
    forall x ensures InTrap(w, x) <==> !CanEnd(w, x) {
      if InTrap(w, x) { TrapHasNoEnd(w, x); } else if !CanEnd(w, x) { NoEndTraps(w, x); }
    }
  }

  /** A router that lists itself and an actor that is no router: among other senders its
      sends need not end, and alone they do. */
  lemma AloneIsDifferent(hash: string -> nat)
    ensures var w := World(map["a" := Router(RoundRobin, ["a", "w"], 0)], map["a" := Running, "w" := Running], Plain, hash);
            && (forall n: nat :: !RunsBounded(w, "a", n)) && (exists n: nat :: LoneBounded(w, "a", n))
  {
    var w := World(map["a" := Router(RoundRobin, ["a", "w"], 0)], map["a" := Running, "w" := Running], Plain, hash);
    var ws := ["a", "w"];
    assert ws[..2] == ws && ws[0] in Elements(ws) && ws[1] in Elements(ws);
    assert Pass(w, "a", "a") && Pass(w, "a", "w");
    var loop := ["a", "a"];
    assert ChainFrom(w, "a", loop) && loop[0] == loop[1];
    SendsEndExactly(w, "a");
    forall x ensures CanEnd(w, x) {
      ReachesSelf(w, x);
      if x == "a" {
        ReachesNext(w, "a", "a", "w");
        assert Reaches(w, x, "w") && End(w, "w");
      } else {
        assert End(w, x);
      }
    }
    RoundRobinEndsExactly(w, "a");
  }
}
