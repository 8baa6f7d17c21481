/** Generations of process identifiers through restarts. */
module Generations {
  import opened Pid

  datatype Route = Reachable | Restarting | Stopped

  datatype Entry = Entry(pid: PID, route: Route, generation: nat)

  type Table = map<string, Entry>

  // --- the resolver ---

  function Registered(t: Table, pid: PID): Table { t[pid.Key() := Entry(pid, Reachable, pid.generation)] }

  function Routed(t: Table, pid: PID, route: Route): Table
  {
    var k := pid.Key();
    t[k := if k in t then t[k].(route := route) else Entry(pid, route, pid.generation)]
  }

  function Bumped(t: Table, pid: PID): Table
  {
    var k := pid.Key();
    if k in t then t[k := Entry(t[k].pid.(generation := t[k].generation + 1), Reachable, t[k].generation + 1)] else t
  }

  class InMemoryPIDResolver {
    var byKey: Table

    constructor ()
      ensures byKey == map[]
    {
      byKey := map[];
    }

    method Register(pid: PID)
      modifies this
      ensures byKey == Registered(old(byKey), pid)
    {
      byKey := byKey[pid.Key() := Entry(pid, Reachable, pid.generation)];
    }

    method Resolve(pid: PID) returns (entry: Entry, ok: bool)
      ensures ok <==> pid.Key() in byKey
      ensures ok ==> entry == byKey[pid.Key()]
    {
      ok := pid.Key() in byKey;
      entry := if ok then byKey[pid.Key()] else Entry(PID("", "", 0), Reachable, 0);
    }

    method Remove(pid: PID)
      modifies this
      ensures byKey == old(byKey) - {pid.Key()}
    {
      byKey := byKey - {pid.Key()};
    }

    method SetState(pid: PID, route: Route)
      modifies this
      ensures byKey == Routed(old(byKey), pid, route)
    {
      var key := pid.Key();
      var entry := Entry(pid, Reachable, pid.generation);
      if key in byKey { entry := byKey[key]; }
      entry := entry.(route := route);
      byKey := byKey[key := entry];
    }

    method BumpGeneration(pid: PID) returns (issued: PID, ok: bool)
      modifies this
      ensures byKey == Bumped(old(byKey), pid) && (ok <==> pid.Key() in old(byKey))
      ensures ok ==> issued == byKey[pid.Key()].pid && issued.generation == old(byKey)[pid.Key()].generation + 1
      ensures ok ==> byKey[pid.Key()].generation == issued.generation && byKey[pid.Key()].route == Reachable
    {
      var key := pid.Key();
      if key !in byKey { return PID("", "", 0), false; }
      var entry := byKey[key];
      entry := entry.(generation := entry.generation + 1);
      entry := entry.(pid := entry.pid.(generation := entry.generation), route := Reachable);
      byKey := byKey[key := entry];
      return entry.pid, true;
    }
  }

  // --- restarts, in the steps other goroutines can come between ---

  /** Where an actor's restart stands: nothing under way, the stored PID loaded, the route
      marked, the generation bumped and the new PID not stored yet. */
  datatype Phase = Idle | Loaded(pid: PID) | Marked(pid: PID) | Raised(pid: PID)

  datatype Sys = Sys(table: Table, stored: map<string, PID>, phase: map<string, Phase>)
  {
    function PhaseOf(actor: string): Phase { if actor in phase then phase[actor] else Idle }
  }

  datatype Step =
    | Register(pid: PID)
    | Store(pid: PID)
    | SetRoute(pid: PID, route: Route)
    | Remove(pid: PID)
    | Forget(actor: string)
    | Load(actor: string)
    | Mark(actor: string)
    | Bump(actor: string)
    | Save(actor: string)

  function Next(s: Sys, step: Step): Sys
  {
    match step
    case Register(pid) => s.(table := Registered(s.table, pid))
    case Store(pid) => s.(stored := s.stored[pid.actorId := pid])
    case SetRoute(pid, route) => s.(table := Routed(s.table, pid, route))
    case Remove(pid) => s.(table := s.table - {pid.Key()})
    case Forget(actor) => s.(stored := s.stored - {actor})
    case Load(b) => if s.PhaseOf(b).Idle? && b in s.stored then s.(phase := s.phase[b := Loaded(s.stored[b])]) else s
    case Mark(b) =>
      if s.PhaseOf(b).Loaded? then
        s.(table := Routed(s.table, s.PhaseOf(b).pid, Restarting), phase := s.phase[b := Marked(s.PhaseOf(b).pid)])
      else s
    case Bump(b) =>
      if !s.PhaseOf(b).Marked? then s
      else
        var pid := s.PhaseOf(b).pid;
        var table := Bumped(s.table, pid);
        s.(table := table, phase := s.phase[b := if pid.Key() in table then Raised(table[pid.Key()].pid) else Idle])
    case Save(b) =>
      if s.PhaseOf(b).Raised? then s.(stored := s.stored[b := s.PhaseOf(b).pid], phase := s.phase[b := Idle]) else s
  }

  predicate Plain(pid: PID) { ':' !in pid.namespace }

  /** The actor a is neither issued a second PID nor removed; nothing is asked of the steps
      about other actors but that namespaces contain no colon. */
  predicate Allowed(a: string, step: Step)
  {
    match step
    case Register(pid) => Plain(pid) && pid.actorId != a
    case Store(pid) => Plain(pid) && pid.actorId != a
    case SetRoute(pid, _) => Plain(pid)
    case Remove(pid) => Plain(pid) && pid.actorId != a
    case Forget(b) => b != a
    case _ => true
  }

  /** The step begins a restart of a. */
  predicate Begins(a: string, s: Sys, step: Step)
  {
    step == Load(a) && s.PhaseOf(a).Idle? && a in s.stored
  }

  lemma SameKey(p: PID, q: PID)
    requires p.namespace == q.namespace && p.actorId == q.actorId
    ensures p.Key() == q.Key()
  {}

  predicate Named(pid: PID, ns: string, a: string) { pid.namespace == ns && pid.actorId == a }

  /** n restarts have begun since the PID of a was issued in namespace ns. */
  ghost predicate Current(s: Sys, ns: string, a: string, key: string, n: nat)
  {
    && key in s.table && a in s.stored && Named(s.stored[a], ns, a) && Named(s.table[key].pid, ns, a)
    && s.table[key].pid.generation == s.table[key].generation
    && match s.PhaseOf(a)
       case Idle => s.table[key].generation == s.stored[a].generation == n + 1
       case Loaded(p) => p == s.stored[a] && s.table[key].generation == p.generation == n
       case Marked(p) => p == s.stored[a] && s.table[key].generation == p.generation == n
       case Raised(p) => p == s.table[key].pid && s.table[key].generation == n + 1 && s.stored[a].generation == n
  }

  /** Every actor's PIDs bear its own name. */
  ghost predicate Owned(s: Sys, a: string)
  {
    && (forall b :: b in s.stored && b != a ==> s.stored[b].actorId == b && Plain(s.stored[b]))
    && (forall b :: b in s.phase && b != a && !s.phase[b].Idle? ==> s.phase[b].pid.actorId == b && Plain(s.phase[b].pid))
    && (forall k :: k in s.table ==> Plain(s.table[k].pid) && s.table[k].pid.Key() == k)
  }

  ghost predicate Inv(s: Sys, ns: string, a: string, n: nat)
  {
    Current(s, ns, a, PID(ns, a, 0).Key(), n) && Owned(s, a)
  }

  /** Another actor's PID has another key; any PID of a in ns has the tracked one. */
  lemma KeysApart(ns: string, a: string, pid: PID)
    requires ':' !in ns && Plain(pid)
    ensures pid.Key() == PID(ns, a, 0).Key() <==> Named(pid, ns, a)
  {
    if pid.Key() == PID(ns, a, 0).Key() { KeyInjective(pid, PID(ns, a, 0)); }
  }

  lemma OwnedKeeps(s: Sys, ns: string, a: string, n: nat, step: Step)
    requires Inv(s, ns, a, n) && Allowed(a, step) && ':' !in ns
    ensures Owned(Next(s, step), a)
  {
    match step
    case Bump(b) =>
      if s.PhaseOf(b).Marked? {
        var pid := s.PhaseOf(b).pid;
        if pid.Key() in s.table { KeyInjective(pid, s.table[pid.Key()].pid); }
      }
    case _ =>
  }

  lemma CurrentKeeps(s: Sys, ns: string, a: string, key: string, n: nat, step: Step)
    requires Inv(s, ns, a, n) && Allowed(a, step) && ':' !in ns && key == PID(ns, a, 0).Key()
    ensures Current(Next(s, step), ns, a, key, if Begins(a, s, step) then n + 1 else n)
    ensures Next(s, step).table[key].generation >= s.table[key].generation
  {
    match step
    case Register(pid) => KeysApart(ns, a, pid);
    case SetRoute(pid, _) => KeysApart(ns, a, pid);
    case Remove(pid) => KeysApart(ns, a, pid);
    case Mark(b) => if s.PhaseOf(b).Loaded? { KeysApart(ns, a, s.PhaseOf(b).pid); }
    case Bump(b) => if s.PhaseOf(b).Marked? { KeysApart(ns, a, s.PhaseOf(b).pid); }
    case _ =>
  }

  // --- runs ---

  function Run(s: Sys, steps: seq<Step>): Sys
    decreases |steps|
  {
    if steps == [] then s else Run(Next(s, steps[0]), steps[1..])
  }

  function Restarts(s: Sys, a: string, steps: seq<Step>): nat
    decreases |steps|
  {
    if steps == [] then 0
    else (if Begins(a, s, steps[0]) then 1 else 0) + Restarts(Next(s, steps[0]), a, steps[1..])
  }

  predicate AllowedRun(a: string, steps: seq<Step>)
  {
    forall i :: 0 <= i < |steps| ==> Allowed(a, steps[i])
  }

  /** Issuing the PID of an actor that had none starts the count. */
  lemma IssueStarts(s: Sys, ns: string, a: string)
    requires Owned(s, a) && s.PhaseOf(a).Idle? && ':' !in ns
    ensures Inv(Next(Next(s, Register(PID(ns, a, 1))), Store(PID(ns, a, 1))), ns, a, 0)
  {
    SameKey(PID(ns, a, 1), PID(ns, a, 0));
  }

  /** In every run the resolver and the stored PID carry 1 plus the restarts begun since the
      PID was issued, whenever no restart is under way. */
  lemma {:induction false} GenerationCounts(s: Sys, ns: string, a: string, n: nat, steps: seq<Step>)
    requires Inv(s, ns, a, n) && AllowedRun(a, steps) && ':' !in ns
    ensures Inv(Run(s, steps), ns, a, n + Restarts(s, a, steps))
    ensures Run(s, steps).table[PID(ns, a, 0).Key()].generation >= s.table[PID(ns, a, 0).Key()].generation
    decreases |steps|
  {
    if steps != [] {
      OwnedKeeps(s, ns, a, n, steps[0]);
      CurrentKeeps(s, ns, a, PID(ns, a, 0).Key(), n, steps[0]);
      GenerationCounts(Next(s, steps[0]), ns, a, if Begins(a, s, steps[0]) then n + 1 else n, steps[1..]);
    }
  }

  // --- routes ---

  /** The route of a says that it restarts just while its restart is marked and not raised. */
  ghost predicate RouteOk(s: Sys, ns: string, a: string)
  {
    var key := PID(ns, a, 0).Key();
    key in s.table && s.table[key].route == if s.PhaseOf(a).Marked? then Restarting else Reachable
  }

  lemma RouteKeeps(s: Sys, ns: string, a: string, n: nat, step: Step)
    requires Inv(s, ns, a, n) && Allowed(a, step) && ':' !in ns && RouteOk(s, ns, a)
    requires step.SetRoute? ==> !Named(step.pid, ns, a)
    ensures RouteOk(Next(s, step), ns, a)
  {
    match step
    case Register(pid) => KeysApart(ns, a, pid);
    case SetRoute(pid, _) => KeysApart(ns, a, pid);
    case Remove(pid) => KeysApart(ns, a, pid);
    case Mark(b) => if s.PhaseOf(b).Loaded? { KeysApart(ns, a, s.PhaseOf(b).pid); }
    case Bump(b) => if s.PhaseOf(b).Marked? { KeysApart(ns, a, s.PhaseOf(b).pid); }
    case _ =>
  }

  /** In every run in which nobody else sets the route of a: it is restarting just between the
      mark and the new generation, and reachable otherwise. */
  lemma {:induction false} RouteFollowsRestarts(s: Sys, ns: string, a: string, n: nat, steps: seq<Step>)
    requires Inv(s, ns, a, n) && AllowedRun(a, steps) && ':' !in ns && RouteOk(s, ns, a)
    requires forall i :: 0 <= i < |steps| && steps[i].SetRoute? ==> !Named(steps[i].pid, ns, a)
    ensures RouteOk(Run(s, steps), ns, a)
    decreases |steps|
  {
    if steps != [] {
      OwnedKeeps(s, ns, a, n, steps[0]);
      CurrentKeeps(s, ns, a, PID(ns, a, 0).Key(), n, steps[0]);
      RouteKeeps(s, ns, a, n, steps[0]);
      RouteFollowsRestarts(Next(s, steps[0]), ns, a, if Begins(a, s, steps[0]) then n + 1 else n, steps[1..]);
    }
  }

  // --- sending ---

  datatype Outcome = Delivered | NotFound | Unresolved | RejectedStopped | StaleGeneration

  /** What a local send does with the entry it resolved. */
  function Admit(t: Table, pid: PID, registered: bool, gatewayDown: bool, accepted: bool): Outcome
  {
    var k := pid.Key();
    if k !in t then if registered then Unresolved else NotFound
    else if t[k].route.Stopped? then RejectedStopped
    else if pid.generation != t[k].generation then StaleGeneration
    else if gatewayDown then Unresolved
    else if accepted then Delivered else RejectedStopped
  }

  /** A send that begins when no restart is under way, with a PID older than the stored one,
      is not delivered however the run goes on before it resolves. */
  lemma StaleNeverDelivered(s: Sys, ns: string, a: string, n: nat, pid: PID, steps: seq<Step>, registered: bool,
                            gatewayDown: bool, accepted: bool)
    requires Inv(s, ns, a, n) && AllowedRun(a, steps) && ':' !in ns
    requires Named(pid, ns, a) && s.PhaseOf(a).Idle? && pid.generation < s.stored[a].generation
    ensures Admit(Run(s, steps).table, pid, registered, gatewayDown, accepted) in {RejectedStopped, StaleGeneration}
  {
    GenerationCounts(s, ns, a, n, steps);
    SameKey(pid, PID(ns, a, 0));
  }

  /** What is delivered carries the generation of the latest completed restart. */
  lemma DeliveredExact(s: Sys, ns: string, a: string, n: nat, pid: PID, registered: bool, gatewayDown: bool, accepted: bool)
    requires Inv(s, ns, a, n) && Named(pid, ns, a)
    ensures var t := s.table;
            Admit(t, pid, registered, gatewayDown, accepted) == Delivered <==>
              && pid.generation == (if s.PhaseOf(a).Idle? || s.PhaseOf(a).Raised? then n + 1 else n)
              && !t[PID(ns, a, 0).Key()].route.Stopped? && !gatewayDown && accepted
  {
    SameKey(pid, PID(ns, a, 0));
  }

  function Issued(s: Sys, pid: PID): Sys { Next(Next(s, Register(pid)), Store(pid)) }

  function Restarted(s: Sys, a: string): Sys { Next(Next(Next(Next(s, Load(a)), Mark(a)), Bump(a)), Save(a)) }

  /** An undisturbed restart raises the entry of the stored PID and stores the result. */
  lemma RestartRaises(s: Sys, a: string)
    requires s.PhaseOf(a).Idle? && a in s.stored && s.stored[a].Key() in s.table
    ensures var k, s' := s.stored[a].Key(), Restarted(s, a);
            && s'.table == s.table[k := Entry(s.table[k].pid.(generation := s.table[k].generation + 1), Reachable,
                                              s.table[k].generation + 1)]
            && s'.stored == s.stored[a := s'.table[k].pid]
  {
    var k, pid := s.stored[a].Key(), s.stored[a];
    var s1 := Next(s, Load(a));
    assert s1.PhaseOf(a) == Loaded(pid);
    var s2 := Next(s1, Mark(a));
    assert s2.PhaseOf(a) == Marked(pid) && s2.table == s.table[k := s.table[k].(route := Restarting)];
    var s3 := Next(s2, Bump(a));
    assert s3.PhaseOf(a) == Raised(s3.table[k].pid);
  }

  /** A PID that is delivered now is delivered after the restart of an actor exactly when it
      has not the key of that actor's stored PID. */
  lemma SurvivesRestartExact(s: Sys, a: string, p: PID)
    requires s.PhaseOf(a).Idle? && a in s.stored && s.stored[a].Key() in s.table
    requires Admit(s.table, p, true, false, true) == Delivered
    ensures Admit(Restarted(s, a).table, p, true, false, true) == Delivered <==> p.Key() != s.stored[a].Key()
  {
    RestartRaises(s, a);
  }

  /** A PID that is stale now is delivered after another registration exactly when that one
      has its key and its generation. */
  lemma RevivedExact(s: Sys, p: PID, q: PID)
    requires Admit(s.table, p, true, false, true) == StaleGeneration
    ensures Admit(Next(s, Register(q)).table, p, true, false, true) == Delivered <==>
            q.Key() == p.Key() && q.generation == p.generation
  {}

  /** A second PID for the same actor leaves the first one valid for ever: restarts raise the
      generation of the stored PID only. */
  lemma SecondIssueKeepsFirst(a: string, m: string, n: string)
    requires m != n && ':' !in m && ':' !in n
    ensures var first, second := PID(m, a, 1), PID(n, a, 1);
            var s := Restarted(Issued(Issued(Sys(map[], map[], map[]), first), second), a);
            s.stored[a] == PID(n, a, 2) && Admit(s.table, first, true, false, true) == Delivered
  {
    var first, second := PID(m, a, 1), PID(n, a, 1);
    if first.Key() == second.Key() { KeyInjective(first, second); }
    var s := Issued(Issued(Sys(map[], map[], map[]), first), second);
    RestartRaises(s, a);
  }

  /** A PID with a colon in its namespace can take over another actor's key and reset its
      generation: the PID from before the restart is delivered again. */
  lemma SharedKeyRevivesStale()
    ensures var p, q := PID("x", "y:z", 1), PID("x:y", "z", 1);
            var s := Restarted(Issued(Sys(map[], map[], map[]), p), "y:z");
            && Admit(s.table, p, true, false, true) == StaleGeneration
            && Admit(Issued(s, q).table, p, true, false, true) == Delivered
  {
    var p, q := PID("x", "y:z", 1), PID("x:y", "z", 1);
    assert p.Key() == q.Key() == "x:y:z";
    RestartRaises(Issued(Sys(map[], map[], map[]), p), "y:z");
  }

  // --- the runtime ---

  /** The runtime's own part: the resolver, the stored PIDs, and for each actor how far its
      restart has got. */
  class LocalRuntime {
    const resolver: InMemoryPIDResolver
    var actorPID: map<string, PID>
    var phase: map<string, Phase>

    ghost function View(): Sys
      reads this, resolver
    {
      Sys(resolver.byKey, actorPID, phase)
    }

    function PhaseOf(actor: string): Phase
      reads this
    {
      if actor in phase then phase[actor] else Idle
    }

    constructor ()
      ensures View() == Sys(map[], map[], map[]) && fresh(resolver)
    {
      resolver := new InMemoryPIDResolver();
      actorPID, phase := map[], map[];
    }

    method MarkRestarting(b: string)
      modifies this, resolver
      ensures View() == Next(old(View()), Mark(b))
    {
      if PhaseOf(b).Loaded? {
        var pid := PhaseOf(b).pid;
        resolver.SetState(pid, Restarting);
        phase := phase[b := Marked(pid)];
      }
    }

    method BumpStored(b: string)
      modifies this, resolver
      ensures View() == Next(old(View()), Bump(b))
    {
      if PhaseOf(b).Marked? {
        var issued, ok := resolver.BumpGeneration(PhaseOf(b).pid);
        phase := phase[b := if ok then Raised(issued) else Idle];
      }
    }

    /** One step of any goroutine. */
    method Perform(step: Step)
      modifies this, resolver
      ensures View() == Next(old(View()), step)
    {
      match step
      case Register(pid) => resolver.Register(pid);
      case Store(pid) => actorPID := actorPID[pid.actorId := pid];
      case SetRoute(pid, route) => resolver.SetState(pid, route);
      case Remove(pid) => resolver.Remove(pid);
      case Forget(actor) => actorPID := actorPID - {actor};
      case Load(b) => if PhaseOf(b).Idle? && b in actorPID { phase := phase[b := Loaded(actorPID[b])]; }
      case Mark(b) => MarkRestarting(b);
      case Bump(b) => BumpStored(b);
      case Save(b) => if PhaseOf(b).Raised? { actorPID, phase := actorPID[b := PhaseOf(b).pid], phase[b := Idle]; }
    }

    /** A run of any goroutines keeps the generations of the tracked actor exact. */
    method PerformAll(steps: seq<Step>, ghost ns: string, ghost a: string, ghost n: nat)
      requires Inv(View(), ns, a, n) && AllowedRun(a, steps) && ':' !in ns
      modifies this, resolver
      ensures View() == Run(old(View()), steps) && Inv(View(), ns, a, n + Restarts(old(View()), a, steps))
    {
      GenerationCounts(View(), ns, a, n, steps);
      var i := 0;
      while i < |steps|
        invariant 0 <= i <= |steps| && Run(View(), steps[i..]) == Run(old(View()), steps)
      {
        assert steps[i..][0] == steps[i] && steps[i..][1..] == steps[i + 1..];
        Perform(steps[i]);
        i := i + 1;
      }
    }

    /** A local send: accepted is what the actor's own submission answers. */
    method SendPID(pid: PID, registered: bool, gatewayDown: bool, accepted: bool) returns (outcome: Outcome)
      ensures outcome == Admit(resolver.byKey, pid, registered, gatewayDown, accepted)
      ensures outcome == NotFound <==> pid.Key() !in resolver.byKey && !registered
      ensures pid.Key() !in resolver.byKey && registered ==> outcome == Unresolved
      ensures pid.Key() in resolver.byKey ==>
                var e := resolver.byKey[pid.Key()];
                && (outcome == Unresolved <==> e.route != Stopped && pid.generation == e.generation && gatewayDown)
                && (outcome == StaleGeneration <==> e.route != Stopped && pid.generation != e.generation)
                && (outcome == Delivered <==> e.route != Stopped && pid.generation == e.generation && !gatewayDown && accepted)
      ensures forall ns, a, n: nat :: Inv(View(), ns, a, n) && Named(pid, ns, a) && pid.generation < n ==> outcome != Delivered
    {
      var entry, ok := resolver.Resolve(pid);
      outcome := Delivered;
      if !ok {
        outcome := if registered then Unresolved else NotFound;
      } else if entry.route.Stopped? {
        outcome := RejectedStopped;
      } else if pid.generation != entry.generation {
        outcome := StaleGeneration;
      } else if gatewayDown {
        outcome := Unresolved;
      } else if !accepted {
        outcome := RejectedStopped;
      }
      forall ns, a, n: nat | Inv(View(), ns, a, n) && Named(pid, ns, a) && pid.generation < n ensures outcome != Delivered {
        DeliveredExact(View(), ns, a, n, pid, registered, gatewayDown, accepted);
      }
    }
  }
}
