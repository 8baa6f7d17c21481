/** Runs in which the singleton is duplicated: for each assumption of the at-most-one theorem
    one that breaks it alone, from a cluster in which no handoff has begun. */
module SingletonRuns {
  import opened Basics
  import opened ClusterTypes
  import opened SingletonManager
  import opened SingletonProtocol

  // --- runs that keep all assumptions but one ---

  datatype Assumption = ExclusiveLeader | LookupNamesRunner | PatientHandoff | StableReads | AnswerToAsker

  ghost predicate Holds(s: Sys, step: Step, x: Assumption)
    requires WellTyped(s)
  {
    match x
    case ExclusiveLeader => step.LeaderChange? ==> Exclusive(Next(s, step))
    case LookupNamesRunner => step.Act? && s.Ready(step.node) && s.locks[step.node].isLeader ==> NamesRunner(s, step.node, step.p)
    case PatientHandoff => step.ContextEnds? || (step.SendRequest? && !step.ok) ==> PeerStopped(s, step.g)
    case StableReads => step.LeaderChange? ==> !Pledged(s, step.node)
    case AnswerToAsker => step.DeliverResponse? ==> step.resp.to == step.resp.asker || !s.Meets(step.resp)
  }

  /** The five assumptions are those of the theorem. */
  lemma AssumptionsAreAllowed(s: Sys, step: Step)
    requires WellTyped(s)
    ensures Allowed(s, step) <==> forall x :: Holds(s, step, x)
  {
    if forall x :: Holds(s, step, x) {
      assert Holds(s, step, ExclusiveLeader) && Holds(s, step, LookupNamesRunner) && Holds(s, step, PatientHandoff);
      assert Holds(s, step, StableReads) && Holds(s, step, AnswerToAsker);
    }
  }

  /** The assumption that a run may break, if any. */
  type Broken = Option<Assumption>

  ghost predicate AllBut(s: Sys, step: Step, x: Broken)
    requires WellTyped(s)
  {
    && (x == Some(ExclusiveLeader) || Holds(s, step, ExclusiveLeader))
    && (x == Some(LookupNamesRunner) || Holds(s, step, LookupNamesRunner))
    && (x == Some(PatientHandoff) || Holds(s, step, PatientHandoff))
    && (x == Some(StableReads) || Holds(s, step, StableReads))
    && (x == Some(AnswerToAsker) || Holds(s, step, AnswerToAsker))
  }

  ghost predicate KeepsAllBut(s: Sys, steps: seq<Step>, x: Broken)
    requires WellTyped(s)
    decreases |steps|
  {
    steps == [] || (StepTyped(s, steps[0]); AllBut(s, steps[0], x) && KeepsAllBut(Next(s, steps[0]), steps[1..], x))
  }

  /** steps lead from s0 to s, keeping all assumptions but x. */
  ghost predicate Leads(s0: Sys, steps: seq<Step>, x: Broken, s: Sys)
  {
    WellTyped(s0) && WellTyped(s) && KeepsAllBut(s0, steps, x) && Run(s0, steps) == s
  }

  lemma {:induction false} OneMore(s0: Sys, steps: seq<Step>, x: Broken, s: Sys, step: Step)
    requires Leads(s0, steps, x, s) && AllBut(s, step, x)
    ensures Leads(s0, steps + [step], x, Next(s, step))
    decreases |steps|
  {
    StepTyped(s, step);
    if steps == [] {
      assert [step][1..] == [] && steps + [step] == [step];
      assert Run(s0, [step]) == Run(Next(s0, step), []);
    } else {
      StepTyped(s0, steps[0]);
      OneMore(Next(s0, steps[0]), steps[1..], x, s, step);
      assert (steps + [step])[0] == steps[0] && (steps + [step])[1..] == steps[1..] + [step];
    }
  }

  /** A step that no assumption is about. */
  predicate Plain(step: Step)
  {
    !step.LeaderChange? && !step.Act? && !step.ContextEnds? && !step.DeliverResponse? && (step.SendRequest? ==> step.ok)
  }

  lemma PlainMore(s0: Sys, steps: seq<Step>, x: Broken, s: Sys, step: Step)
    requires Leads(s0, steps, x, s) && Plain(step)
    ensures Leads(s0, steps + [step], x, Next(s, step))
  {
    OneMore(s0, steps, x, s, step);
  }

  // --- stretches of runs ---

  /** An idle node that has read that it leads, and the term t, launches a handoff. */
  lemma Launches(s0: Sys, steps: seq<Step>, x: Broken, s: Sys, n: NodeId, t: nat, prev: NodeId) returns (steps': seq<Step>, s': Sys)
    requires Leads(s0, steps, x, s) && n in s.locks && s.locks[n] == Managing(true, true, Some(t))
    requires s.entries[n].phase == Idle && prev != "" && prev != n && NamesRunner(s, n, Prev(prev, false))
    ensures Leads(s0, steps', x, s')
    ensures s' == s.(entries := s.entries[n := Entry(Activating, t, false)], locks := s.locks - {n},
                     handoffs := s.handoffs[s.next := Handoff(n, t, prev, Starting, false)], next := s.next + 1)
  {
    var act := Act(n, Prev(prev, false));
    OneMore(s0, steps, x, s, act);
    steps', s' := steps + [act], Next(s, act);
  }

  /** A node takes its lock and reads its leadership. */
  lemma Opens(s0: Sys, steps: seq<Step>, x: Broken, s: Sys, n: NodeId, rebalance: bool) returns (steps': seq<Step>, s': Sys)
    requires Leads(s0, steps, x, s) && s.Free(n)
    ensures Leads(s0, steps', x, s') && s' == s.(locks := s.locks[n := Managing(rebalance, s.IsLeader(n), None)])
    ensures s'.Runners() == s.Runners() && s'.Leading() == s.Leading()
  {
    PlainMore(s0, steps, x, s, Open(n, rebalance));
    steps', s' := steps + [Open(n, rebalance)], Next(s, Open(n, rebalance));
    SameViews(s, s');
  }

  /** It reads its term. */
  lemma ReadsTerm(s0: Sys, steps: seq<Step>, x: Broken, s: Sys, n: NodeId) returns (steps': seq<Step>, s': Sys)
    requires Leads(s0, steps, x, s) && n in s.locks && s.locks[n].Managing? && s.locks[n].term.None?
    ensures Leads(s0, steps', x, s') && s' == s.(locks := s.locks[n := s.locks[n].(term := Some(s.terms[n]))])
    ensures s'.Runners() == s.Runners() && s'.Leading() == s.Leading()
  {
    PlainMore(s0, steps, x, s, ReadTerm(n));
    steps', s' := steps + [ReadTerm(n)], Next(s, ReadTerm(n));
    SameViews(s, s');
  }

  /** Both reads undisturbed. */
  lemma Reads(s0: Sys, steps: seq<Step>, x: Broken, s: Sys, n: NodeId, rebalance: bool) returns (steps': seq<Step>, s': Sys)
    requires Leads(s0, steps, x, s) && s.Free(n)
    ensures Leads(s0, steps', x, s') && s'.Runners() == s.Runners()
    ensures s' == s.(locks := s.locks[n := Managing(rebalance, s.IsLeader(n), Some(s.terms[n]))]) && s'.locks - {n} == s.locks
  {
    var steps1, s1 := Opens(s0, steps, x, s, n, rebalance);
    steps', s' := ReadsTerm(s0, steps1, x, s1, n);
    PutTwice(s.locks, n, s1.locks[n], s'.locks[n]);
    PutAndDrop(s.locks, n, s'.locks[n]);
  }

  /** A leader rebalances without being disturbed. */
  lemma Rebalances(s0: Sys, steps: seq<Step>, x: Broken, s: Sys, n: NodeId, prev: NodeId) returns (steps': seq<Step>, s': Sys)
    requires Leads(s0, steps, x, s) && s.Free(n) && s.IsLeader(n)
    requires s.entries[n].phase == Idle && prev != "" && prev != n && NamesRunner(s, n, Prev(prev, false))
    ensures Leads(s0, steps', x, s')
    ensures s' == s.(entries := s.entries[n := Entry(Activating, s.terms[n], false)],
                     handoffs := s.handoffs[s.next := Handoff(n, s.terms[n], prev, Starting, false)], next := s.next + 1)
  {
    var steps1, s1 := Reads(s0, steps, x, s, n, true);
    steps', s' := Launches(s0, steps1, x, s1, n, s.terms[n], prev);
  }

  /** A new handoff registers its wait and sends its request. */
  lemma Asks(s0: Sys, steps: seq<Step>, x: Broken, s: Sys, g: nat) returns (steps': seq<Step>, s': Sys)
    requires Leads(s0, steps, x, s) && g in s.handoffs && s.handoffs[g].pc == Starting
    ensures Leads(s0, steps', x, s')
    ensures var h := s.handoffs[g];
            s' == s.(handoffs := s.handoffs[g := h.(pc := Waiting)], waits := s.waits[(h.node, h.term) := g],
                     requests := s.requests + {Request(h.node, h.term, h.prev)})
  {
    PlainMore(s0, steps, x, s, RegisterWait(g));
    var s1 := Next(s, RegisterWait(g));
    PlainMore(s0, steps + [RegisterWait(g)], x, s1, SendRequest(g, true));
    steps', s' := steps + [RegisterWait(g)] + [SendRequest(g, true)], Next(s1, SendRequest(g, true));
  }

  /** A request comes in from via and is answered, and the answer finds the wait of g. */
  lemma Answered(s0: Sys, steps: seq<Step>, x: Broken, s: Sys, q: Request, via: NodeId, g: nat) returns (steps': seq<Step>, s': Sys)
    requires Leads(s0, steps, x, s) && q in s.requests && s.Free(q.to) && via in s.entries && (via == q.from || x == Some(AnswerToAsker))
    requires (via, q.term) in s.waits && s.waits[(via, q.term)] == g && g in s.handoffs
    requires s.handoffs[g].node == via && s.handoffs[g].term == q.term
    ensures Leads(s0, steps', x, s')
    ensures s' == s.(entries := s.entries[q.to := OnHandoffRequest(s.entries[q.to])],
                     responses := s.responses + {Response(via, q.term, q.from)},
                     handoffs := s.handoffs[g := s.handoffs[g].(got := true)])
  {
    PlainMore(s0, steps, x, s, DeliverRequest(q, via));
    var s1, p := Next(s, DeliverRequest(q, via)), Response(via, q.term, q.from);
    OneMore(s0, steps + [DeliverRequest(q, via)], x, s1, DeliverResponse(p));
    steps', s' := steps + [DeliverRequest(q, via)] + [DeliverResponse(p)], Next(s1, DeliverResponse(p));
  }

  /** A current handoff that has an answer, or has given up waiting, reaches its completion. */
  lemma Begins(s0: Sys, steps: seq<Step>, x: Broken, s: Sys, g: nat) returns (steps': seq<Step>, s': Sys)
    requires Leads(s0, steps, x, s) && g in s.handoffs
    requires s.handoffs[g].pc == Completing || (s.handoffs[g].pc == Waiting && s.handoffs[g].got)
    requires var h := s.handoffs[g]; s.Free(h.node) && s.entries[h.node].phase == Activating && s.entries[h.node].term == h.term
    ensures Leads(s0, steps', x, s') && steps <= steps'
    ensures var h := s.handoffs[g];
            s' == s.(handoffs := s.handoffs[g := h.(pc := Completing)], locks := s.locks[h.node := Finishing(g, s.terms[h.node])])
  {
    PlainMore(s0, steps, x, s, TakeResponse(g));
    var s1 := Next(s, TakeResponse(g));
    assert s1.handoffs == s.handoffs[g := s.handoffs[g].(pc := Completing)];
    PlainMore(s0, steps + [TakeResponse(g)], x, s1, OpenComplete(g));
    steps', s' := steps + [TakeResponse(g)] + [OpenComplete(g)], Next(s1, OpenComplete(g));
  }

  /** A completion that has read the term of its handoff starts the singleton. */
  lemma Finishes(s0: Sys, steps: seq<Step>, x: Broken, s: Sys, n: NodeId, g: nat) returns (steps': seq<Step>, s': Sys)
    requires Leads(s0, steps, x, s) && n in s.locks && g in s.handoffs && s.locks[n] == Finishing(g, s.handoffs[g].term)
    requires s.entries[n].phase == Activating && s.entries[n].term == s.handoffs[g].term
    ensures Leads(s0, steps', x, s') && steps <= steps'
    ensures s'.entries == s.entries[n := s.entries[n].(phase := Active)] && s'.locks == s.locks - {n}
    ensures s'.handoffs == s.handoffs - {g} && s'.terms == s.terms && s'.leaders == s.leaders
    ensures s'.requests == s.requests && s'.next == s.next && s'.waits == s.waits - {(s.handoffs[g].node, s.handoffs[g].term)}
  {
    PlainMore(s0, steps, x, s, FinishComplete(n));
    steps', s' := steps + [FinishComplete(n)], Next(s, FinishComplete(n));
  }

  /** n takes l for the leader. */
  lemma Changes(s0: Sys, steps: seq<Step>, x: Broken, s: Sys, n: NodeId, l: NodeId) returns (steps': seq<Step>, s': Sys)
    requires Leads(s0, steps, x, s) && n in s.entries && s.leaders[n] != l
    requires x == Some(ExclusiveLeader) || s.Leading() - {n} == {} || l != n
    requires x == Some(StableReads) || !Pledged(s, n)
    requires Exclusive(s) || x == Some(ExclusiveLeader)
    ensures Leads(s0, steps', x, s')
    ensures s' == s.(leaders := s.leaders[n := l], terms := s.terms[n := s.terms[n] + 1])
    ensures s'.Leading() == if l == n then s.Leading() + {n} else s.Leading() - {n}
  {
    var s1 := Next(s, LeaderChange(n, l));
    assert s1.Leading() == if l == n then s.Leading() + {n} else s.Leading() - {n};
    OneMore(s0, steps, x, s, LeaderChange(n, l));
    steps', s' := steps + [LeaderChange(n, l)], s1;
  }

  // --- two handoffs from one runner ---

  /** g is a handoff of n in its current term, for which n is activating. */
  ghost predicate Underway(s: Sys, g: nat, n: NodeId, pc: Pc, got: bool)
  {
    && s.Free(n) && n in s.terms && g in s.handoffs
    && s.handoffs[g].node == n && s.handoffs[g].term == s.terms[n] && s.handoffs[g].pc == pc && s.handoffs[g].got == got
    && s.entries[n].phase == Activating && s.entries[n].term == s.terms[n]
  }

  /** A handoff asks its peer and gets the answer. */
  lemma AsksAndHears(s0: Sys, steps: seq<Step>, x: Broken, s: Sys, g: nat, n: NodeId) returns (steps': seq<Step>, s': Sys)
    requires Leads(s0, steps, x, s) && Underway(s, g, n, Starting, false) && s.Free(s.handoffs[g].prev) && s.handoffs[g].prev != n
    ensures Leads(s0, steps', x, s')
    ensures var h := s.handoffs[g];
            && s'.entries == s.entries[h.prev := OnHandoffRequest(s.entries[h.prev])]
            && s'.handoffs == s.handoffs[g := h.(pc := Waiting, got := true)]
            && s'.leaders == s.leaders && s'.terms == s.terms && s'.locks == s.locks && s'.next == s.next
  {
    var h := s.handoffs[g];
    var steps1, s1 := Asks(s0, steps, x, s, g);
    steps', s' := Answered(s0, steps1, x, s1, Request(n, h.term, h.prev), n, g);
  }

  /** An answered handoff starts the singleton. */
  lemma Completes(s0: Sys, steps: seq<Step>, x: Broken, s: Sys, g: nat, n: NodeId) returns (steps': seq<Step>, s': Sys)
    requires Leads(s0, steps, x, s) && (Underway(s, g, n, Waiting, true) || Underway(s, g, n, Completing, false))
    ensures Leads(s0, steps', x, s') && steps <= steps'
    ensures s'.entries == s.entries[n := s.entries[n].(phase := Active)]
    ensures s'.handoffs == s.handoffs - {g} && s'.terms == s.terms && s'.locks == s.locks && s'.leaders == s.leaders
    ensures s'.requests == s.requests && s'.next == s.next
  {
    var steps1, s1 := Begins(s0, steps, x, s, g);
    steps', s' := Finishes(s0, steps1, x, s1, n, g);
    assert s1.locks - {n} == s.locks && s1.handoffs - {g} == s.handoffs - {g};
  }

  /** One runner answers two nodes, and both start. */
  lemma BothStart(s0: Sys, steps: seq<Step>, x: Broken, s: Sys, g: nat, b: NodeId, g': nat, c: NodeId)
    returns (steps': seq<Step>, s': Sys)
    requires Leads(s0, steps, x, s) && Underway(s, g, b, Starting, false) && Underway(s, g', c, Starting, false) && b != c
    requires s.handoffs[g].prev == s.handoffs[g'].prev && s.handoffs[g].prev !in {b, c} && s.Free(s.handoffs[g].prev)
    ensures Leads(s0, steps', x, s') && !AtMostOne(s')
  {
    var steps1, s1 := AsksAndHears(s0, steps, x, s, g, b);
    var steps2, s2 := AsksAndHears(s0, steps1, x, s1, g', c);
    var steps3, s3 := Completes(s0, steps2, x, s2, g, b);
    steps', s' := Completes(s0, steps3, x, s3, g', c);
    assert b in s'.Runners() && c in s'.Runners();
  }

  // --- one run for each assumption ---

  const IDLE: Entry := Entry(Idle, 1, false)
  const RUNNING: Entry := Entry(Active, 1, false)

  predicate Distinct(a: NodeId, b: NodeId, c: NodeId) { a != b && a != c && b != c && "" !in {a, b, c} }

  /** a runs the singleton, all take b for the leader. */
  function Trio(a: NodeId, b: NodeId, c: NodeId): (s: Sys)
    requires Distinct(a, b, c)
    ensures Init(s) && s.Runners() == {a} && s.Leading() == {b}
  {
    var s := Sys(map[a := RUNNING, b := IDLE, c := IDLE], map[a := b, b := b, c := b], map[a := 1, b := 1, c := 1],
                 map[], map[], map[], {}, {}, 0);
    assert s.Runners() == {a} && s.Leading() == {b};
    s
  }

  lemma AtTrio(a: NodeId, b: NodeId, c: NodeId, x: Broken)
    requires Distinct(a, b, c)
    ensures Leads(Trio(a, b, c), [], x, Trio(a, b, c))
  {}

  /** A lookup that misses the runner: b starts beside a. */
  lemma WrongLookupDuplicates(a: NodeId, b: NodeId, c: NodeId, p: Prev) returns (steps: seq<Step>)
    requires Distinct(a, b, c) && NoPriorInstance(b, p)
    ensures KeepsAllBut(Trio(a, b, c), steps, Some(LookupNamesRunner)) && !AtMostOne(Run(Trio(a, b, c), steps))
  {
    var s, x := Trio(a, b, c), Some(LookupNamesRunner);
    AtTrio(a, b, c, x);
    var steps1, s1 := Reads(s, [], x, s, b, false);
    OneMore(s, steps1, x, s1, Act(b, p));
    steps := steps1 + [Act(b, p)];
    assert a in Next(s1, Act(b, p)).Runners() && b in Next(s1, Act(b, p)).Runners();
  }

  /** A waiting handoff gives up, whether or not its peer has stopped. */
  lemma TimesOut(s0: Sys, steps: seq<Step>, s: Sys, g: nat) returns (steps': seq<Step>, s': Sys)
    requires Leads(s0, steps, Some(PatientHandoff), s) && g in s.handoffs && s.handoffs[g].pc == Waiting
    ensures Leads(s0, steps', Some(PatientHandoff), s') && s' == s.(handoffs := s.handoffs[g := s.handoffs[g].(pc := Completing)])
  {
    OneMore(s0, steps, Some(PatientHandoff), s, ContextEnds(g));
    steps', s' := steps + [ContextEnds(g)], Next(s, ContextEnds(g));
  }

  /** A handoff that gives up while its peer runs: b starts beside a. */
  lemma EarlyTimeoutDuplicates(a: NodeId, b: NodeId, c: NodeId) returns (steps: seq<Step>)
    requires Distinct(a, b, c)
    ensures KeepsAllBut(Trio(a, b, c), steps, Some(PatientHandoff)) && !AtMostOne(Run(Trio(a, b, c), steps))
  {
    var s, x := Trio(a, b, c), Some(PatientHandoff);
    AtTrio(a, b, c, x);
    var steps1, s1 := Rebalances(s, [], x, s, b, a);
    var steps2, s2 := Asks(s, steps1, x, s1, 0);
    var steps3, s3 := TimesOut(s, steps2, s2, 0);
    var steps4, s4 := Completes(s, steps3, x, s3, 0, b);
    steps := steps4;
    assert a in s4.Runners() && b in s4.Runners();
  }

  /** Two nodes that take themselves for the leader at once: a answers both. */
  lemma SplitLeadershipDuplicates(a: NodeId, b: NodeId, c: NodeId) returns (steps: seq<Step>)
    requires Distinct(a, b, c)
    ensures KeepsAllBut(Trio(a, b, c), steps, Some(ExclusiveLeader)) && !AtMostOne(Run(Trio(a, b, c), steps))
  {
    var s, x := Trio(a, b, c), Some(ExclusiveLeader);
    AtTrio(a, b, c, x);
    var steps1, s1 := Changes(s, [], x, s, c, c);
    SameRunners(s, s1);
    var steps2, s2 := Rebalances(s, steps1, x, s1, b, a);
    EntryUpdate(s1, s2, b, s2.entries[b]);
    var steps3, s3 := LaunchesAgain(s, steps2, x, s2, a, b, c);
    var steps4, s4 := BothStart(s, steps3, x, s3, 0, b, 1, c);
    steps := steps4;
  }

  lemma SameRunners(s: Sys, s': Sys)
    requires s'.entries == s.entries
    ensures s'.Runners() == s.Runners()
  {}

  /** b reads that it leads, leadership moves to c, and b reads the new term and launches. */
  lemma LaunchesLate(a: NodeId, b: NodeId, c: NodeId) returns (steps: seq<Step>, s: Sys)
    requires Distinct(a, b, c)
    ensures Leads(Trio(a, b, c), steps, Some(StableReads), s) && Underway(s, 0, b, Starting, false)
    ensures s.handoffs[0].prev == a && s.next == 1
    ensures s.Free(a) && s.Free(c) && s.IsLeader(c) && s.entries[c].phase == Idle && s.Runners() == {a}
  {
    var s0, x := Trio(a, b, c), Some(StableReads);
    AtTrio(a, b, c, x);
    var steps1, s1 := ReadsAcross(s0, [], s0, b, c);
    SameRunners(s0, s1);
    steps, s := Launches(s0, steps1, x, s1, b, 2, a);
    EntryUpdate(s1, s, b, s.entries[b]);
  }

  /** Leadership moves from b to c between b's two reads. */
  lemma ReadsAcross(s0: Sys, steps: seq<Step>, s: Sys, b: NodeId, c: NodeId) returns (steps': seq<Step>, s': Sys)
    requires Leads(s0, steps, Some(StableReads), s) && s.Leading() == {b} && s.Free(b) && s.Free(c) && s.leaders[c] != c && b != c
    ensures Leads(s0, steps', Some(StableReads), s') && s'.Leading() == {c}
    ensures s' == s.(leaders := s.leaders[b := c][c := c], terms := s.terms[b := s.terms[b] + 1][c := s.terms[c] + 1],
                     locks := s.locks[b := Managing(true, true, Some(s.terms[b] + 1))])
  {
    var steps1, s1 := Opens(s0, steps, Some(StableReads), s, b, true);
    var steps2, s2 := LeadershipMoves(s0, steps1, Some(StableReads), s1, b, c);
    steps', s' := ReadsTerm(s0, steps2, Some(StableReads), s2, b);
    PutTwice(s.locks, b, s1.locks[b], s'.locks[b]);
  }

  /** c rebalances as well: two handoffs from a are current at once. */
  lemma LaunchesAgain(s0: Sys, steps: seq<Step>, x: Broken, s: Sys, a: NodeId, b: NodeId, c: NodeId)
    returns (steps': seq<Step>, s': Sys)
    requires Leads(s0, steps, x, s) && Distinct(a, b, c) && Underway(s, 0, b, Starting, false) && s.handoffs[0].prev == a && s.next == 1
    requires s.Free(a) && s.Free(c) && s.IsLeader(c) && s.entries[c].phase == Idle && s.Runners() == {a}
    ensures Leads(s0, steps', x, s') && Underway(s', 0, b, Starting, false) && Underway(s', 1, c, Starting, false)
    ensures s'.handoffs[0].prev == a && s'.handoffs[1].prev == a && s'.Free(a)
  {
    steps', s' := Rebalances(s0, steps, x, s, c, a);
  }

  /** Both handoffs of the split reads are current, and a answers both. Never more than one
      node takes itself for the leader. */
  lemma SplitReadsDuplicate(a: NodeId, b: NodeId, c: NodeId) returns (steps: seq<Step>)
    requires Distinct(a, b, c)
    ensures KeepsAllBut(Trio(a, b, c), steps, Some(StableReads)) && !AtMostOne(Run(Trio(a, b, c), steps))
  {
    var s, x := Trio(a, b, c), Some(StableReads);
    var steps1, s1 := LaunchesLate(a, b, c);
    var steps2, s2 := LaunchesAgain(s, steps1, x, s1, a, b, c);
    var steps3, s3 := BothStart(s, steps2, x, s2, 0, b, 1, c);
    steps := steps3;
  }

  /** Leadership moves from b to c, with nobody leading in between. */
  lemma LeadershipMoves(s0: Sys, steps: seq<Step>, x: Broken, s: Sys, b: NodeId, c: NodeId) returns (steps': seq<Step>, s': Sys)
    requires Leads(s0, steps, x, s) && s.Leading() == {b} && c in s.entries && s.leaders[c] != c && b != c
    requires (x == Some(StableReads) || !Pledged(s, b)) && !Pledged(s, c)
    ensures Leads(s0, steps', x, s') && s'.Leading() == {c}
    ensures s' == s.(leaders := s.leaders[b := c][c := c], terms := s.terms[b := s.terms[b] + 1][c := s.terms[c] + 1])
  {
    var steps1, s1 := Changes(s0, steps, x, s, b, c);
    steps', s' := Changes(s0, steps1, x, s1, c, c);
  }

  /** An idle leader with no instance elsewhere starts at once. */
  lemma StartsFresh(s0: Sys, steps: seq<Step>, x: Broken, s: Sys, n: NodeId) returns (steps': seq<Step>, s': Sys)
    requires Leads(s0, steps, x, s) && s.Free(n) && s.IsLeader(n) && s.entries[n].phase == Idle && s.Runners() == {}
    ensures Leads(s0, steps', x, s')
    ensures s' == s.(entries := s.entries[n := Entry(Active, s.terms[n], s.entries[n].rebalancing)])
  {
    var steps1, s1 := Reads(s0, steps, x, s, n, false);
    var act := Act(n, Prev("", false));
    OneMore(s0, steps1, x, s1, act);
    steps', s' := steps1 + [act], Next(s1, act);
  }

  /** b has checked the term of its answered handoff, leadership moves to c, which finds no
      instance and starts, and b starts as well. */
  lemma LateStartDuplicates(a: NodeId, b: NodeId, c: NodeId) returns (steps: seq<Step>)
    requires Distinct(a, b, c)
    ensures KeepsAllBut(Trio(a, b, c), steps, Some(StableReads)) && !AtMostOne(Run(Trio(a, b, c), steps))
  {
    var s, x := Trio(a, b, c), Some(StableReads);
    AtTrio(a, b, c, x);
    var steps1, s1 := Rebalances(s, [], x, s, b, a);
    var steps2, s2 := AsksAndHears(s, steps1, x, s1, 0, b);
    var steps3, s3 := Begins(s, steps2, x, s2, 0);
    assert s3.Runners() == {} && s3.Leading() == {b};
    var steps4, s4 := LeadershipMoves(s, steps3, x, s3, b, c);
    SameRunners(s3, s4);
    var steps5, s5 := StartsFresh(s, steps4, x, s4, c);
    var steps6, s6 := Finishes(s, steps5, x, s5, b, 0);
    steps := steps6;
    assert b in s6.Runners() && c in s6.Runners();
  }

  /** a is deactivating, all take b for the leader, and c has seen one change less. */
  function LateTrio(a: NodeId, b: NodeId, c: NodeId): (s: Sys)
    requires Distinct(a, b, c)
    ensures Init(s) && s.Runners() == {a} && s.Leading() == {b}
  {
    var s := Sys(map[a := Entry(Deactivating, 1, false), b := IDLE, c := IDLE], map[a := b, b := b, c := b],
                 map[a := 2, b := 2, c := 1], map[], map[], map[], {}, {}, 0);
    assert s.Runners() == {a} && s.Leading() == {b};
    s
  }

  /** The peer's timer stops its instance, and only then the handoff gives up waiting. */
  lemma GivesUpLate(s0: Sys, steps: seq<Step>, x: Broken, s: Sys, g: nat) returns (steps': seq<Step>, s': Sys)
    requires Leads(s0, steps, x, s) && g in s.handoffs && s.handoffs[g].pc == Waiting
    requires s.Free(s.handoffs[g].prev) && s.entries[s.handoffs[g].prev].phase == Deactivating
    ensures Leads(s0, steps', x, s') && steps <= steps'
    ensures var h := s.handoffs[g];
            s' == s.(entries := s.entries[h.prev := s.entries[h.prev].(phase := Idle)], handoffs := s.handoffs[g := h.(pc := Completing)])
  {
    var prev := s.handoffs[g].prev;
    PlainMore(s0, steps, x, s, TimerFires(prev));
    var s1 := Next(s, TimerFires(prev));
    assert prev !in s1.Runners();
    OneMore(s0, steps + [TimerFires(prev)], x, s1, ContextEnds(g));
    steps', s' := steps + [TimerFires(prev)] + [ContextEnds(g)], Next(s1, ContextEnds(g));
  }

  /** b has asked a, and the request is under way. */
  lemma AskedLate(a: NodeId, b: NodeId, c: NodeId, x: Broken) returns (steps: seq<Step>, s: Sys)
    requires Distinct(a, b, c)
    ensures Leads(LateTrio(a, b, c), steps, x, s)
    ensures s == Sys(map[a := Entry(Deactivating, 1, false), b := Entry(Activating, 2, false), c := IDLE], map[a := b, b := b, c := b],
                     map[a := 2, b := 2, c := 1], map[], map[0 := Handoff(b, 2, a, Waiting, false)], map[(b, 2) := 0],
                     {Request(b, 2, a)}, {}, 1)
  {
    var s0 := LateTrio(a, b, c);
    assert Leads(s0, [], x, s0);
    var steps1, s1 := Rebalances(s0, [], x, s0, b, a);
    steps, s := Asks(s0, steps1, x, s1, 0);
  }

  /** b takes over from a, whose timer runs out before the request arrives; b's request is
      still under way. */
  lemma TakesOverLate(a: NodeId, b: NodeId, c: NodeId, x: Broken) returns (steps: seq<Step>, s: Sys)
    requires Distinct(a, b, c)
    ensures Leads(LateTrio(a, b, c), steps, x, s)
    ensures s.Runners() == {b} && s.Leading() == {b} && s.locks == map[] && Request(b, 2, a) in s.requests
    ensures a in s.entries && b in s.entries && c in s.entries && s.entries[c] == IDLE
    ensures s.leaders == map[a := b, b := b, c := b] && s.terms == map[a := 2, b := 2, c := 1]
  {
    var s0 := LateTrio(a, b, c);
    var steps1, s1 := AskedLate(a, b, c, x);
    var steps2, s2 := GivesUpLate(s0, steps1, x, s1, 0);
    assert s2.Runners() == {};
    steps, s := Completes(s0, steps2, x, s2, 0, b);
    EntryUpdate(s2, s, b, s.entries[b]);
  }

  /** Leadership has moved on to c, which asks b and waits under term 2. */
  lemma WaitsInTurn(a: NodeId, b: NodeId, c: NodeId, x: Broken) returns (steps: seq<Step>, s: Sys, g: nat)
    requires Distinct(a, b, c)
    ensures Leads(LateTrio(a, b, c), steps, x, s) && Underway(s, g, c, Waiting, false)
    ensures s.Runners() == {b} && s.Free(a) && Request(b, 2, a) in s.requests
    ensures s.terms[c] == 2 && (c, 2) in s.waits && s.waits[(c, 2)] == g
  {
    var s0 := LateTrio(a, b, c);
    var steps1, s1 := TakesOverLate(a, b, c, x);
    var steps2, s2 := LeadershipMoves(s0, steps1, x, s1, b, c);
    SameRunners(s1, s2);
    g := s2.next;
    var steps3, s3 := Rebalances(s0, steps2, x, s2, c, b);
    EntryUpdate(s2, s3, c, s3.entries[c]);
    steps, s := Asks(s0, steps3, x, s3, g);
    SameRunners(s3, s);
  }

  /** The late request of b comes in through c, which waits under the same term: c takes the
      answer of a for that of b's instance and starts beside it. */
  lemma MisdirectedAnswerDuplicates(a: NodeId, b: NodeId, c: NodeId) returns (steps: seq<Step>)
    requires Distinct(a, b, c)
    ensures KeepsAllBut(LateTrio(a, b, c), steps, Some(AnswerToAsker)) && !AtMostOne(Run(LateTrio(a, b, c), steps))
  {
    var s0, x := LateTrio(a, b, c), Some(AnswerToAsker);
    var steps1, s1, g := WaitsInTurn(a, b, c, x);
    var steps2, s2 := Answered(s0, steps1, x, s1, Request(b, 2, a), c, g);
    var steps3, s3 := Completes(s0, steps2, x, s2, g, c);
    steps := steps3;
    assert b in s1.Runners();
    assert b in s3.Runners() && c in s3.Runners();
  }

  /** No assumption of the at-most-one theorem can be dropped: for each there is a cluster
      with one instance and no handoff, and a run from it that keeps the other four and ends
      with two instances. */
  lemma EveryAssumptionIsNeeded(x: Assumption) returns (s: Sys, steps: seq<Step>)
    ensures Init(s) && KeepsAllBut(s, steps, Some(x)) && !AtMostOne(Run(s, steps))
  {
    var a, b, c := "a", "b", "c";
    s := if x.AnswerToAsker? then LateTrio(a, b, c) else Trio(a, b, c);
    match x
    case ExclusiveLeader => steps := SplitLeadershipDuplicates(a, b, c);
    case LookupNamesRunner => steps := WrongLookupDuplicates(a, b, c, Prev("", false));
    case PatientHandoff => steps := EarlyTimeoutDuplicates(a, b, c);
    case StableReads => steps := SplitReadsDuplicate(a, b, c);
    case AnswerToAsker => steps := MisdirectedAnswerDuplicates(a, b, c);
  }

  /** Stopping the manager of an activating node does not abort the activation: b asks, is
      stopped, and starts when its cancelled context ends after a has stopped. */
  lemma StopDoesNotAbort(a: NodeId, b: NodeId, c: NodeId, x: Broken) returns (steps: seq<Step>, s: Sys)
    requires Distinct(a, b, c)
    ensures Leads(LateTrio(a, b, c), steps, x, s) && StopStep(b) in steps && b in s.Runners()
  {
    var s0 := LateTrio(a, b, c);
    var steps1, s1 := AskedLate(a, b, c, x);
    PlainMore(s0, steps1, x, s1, StopStep(b));
    assert Next(s1, StopStep(b)) == s1;
    var steps2, s2 := GivesUpLate(s0, steps1 + [StopStep(b)], x, s1, 0);
    steps, s := Completes(s0, steps2, x, s2, 0, b);
    assert steps[|steps1|] == StopStep(b);
  }
}
