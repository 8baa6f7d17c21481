/** What the handoff protocol achieves: when an instance stays, when a node gives it up, and
    how it moves to the leader. */
module SingletonMoves {
  import opened Basics
  import opened ClusterTypes
  import opened SingletonManager
  import opened SingletonProtocol
  import opened SingletonRuns

  // --- one step, seen from one node ---

  /** The node whose entry the step may change. */
  function Concerned(step: Step): Option<NodeId>
  {
    match step
    case Act(n, _) => Some(n)
    case FinishComplete(n) => Some(n)
    case DeliverRequest(q, _) => Some(q.to)
    case TimerFires(n) => Some(n)
    case StopStep(n) => Some(n)
    case _ => None
  }

  lemma OthersKeep(s: Sys, step: Step, n: NodeId)
    requires WellTyped(s) && n in s.entries && Concerned(step) != Some(n)
    ensures var s' := Next(s, step); n in s'.entries && s'.entries[n] == s.entries[n]
  {
    if Concerned(step).None? { OtherRunners(s, step); } else { ConcernedKeeps(s, step, n); }
  }

  lemma ConcernedKeeps(s: Sys, step: Step, n: NodeId)
    requires WellTyped(s) && n in s.entries && Concerned(step).Some? && Concerned(step).value != n
    ensures var s' := Next(s, step); n in s'.entries && s'.entries[n] == s.entries[n]
  {}

  lemma SameNodes(s: Sys, step: Step)
    requires WellTyped(s)
    ensures Next(s, step).entries.Keys == s.entries.Keys
  {
    if Concerned(step).None? { OtherRunners(s, step); } else { ConcernedNodes(s, step); }
  }

  lemma ConcernedNodes(s: Sys, step: Step)
    requires WellTyped(s) && Concerned(step).Some?
    ensures Next(s, step).entries.Keys == s.entries.Keys
  {}

  /** n has read, in a rebalancing, that it does not lead. */
  predicate Displaced(s: Sys, n: NodeId)
  {
    s.Ready(n) && s.locks[n].rebalance && !s.locks[n].isLeader
  }

  /** An active instance begins to be given up in a rebalancing that finds another leader, and
      in no other way; it then carries the term that was read. */
  lemma GivingUpExact(s: Sys, step: Step, n: NodeId)
    requires WellTyped(s) && n in s.entries && s.entries[n].phase == Active
    ensures var e := s.entries[n];
            var e' := Next(s, step).entries[n];
            && (e'.phase == Deactivating <==> step.Act? && step.node == n && Displaced(s, n))
            && (e'.phase == Deactivating ==> e' == Entry(Deactivating, s.locks[n].term.value, e.rebalancing))
            && (e'.phase == Active ==> e' == e)
  {
    if Concerned(step) != Some(n) { OthersKeep(s, step, n); } else { GivingUpHere(s, step, n); }
  }

  lemma GivingUpHere(s: Sys, step: Step, n: NodeId)
    requires WellTyped(s) && n in s.entries && s.entries[n].phase == Active && Concerned(step) == Some(n)
    ensures var e := s.entries[n];
            var e' := Next(s, step).entries[n];
            && (e'.phase == Deactivating <==> step.Act? && Displaced(s, n))
            && (e'.phase == Deactivating ==> e' == Entry(Deactivating, s.locks[n].term.value, e.rebalancing))
            && (e'.phase == Active ==> e' == e)
  {}

  /** What stops the instance on n: a request, a stop of its manager, or its timer while it is
      being given up. */
  ghost predicate Halts(s: Sys, step: Step, n: NodeId)
    requires n in s.entries
  {
    match step
    case DeliverRequest(q, via) => q in s.requests && q.to == n && s.Free(n) && via in s.entries
    case StopStep(m) => m == n && s.Free(n)
    case TimerFires(m) => m == n && s.Free(n) && s.entries[n].phase == Deactivating
    case _ => false
  }

  lemma HaltsExact(s: Sys, step: Step, n: NodeId)
    requires WellTyped(s) && n in s.Runners()
    ensures n !in Next(s, step).Runners() <==> Halts(s, step, n)
  {
    SameNodes(s, step);
    if Concerned(step) != Some(n) { OthersKeep(s, step, n); } else { HaltsHere(s, step, n); }
  }

  lemma HaltsHere(s: Sys, step: Step, n: NodeId)
    requires WellTyped(s) && n in s.Runners() && Concerned(step) == Some(n)
    ensures !Next(s, step).entries[n].Running() <==> Halts(s, step, n)
  {}

  // --- runs ---

  /** The run asks n for its instance: by a rebalancing, a request or a stop. */
  predicate Demands(step: Step, n: NodeId)
  {
    match step
    case Open(m, rebalance) => m == n && rebalance
    case DeliverRequest(q, _) => q.to == n
    case StopStep(m) => m == n
    case _ => false
  }

  predicate Rebalancing(s: Sys, n: NodeId) { n in s.locks && s.locks[n].Managing? && s.locks[n].rebalance }

  lemma NoRebalancing(s: Sys, step: Step, n: NodeId)
    requires WellTyped(s) && !Rebalancing(s, n) && !Demands(step, n)
    ensures !Rebalancing(Next(s, step), n)
  {}

  /** Singletons are sticky: however leadership, terms and membership events go, an active
      instance stays as it is unless its own node rebalances, is asked for it or stops. */
  lemma {:induction false} Sticky(s: Sys, steps: seq<Step>, n: NodeId)
    requires WellTyped(s) && n in s.entries && s.entries[n].phase == Active && !Rebalancing(s, n)
    requires forall i :: 0 <= i < |steps| ==> !Demands(steps[i], n)
    ensures var s' := Run(s, steps); n in s'.entries && s'.entries[n] == s.entries[n]
    decreases |steps|
  {
    if steps != [] {
      var step := steps[0];
      StepTyped(s, step);
      NoRebalancing(s, step, n);
      SameNodes(s, step);
      GivingUpExact(s, step, n);
      HaltsExact(s, step, n);
      assert Next(s, step).entries[n] == s.entries[n];
      Sticky(Next(s, step), steps[1..], n);
    }
  }

  /** The phase of n after a step: an instance that is being given up does not come back to
      life, and an idle node starts only by its own decision. */
  lemma DeactivatingOrIdle(s: Sys, step: Step, n: NodeId)
    requires WellTyped(s) && n in s.entries
    ensures n in Next(s, step).entries
    ensures s.entries[n].phase == Deactivating ==> Next(s, step).entries[n] == s.entries[n] || Next(s, step).entries[n].phase == Idle
    ensures s.entries[n].phase == Idle && !(step.Act? && step.node == n) ==> Next(s, step).entries[n] == s.entries[n]
  {
    if Concerned(step) != Some(n) { OthersKeep(s, step, n); } else { PhaseHere(s, step, n); }
  }

  lemma PhaseHere(s: Sys, step: Step, n: NodeId)
    requires WellTyped(s) && n in s.entries && Concerned(step) == Some(n)
    ensures s.entries[n].phase == Deactivating ==> Next(s, step).entries[n] == s.entries[n] || Next(s, step).entries[n].phase == Idle
    ensures s.entries[n].phase == Idle && !step.Act? ==> Next(s, step).entries[n] == s.entries[n]
  {}

  /** Some moment of the run at which n runs nothing. */
  ghost predicate Rests(s: Sys, steps: seq<Step>, n: NodeId)
    requires WellTyped(s)
  {
    exists i :: 0 <= i <= |steps| && n !in Run(s, steps[..i]).Runners()
  }

  lemma RestsLater(s: Sys, steps: seq<Step>, n: NodeId)
    requires WellTyped(s) && steps != [] && WellTyped(Next(s, steps[0])) && Rests(Next(s, steps[0]), steps[1..], n)
    ensures Rests(s, steps, n)
  {
    var i :| 0 <= i <= |steps[1..]| && n !in Run(Next(s, steps[0]), steps[1..][..i]).Runners();
    assert steps[..i + 1][0] == steps[0] && steps[..i + 1][1..] == steps[1..][..i];
    assert n !in Run(s, steps[..i + 1]).Runners();
  }

  /** While n is being given up a run either leaves it so or contains its end. */
  lemma {:induction false} BeingGivenUp(s: Sys, steps: seq<Step>, n: NodeId)
    requires WellTyped(s) && n in s.entries && s.entries[n].phase == Deactivating
    ensures Rests(s, steps, n) || (n in Run(s, steps).entries && Run(s, steps).entries[n] == s.entries[n])
    decreases |steps|
  {
    if steps != [] {
      StepTyped(s, steps[0]);
      DeactivatingOrIdle(s, steps[0], n);
      var s1 := Next(s, steps[0]);
      if s1.entries[n].phase == Idle {
        assert steps[..1] == [steps[0]] && [steps[0]][1..] == [];
        assert Run(s, steps[..1]) == Run(s1, []) == s1;
      } else {
        BeingGivenUp(s1, steps[1..], n);
        if Rests(s1, steps[1..], n) { RestsLater(s, steps, n); }
      }
    }
  }

  lemma {:induction false} RunSnoc(s: Sys, steps: seq<Step>, step: Step)
    requires WellTyped(s)
    ensures Run(s, steps + [step]) == Next(Run(s, steps), step)
    decreases |steps|
  {
    if steps == [] {
      StepTyped(s, step);
      assert steps + [step] == [step] && [step][1..] == [];
      assert Run(s, [step]) == Run(Next(s, step), []);
    } else {
      StepTyped(s, steps[0]);
      RunSnoc(Next(s, steps[0]), steps[1..], step);
      assert (steps + [step])[0] == steps[0] && (steps + [step])[1..] == steps[1..] + [step];
    }
  }

  /** The timer of an instance that is being given up ends it, whatever happens until it finds
      the node's lock free. */
  lemma TimerEnds(s: Sys, n: NodeId, steps: seq<Step>)
    requires WellTyped(s) && n in s.entries && s.entries[n].phase == Deactivating && Run(s, steps).Free(n)
    ensures Rests(s, steps + [TimerFires(n)], n)
  {
    var all := steps + [TimerFires(n)];
    BeingGivenUp(s, steps, n);
    if Rests(s, steps, n) {
      var i :| 0 <= i <= |steps| && n !in Run(s, steps[..i]).Runners();
      assert all[..i] == steps[..i];
    } else {
      RunSnoc(s, steps, TimerFires(n));
      assert all[..|all|] == all;
      HaltsExact(Run(s, steps), TimerFires(n), n);
    }
  }

  /** A rebalancing that finds another leader gives the instance up under the term that was
      read, and its timer ends it. */
  lemma RebalanceGivesUp(s: Sys, n: NodeId, p: Prev, steps: seq<Step>)
    requires WellTyped(s) && Displaced(s, n) && s.entries[n].phase == Active
    ensures var s1 := Next(s, Act(n, p));
            && WellTyped(s1) && n in s1.entries && s1.entries[n] == Entry(Deactivating, s.locks[n].term.value, s.entries[n].rebalancing)
            && (Run(s1, steps).Free(n) ==> Rests(s1, steps + [TimerFires(n)], n))
  {
    StepTyped(s, Act(n, p));
    GivingUpExact(s, Act(n, p), n);
    SameNodes(s, Act(n, p));
    var s1 := Next(s, Act(n, p));
    if Run(s1, steps).Free(n) { TimerEnds(s1, n, steps); }
  }

  lemma {:induction false} IdleStays(s: Sys, steps: seq<Step>, n: NodeId)
    requires WellTyped(s) && n in s.entries && s.entries[n].phase == Idle
    requires forall i :: 0 <= i < |steps| ==> !(steps[i].Act? && steps[i].node == n)
    ensures n in Run(s, steps).entries && Run(s, steps).entries[n] == s.entries[n]
    decreases |steps|
  {
    if steps != [] {
      StepTyped(s, steps[0]);
      DeactivatingOrIdle(s, steps[0], n);
      IdleStays(Next(s, steps[0]), steps[1..], n);
    }
  }

  /** A reconciliation that finds another leader aborts an activation: its handoff goes on, but
      starts nothing, before the node decides again. */
  lemma AbortIsFinal(s: Sys, n: NodeId, p: Prev, steps: seq<Step>)
    requires WellTyped(s) && s.Ready(n) && !s.locks[n].rebalance && !s.locks[n].isLeader && s.entries[n].phase == Activating
    requires forall i :: 0 <= i < |steps| ==> !(steps[i].Act? && steps[i].node == n)
    ensures var s1 := Next(s, Act(n, p));
            && WellTyped(s1) && s1 == s.(entries := s.entries[n := s.entries[n].(phase := Idle)], locks := s.locks - {n})
            && n !in Run(s1, steps).Runners()
  {
    StepTyped(s, Act(n, p));
    IdleStays(Next(s, Act(n, p)), steps, n);
  }

  // --- activations of an earlier term ---

  /** n is idle, or activates in a term that is over, and no completion has read otherwise. */
  ghost predicate Superseded(s: Sys, n: NodeId)
    requires WellTyped(s)
  {
    && n in s.entries && (s.entries[n].phase == Idle || s.entries[n].phase == Activating) && s.entries[n].term < s.terms[n]
    && (n in s.locks && s.locks[n].Finishing? ==> s.locks[n].current > s.entries[n].term)
  }

  lemma SupersededStays(s: Sys, step: Step, n: NodeId)
    requires WellTyped(s) && Superseded(s, n) && !(step.Act? && step.node == n)
    ensures WellTyped(Next(s, step)) && Superseded(Next(s, step), n)
  {
    StepTyped(s, step);
    if Concerned(step) != Some(n) {
      OthersKeep(s, step, n);
      TermsGrow(s, step, n);
      LocksElsewhere(s, step, n);
    } else {
      SupersededHere(s, step, n);
    }
  }

  lemma TermsGrow(s: Sys, step: Step, n: NodeId)
    requires WellTyped(s) && n in s.entries
    ensures n in Next(s, step).terms && s.terms[n] <= Next(s, step).terms[n]
  {
    if step.OpenComplete? { CompletionOpens(s, step.g, n); }
  }

  lemma CompletionOpens(s: Sys, g: nat, n: NodeId)
    requires WellTyped(s)
    ensures var s' := Next(s, OpenComplete(g));
            && s'.terms == s.terms
            && (n in s'.locks ==> (n in s.locks && s'.locks[n] == s.locks[n]) || (n in s.terms && s'.locks[n] == Finishing(g, s.terms[n])))
  {}

  lemma LocksElsewhere(s: Sys, step: Step, n: NodeId)
    requires WellTyped(s) && n in s.entries && Concerned(step) != Some(n)
    ensures var s' := Next(s, step);
            n in s'.locks && s'.locks[n].Finishing? ==> (n in s.locks && s'.locks[n] == s.locks[n]) || s'.locks[n].current == s.terms[n]
  {
    if step.OpenComplete? { CompletionOpens(s, step.g, n); } else if Concerned(step).Some? { LocksOfOthers(s, step, n); }
  }

  lemma LocksOfOthers(s: Sys, step: Step, n: NodeId)
    requires WellTyped(s) && Concerned(step).Some? && Concerned(step).value != n
    ensures n in Next(s, step).locks ==> n in s.locks && Next(s, step).locks[n] == s.locks[n]
  {}

  lemma SupersededHere(s: Sys, step: Step, n: NodeId)
    requires WellTyped(s) && Superseded(s, n) && !step.Act? && Concerned(step) == Some(n) && WellTyped(Next(s, step))
    ensures Superseded(Next(s, step), n)
  {}

  /** An activation whose term is over starts nothing, before the node decides again. */
  lemma {:induction false} SupersededNeverStarts(s: Sys, steps: seq<Step>, n: NodeId)
    requires WellTyped(s) && Superseded(s, n)
    requires forall i :: 0 <= i < |steps| ==> !(steps[i].Act? && steps[i].node == n)
    ensures Superseded(Run(s, steps), n) && n !in Run(s, steps).Runners()
    decreases |steps|
  {
    if steps != [] {
      SupersededStays(s, steps[0], n);
      SupersededNeverStarts(Next(s, steps[0]), steps[1..], n);
    }
  }

  // --- moving an instance ---

  lemma {:induction false} KeepsIsAllowed(s: Sys, steps: seq<Step>)
    requires WellTyped(s) && KeepsAllBut(s, steps, None)
    ensures AllowedRun(s, steps)
    decreases |steps|
  {
    if steps != [] {
      StepTyped(s, steps[0]);
      KeepsIsAllowed(Next(s, steps[0]), steps[1..]);
    }
  }

  /** A displaced runner rebalances. */
  lemma Yields(s0: Sys, steps: seq<Step>, s: Sys, m: NodeId) returns (steps': seq<Step>, s': Sys)
    requires Leads(s0, steps, None, s) && s.Free(m) && !s.IsLeader(m) && s.entries[m].phase == Active
    ensures Leads(s0, steps', None, s')
    ensures s' == s.(entries := s.entries[m := Entry(Deactivating, s.terms[m], s.entries[m].rebalancing)])
  {
    var steps1, s1 := Reads(s0, steps, None, s, m, true);
    var act := Act(m, Prev("", false));
    OneMore(s0, steps1, None, s1, act);
    steps', s' := steps1 + [act], Next(s1, act);
  }

  /** The runner m has given up, and the leader n takes over from it. */
  lemma TakesOver(s0: Sys, steps: seq<Step>, s: Sys, m: NodeId, n: NodeId) returns (steps': seq<Step>, s': Sys)
    requires Leads(s0, steps, None, s) && s.Free(m) && s.Free(n) && s.Runners() == {m}
    requires s.entries[m].phase == Deactivating && s.entries[n].phase == Idle && s.IsLeader(n)
    ensures Leads(s0, steps', None, s')
    ensures s'.entries == s.entries[n := Entry(Active, s.terms[n], false)][m := s.entries[m].(phase := Idle)]
    ensures s'.leaders == s.leaders && s'.terms == s.terms && s'.locks == s.locks && s'.handoffs == s.handoffs - {s.next}
  {
    var steps2, s2 := Rebalances(s0, steps, None, s, n, m);
    var steps3, s3 := AsksAndHears(s0, steps2, None, s2, s.next, n);
    steps', s' := Completes(s0, steps3, None, s3, s.next, n);
    TwoPuts(s.entries, n, s2.entries[n], m, s3.entries[m], s'.entries[n]);
    PutsDropped(s.handoffs, s.next, s2.handoffs[s.next], s3.handoffs[s.next]);
  }

  lemma TwoPuts<K, V>(m: map<K, V>, a: K, x: V, b: K, y: V, z: V)
    requires a != b
    ensures m[a := x][b := y][a := z] == m[a := z][b := y]
  {}

  lemma PutsDropped<K, V>(m: map<K, V>, k: K, x: V, y: V)
    ensures m[k := x][k := y] - {k} == m - {k}
  {}

  lemma MovedRunners(s: Sys, s': Sys, m: NodeId, e: Entry, n: NodeId, f: Entry)
    requires m in s.entries && n in s.entries && m != n && s.Runners() == {m}
    requires s'.entries == s.entries[m := e][n := f] && !e.Running() && f.Running()
    ensures s'.Runners() == {n}
  {
    forall x ensures x in s'.Runners() <==> x == n {
      assert x in s.entries && s.entries[x].Running() ==> x in s.Runners();
    }
  }

  /** Rebalancing moves the instance to the leader: from any state in which m runs it alone, n
      leads and is idle, and the locks of both are free, there is a run that keeps every
      assumption, in which m gives up, n asks m, m stops and answers, and n starts in its
      current term. Nothing else changes for good. */
  lemma RebalanceMoves(s: Sys, m: NodeId, n: NodeId) returns (steps: seq<Step>, s': Sys)
    requires WellTyped(s) && s.Free(m) && s.Free(n) && s.Runners() == {m}
    requires s.entries[m].phase == Active && !s.IsLeader(m) && s.entries[n].phase == Idle && s.IsLeader(n)
    ensures AllowedRun(s, steps) && Run(s, steps) == s'
    ensures s'.entries == s.entries[m := Entry(Idle, s.terms[m], s.entries[m].rebalancing)][n := Entry(Active, s.terms[n], false)]
    ensures s'.Runners() == {n} && s'.leaders == s.leaders && s'.terms == s.terms && s'.locks == s.locks
    ensures s'.handoffs == s.handoffs - {s.next}
  {
    assert Leads(s, [], None, s);
    var steps1, s1 := Yields(s, [], s, m);
    EntryUpdate(s, s1, m, s1.entries[m]);
    steps, s' := TakesOver(s, steps1, s1, m, n);
    KeepsIsAllowed(s, steps);
    MovedRunners(s, s', m, s'.entries[m], n, s'.entries[n]);
  }

  /** After a failure: an idle leader that finds no prior instance starts in its current term,
      in a reconciliation as in a rebalancing. */
  lemma FailoverStarts(s: Sys, n: NodeId, rebalance: bool, p: Prev) returns (steps: seq<Step>)
    requires WellTyped(s) && s.Free(n) && s.IsLeader(n) && s.entries[n].phase == Idle && s.Runners() == {} && NoPriorInstance(n, p)
    ensures AllowedRun(s, steps)
    ensures Run(s, steps) == s.(entries := s.entries[n := Entry(Active, s.terms[n], s.entries[n].rebalancing || rebalance)])
  {
    assert Leads(s, [], None, s);
    var steps1, s1 := Reads(s, [], None, s, n, rebalance);
    OneMore(s, steps1, None, s1, Act(n, p));
    steps := steps1 + [Act(n, p)];
    KeepsIsAllowed(s, steps);
  }

  /** The request cannot be sent, and the pause ends. */
  lemma Pauses(s0: Sys, steps: seq<Step>, s: Sys, g: nat) returns (steps': seq<Step>, s': Sys)
    requires Leads(s0, steps, None, s) && g in s.handoffs && s.handoffs[g].pc == Sending && s.handoffs[g].prev !in s.Runners()
    ensures Leads(s0, steps', None, s')
    ensures var h := s.handoffs[g];
            s' == s.(handoffs := s.handoffs[g := h.(pc := Completing)], requests := s.requests + {Request(h.node, h.term, h.prev)})
  {
    OneMore(s0, steps, None, s, SendRequest(g, false));
    var steps1, s1 := steps + [SendRequest(g, false)], Next(s, SendRequest(g, false));
    PlainMore(s0, steps1, None, s1, PauseEnds(g));
    steps', s' := steps1 + [PauseEnds(g)], Next(s1, PauseEnds(g));
    PutTwice(s.handoffs, g, s1.handoffs[g], s'.handoffs[g]);
  }

  /** A peer that cannot be reached and runs nothing does not hold the handoff up: after the
      pause n starts in its current term. */
  lemma UnreachableStarts(s: Sys, g: nat, n: NodeId) returns (steps: seq<Step>, s': Sys)
    requires WellTyped(s) && Underway(s, g, n, Starting, false) && s.handoffs[g].prev !in s.Runners()
    ensures AllowedRun(s, steps) && Run(s, steps) == s'
    ensures s'.entries == s.entries[n := s.entries[n].(phase := Active)] && s'.handoffs == s.handoffs - {g} && s'.locks == s.locks
  {
    assert Leads(s, [], None, s);
    PlainMore(s, [], None, s, RegisterWait(g));
    var s1 := Next(s, RegisterWait(g));
    SameRunners(s, s1);
    var steps2, s2 := Pauses(s, [] + [RegisterWait(g)], s1, g);
    steps, s' := Completes(s, steps2, None, s2, g, n);
    PutsDropped(s.handoffs, g, s1.handoffs[g], s2.handoffs[g]);
    KeepsIsAllowed(s, steps);
  }

  /** When a handoff begins: an idle leader finds a live prior owner and is rebalancing, now or
      since an earlier rebalancing; or a new term finds it activating in such a state. It then
      activates in the term read and asks that owner. */
  lemma LaunchExact(s: Sys, n: NodeId, p: Prev)
    requires WellTyped(s) && s.Ready(n)
    ensures var l, e, s' := s.locks[n], s.entries[n], Next(s, Act(n, p));
            var launches := l.isLeader && !NoPriorInstance(n, p)
                            && if l.rebalance then e.phase == Idle
                               else e.rebalancing && (e.phase == Idle || (e.phase == Activating && e.term != l.term.value));
            && (s'.next == s.next + 1 <==> launches)
            && (launches ==> s'.entries[n] == Entry(Activating, l.term.value, false)
                             && s'.handoffs == s.handoffs[s.next := Handoff(n, l.term.value, p.leader, Starting, false)])
            && (!launches ==> s'.handoffs == s.handoffs && s'.next == s.next)
  {}

  /** An idle leader that finds a live prior owner, without rebalancing, leaves it alone. */
  lemma OwnerIsLeftAlone(s: Sys, n: NodeId, p: Prev)
    requires WellTyped(s) && s.Ready(n) && !s.locks[n].rebalance && !NoPriorInstance(n, p) && !s.entries[n].rebalancing
    requires s.locks[n].isLeader || s.entries[n].phase != Activating
    ensures Next(s, Act(n, p)) == s.(locks := s.locks - {n})
  {
    assert Decision(s, n, p) == (s.entries[n], false);
    assert s.entries[n := s.entries[n]] == s.entries;
  }
}
