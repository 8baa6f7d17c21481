/** Nodes as objects: their methods carry out the steps of the protocol. */
module SingletonNetwork {
  import opened ClusterTypes
  import opened SingletonManager
  import opened SingletonProtocol

  lemma ActIs(s: Sys, n: NodeId, p: Prev, r: (Entry, bool))
    requires WellTyped(s) && s.Ready(n) && r == Decision(s, n, p)
    ensures var s' := Launch(s, n, r, s.locks[n].term.value, p.leader);
            WellTyped(s') && s' == Next(s, Act(n, p)) && s'.entries == s.entries[n := r.0]
  {
    StepTyped(s, Act(n, p));
  }

  lemma ReceiveIs(s: Sys, q: Request, via: NodeId, e: Entry)
    requires WellTyped(s) && q in s.requests && s.Free(q.to) && via in s.entries && e == OnHandoffRequest(s.entries[q.to])
    ensures var s' := s.(entries := s.entries[q.to := e], responses := s.responses + {Response(via, q.term, q.from)});
            WellTyped(s') && s' == Next(s, DeliverRequest(q, via))
  {
    StepTyped(s, DeliverRequest(q, via));
  }

  lemma FinishIs(s: Sys, n: NodeId, e: Entry)
    requires WellTyped(s) && n in s.locks && s.locks[n].Finishing? && s.locks[n].g in s.handoffs
    requires e == CompleteActivation(s.entries[n], s.handoffs[s.locks[n].g].term, s.locks[n].current)
    ensures var s' := Ended(s, s.locks[n].g).(entries := s.entries[n := e], locks := s.locks - {n});
            WellTyped(s') && s' == Next(s, FinishComplete(n))
  {
    StepTyped(s, FinishComplete(n));
  }

  lemma WindIs(s: Sys, n: NodeId, step: Step, e: Entry)
    requires WellTyped(s) && s.Free(n) && (step == TimerFires(n) || step == StopStep(n))
    requires e == if step.StopStep? then StopManager(s.entries[n]) else DeactivationTimeout(s.entries[n])
    ensures WellTyped(s.(entries := s.entries[n := e])) && s.(entries := s.entries[n := e]) == Next(s, step)
  {
    StepTyped(s, step);
  }

  lemma AsideIs(s: Sys, step: Step)
    requires WellTyped(s) && !step.Act? && !step.FinishComplete? && !step.DeliverRequest? && !step.TimerFires? && !step.StopStep?
    ensures WellTyped(Next(s, step)) && Next(s, step).entries == s.entries
  {
    StepTyped(s, step);
    OtherRunners(s, step);
  }

  ghost predicate Holds(node: SingletonState, n: NodeId, e: Entry)
    reads node
  {
    node.Valid() && node.self == n && node.View() == e
  }

  /** The cluster: every node's singleton state, and around them the election answers, the
      lock regions, goroutines and envelopes. */
  class Network {
    const nodes: map<NodeId, SingletonState>
    var sys: Sys

    /** The nodes hold these entries. */
    ghost predicate Hold(entries: map<NodeId, Entry>)
      reads nodes.Values
    {
      nodes.Keys == entries.Keys && forall n {:trigger nodes[n]} :: n in nodes ==> Holds(nodes[n], n, entries[n])
    }

    ghost predicate Valid()
      reads this, nodes.Values
    {
      WellTyped(sys) && Hold(sys.entries)
    }

    constructor (nodes: map<NodeId, SingletonState>, sys: Sys)
      requires WellTyped(sys) && nodes.Keys == sys.entries.Keys
      requires forall n :: n in nodes ==> Holds(nodes[n], n, sys.entries[n])
      ensures Valid() && this.nodes == nodes && this.sys == sys
    {
      this.nodes, this.sys := nodes, sys;
    }

    /** The rest of the cluster catches up with the nodes. */
    method Become(next: Sys)
      requires WellTyped(next) && Hold(next.entries)
      modifies this`sys
      ensures Valid() && sys == next
    {
      sys := next;
    }

    /** The node's own decision on what it has read. */
    method Decide(n: NodeId, p: Prev) returns (r: (Entry, bool))
      requires Hold(sys.entries) && sys.Ready(n)
      modifies nodes[n]
      ensures r == Decision(sys, n, p) && Hold(sys.entries[n := r.0])
    {
      var l := sys.locks[n];
      var handoff;
      if l.rebalance {
        handoff := nodes[n].DoRebalance(l.isLeader, l.term.value, p);
      } else {
        handoff := nodes[n].DoReconcile(l.isLeader, l.term.value, p);
      }
      r := (nodes[n].View(), handoff);
    }

    /** The end of a reconciliation or rebalancing of n. */
    method Manage(n: NodeId, p: Prev)
      requires Valid() && sys.Ready(n)
      modifies this`sys, nodes[n]
      ensures Valid() && sys == Next(old(sys), Act(n, p))
    {
      var r := Decide(n, p);
      ActIs(sys, n, p, r);
      Become(Launch(sys, n, r, sys.locks[n].term.value, p.leader));
    }

    /** The node's own answer to a request. */
    method Answer(n: NodeId) returns (e: Entry)
      requires Hold(sys.entries) && n in nodes
      modifies nodes[n]
      ensures e == OnHandoffRequest(sys.entries[n]) && Hold(sys.entries[n := e])
    {
      var ok := nodes[n].DoHandoffRequest();
      e := nodes[n].View();
    }

    /** A request arrives at its node, which answers to where it came from. */
    method Receive(q: Request, via: NodeId)
      requires Valid() && q in sys.requests && sys.Free(q.to) && via in sys.entries
      modifies this`sys, nodes[q.to]
      ensures Valid() && sys == Next(old(sys), DeliverRequest(q, via))
    {
      var e := Answer(q.to);
      ReceiveIs(sys, q, via, e);
      Become(sys.(entries := sys.entries[q.to := e], responses := sys.responses + {Response(via, q.term, q.from)}));
    }

    /** The node's own completion. */
    method Activate(n: NodeId, expected: nat, current: nat) returns (e: Entry)
      requires Hold(sys.entries) && n in nodes
      modifies nodes[n]
      ensures e == CompleteActivation(sys.entries[n], expected, current) && Hold(sys.entries[n := e])
    {
      var started := nodes[n].DoCompleteActivation(expected, current);
      e := nodes[n].View();
    }

    /** The end of a completion of n. */
    method Finish(n: NodeId)
      requires Valid() && n in sys.locks && sys.locks[n].Finishing? && sys.locks[n].g in sys.handoffs
      modifies this`sys, nodes[n]
      ensures Valid() && sys == Next(old(sys), FinishComplete(n))
    {
      var l := sys.locks[n];
      var e := Activate(n, sys.handoffs[l.g].term, l.current);
      FinishIs(sys, n, e);
      Become(Ended(sys, l.g).(entries := sys.entries[n := e], locks := sys.locks - {n}));
    }

    /** The node's own deactivation timer, or the stop of its manager. */
    method WindDown(n: NodeId, stop: bool) returns (e: Entry)
      requires Hold(sys.entries) && n in nodes
      modifies nodes[n]
      ensures e == (if stop then StopManager(sys.entries[n]) else DeactivationTimeout(sys.entries[n])) && Hold(sys.entries[n := e])
    {
      if stop { nodes[n].DoStop(); } else { nodes[n].DoDeactivationTimeout(); }
      e := nodes[n].View();
    }

    method Wind(n: NodeId, step: Step)
      requires Valid() && sys.Free(n) && (step == TimerFires(n) || step == StopStep(n))
      modifies this`sys, nodes[n]
      ensures Valid() && sys == Next(old(sys), step)
    {
      var e := WindDown(n, step.StopStep?);
      WindIs(sys, n, step, e);
      Become(sys.(entries := sys.entries[n := e]));
    }

    /** A step around the nodes. */
    method Aside(step: Step)
      requires Valid() && !step.Act? && !step.FinishComplete? && !step.DeliverRequest? && !step.TimerFires? && !step.StopStep?
      modifies this`sys
      ensures Valid() && sys == Next(old(sys), step)
    {
      AsideIs(sys, step);
      Become(Next(sys, step));
    }

    /** Any step: those that change an entry through the node's own methods, the others around
        the nodes. */
    method Perform(step: Step)
      requires Valid()
      modifies this`sys, nodes.Values
      ensures Valid() && sys == Next(old(sys), step)
    {
      match step
      case Act(n, p) =>
        if sys.Ready(n) { Manage(n, p); }
      case DeliverRequest(q, via) =>
        if q in sys.requests && sys.Free(q.to) && via in sys.entries { Receive(q, via); }
      case FinishComplete(n) =>
        if n in sys.locks && sys.locks[n].Finishing? && sys.locks[n].g in sys.handoffs { Finish(n); }
      case TimerFires(n) =>
        if sys.Free(n) { Wind(n, step); }
      case StopStep(n) =>
        if sys.Free(n) { Wind(n, step); }
      case _ => Aside(step);
    }

    /** A whole run; at most one of the objects runs the singleton at its end. */
    method PerformAll(steps: seq<Step>)
      requires Valid() && Init(sys) && AllowedRun(sys, steps)
      modifies this`sys, nodes.Values
      ensures Valid() && sys == Run(old(sys), steps)
      ensures forall a, b :: a in nodes && b in nodes && nodes[a].View().Running() && nodes[b].View().Running() ==> a == b
    {
      SingletonAtMostOne(sys, steps);
      var i := 0;
      while i < |steps|
        invariant 0 <= i <= |steps| && Valid() && Run(sys, steps[i..]) == Run(old(sys), steps)
      {
        assert steps[i..][0] == steps[i] && steps[i..][1..] == steps[i + 1..];
        Perform(steps[i]);
        i := i + 1;
      }
      assert forall n :: n in nodes && nodes[n].View().Running() ==> n in sys.Runners();
    }
  }
}
