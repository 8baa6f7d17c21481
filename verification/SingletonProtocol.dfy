/** The handoff protocol across nodes as a step system: managers inside their lock regions,
    the election answers they read one by one, handoff goroutines, request and response
    envelopes and timers, in any interleaving. Envelopes may be lost, delayed, reordered or
    repeated, and may come in from any node that forwards them. */
module SingletonProtocol {
  import opened Basics
  import opened ClusterTypes
  import opened SingletonManager

  datatype Pc = Starting | Sending | Waiting | Pausing | Completing

  /** A runHandoff goroutine of `node`. */
  datatype Handoff = Handoff(node: NodeId, term: nat, prev: NodeId, pc: Pc, got: bool)

  /** What a node has read so far in its open lock region: in a reconciliation or rebalancing
      the leadership and then the term, in a completion the current term. */
  datatype Lock =
    | Managing(rebalance: bool, isLeader: bool, term: Option<nat>)
    | Finishing(g: nat, current: nat)

  datatype Request = Request(from: NodeId, term: nat, to: NodeId)

  /** An answer goes to the node from which the request came in; asker is the node that made
      the request. */
  datatype Response = Response(to: NodeId, term: nat, asker: NodeId)

  datatype Sys = Sys(
    entries: map<NodeId, Entry>,
    leaders: map<NodeId, NodeId>,   // each node's own election answer
    terms: map<NodeId, nat>,        // each node's own election term
    locks: map<NodeId, Lock>,       // nodes inside a lock region
    handoffs: map<nat, Handoff>,
    waits: map<(NodeId, nat), nat>, // correlation (node, term) to goroutine
    requests: set<Request>,
    responses: set<Response>,
    next: nat)
  {
    predicate IsLeader(n: NodeId)
    {
      n in leaders && leaders[n] == n
    }

    /** The nodes that take themselves for the leader. */
    function Leading(): set<NodeId>
    {
      set n | n in leaders && leaders[n] == n
    }

    /** The nodes on which the singleton runs. */
    function Runners(): set<NodeId>
    {
      set n | n in entries && entries[n].Running()
    }

    /** n is a member and its manager lock is free. */
    predicate Free(n: NodeId) { n in entries && n !in locks }

    /** n has read its leadership and its term. */
    predicate Ready(n: NodeId)
    {
      n in entries && n in locks && locks[n].Managing? && locks[n].term.Some?
    }

    /** The goroutine whose wait the response meets, if any. */
    predicate Meets(p: Response)
    {
      && (p.to, p.term) in waits && waits[(p.to, p.term)] in handoffs
      && handoffs[waits[(p.to, p.term)]].node == p.to && handoffs[waits[(p.to, p.term)]].term == p.term
    }
  }

  ghost predicate WellTyped(s: Sys)
  {
    && s.leaders.Keys == s.entries.Keys && s.terms.Keys == s.entries.Keys && "" !in s.entries
    && s.locks.Keys <= s.entries.Keys
  }

  datatype Step =
    | LeaderChange(node: NodeId, leader: NodeId)
    | Open(node: NodeId, rebalance: bool)
    | ReadTerm(node: NodeId)
    | Act(node: NodeId, p: Prev)
    | RegisterWait(g: nat)
    | SendRequest(g: nat, ok: bool)
    | DeliverRequest(req: Request, via: NodeId)
    | DeliverResponse(resp: Response)
    | TakeResponse(g: nat)
    | ContextEnds(g: nat)
    | PauseEnds(g: nat)
    | OpenComplete(g: nat)
    | FinishComplete(node: NodeId)
    | TimerFires(node: NodeId)
    | StopStep(node: NodeId)

  /** What the manager of n decides on what it has read. */
  function Decision(s: Sys, n: NodeId, p: Prev): (Entry, bool)
    requires s.Ready(n)
  {
    var l := s.locks[n];
    if l.rebalance then Rebalance(s.entries[n], n, l.isLeader, l.term.value, p)
    else Reconcile(s.entries[n], n, l.isLeader, l.term.value, p)
  }

  function Launch(s: Sys, n: NodeId, r: (Entry, bool), term: nat, prev: NodeId): Sys
    requires n in s.entries
  {
    var s' := s.(entries := s.entries[n := r.0], locks := s.locks - {n});
    if r.1 then s'.(handoffs := s.handoffs[s.next := Handoff(n, term, prev, Starting, false)], next := s.next + 1)
    else s'
  }

  function SetPc(s: Sys, g: nat, pc: Pc): Sys
    requires g in s.handoffs
  {
    s.(handoffs := s.handoffs[g := s.handoffs[g].(pc := pc)])
  }

  /** The goroutine returns and takes its correlation with it. */
  function Ended(s: Sys, g: nat): Sys
    requires g in s.handoffs
  {
    s.(handoffs := s.handoffs - {g}, waits := s.waits - {(s.handoffs[g].node, s.handoffs[g].term)})
  }

  /** One atomic step; a step that is not enabled changes nothing. */
  function Next(s: Sys, step: Step): Sys
    requires WellTyped(s)
  {
    match step
    case LeaderChange(n, l) =>
      if n in s.entries && s.leaders[n] != l
      then s.(leaders := s.leaders[n := l], terms := s.terms[n := s.terms[n] + 1]) else s
    case Open(n, rebalance) =>
      if s.Free(n) then s.(locks := s.locks[n := Managing(rebalance, s.IsLeader(n), None)]) else s
    case ReadTerm(n) =>
      if n in s.locks && s.locks[n].Managing? && s.locks[n].term.None?
      then s.(locks := s.locks[n := s.locks[n].(term := Some(s.terms[n]))]) else s
    case Act(n, p) =>
      if s.Ready(n) then Launch(s, n, Decision(s, n, p), s.locks[n].term.value, p.leader) else s
    case RegisterWait(g) =>
      if g in s.handoffs && s.handoffs[g].pc == Starting
      then SetPc(s, g, Sending).(waits := s.waits[(s.handoffs[g].node, s.handoffs[g].term) := g]) else s
    case SendRequest(g, ok) =>
      if g in s.handoffs && s.handoffs[g].pc == Sending then
        var h := s.handoffs[g];
        SetPc(s, g, if ok then Waiting else Pausing).(requests := s.requests + {Request(h.node, h.term, h.prev)})
      else s
    case DeliverRequest(q, via) =>
      if q in s.requests && s.Free(q.to) && via in s.entries
      then s.(entries := s.entries[q.to := OnHandoffRequest(s.entries[q.to])],
              responses := s.responses + {Response(via, q.term, q.from)})
      else s
    case DeliverResponse(p) =>
      if p in s.responses && s.Meets(p)
      then s.(handoffs := s.handoffs[s.waits[(p.to, p.term)] := s.handoffs[s.waits[(p.to, p.term)]].(got := true)]) else s
    case TakeResponse(g) =>
      if g in s.handoffs && s.handoffs[g].pc == Waiting && s.handoffs[g].got then SetPc(s, g, Completing) else s
    case ContextEnds(g) =>
      if g in s.handoffs && s.handoffs[g].pc == Waiting then SetPc(s, g, Completing)
      else if g in s.handoffs && s.handoffs[g].pc == Pausing then Ended(s, g)
      else s
    case PauseEnds(g) =>
      if g in s.handoffs && s.handoffs[g].pc == Pausing then SetPc(s, g, Completing) else s
    case OpenComplete(g) =>
      if g in s.handoffs && s.handoffs[g].pc == Completing && s.Free(s.handoffs[g].node) then
        var h := s.handoffs[g];
        if s.entries[h.node].phase == Activating && s.entries[h.node].term == h.term
        then s.(locks := s.locks[h.node := Finishing(g, s.terms[h.node])]) else Ended(s, g)
      else s
    case FinishComplete(n) =>
      if n in s.locks && s.locks[n].Finishing? && s.locks[n].g in s.handoffs then
        var l := s.locks[n];
        Ended(s, l.g).(entries := s.entries[n := CompleteActivation(s.entries[n], s.handoffs[l.g].term, l.current)],
                       locks := s.locks - {n})
      else s
    case TimerFires(n) =>
      if s.Free(n) then s.(entries := s.entries[n := DeactivationTimeout(s.entries[n])]) else s
    case StopStep(n) =>
      if s.Free(n) then s.(entries := s.entries[n := StopManager(s.entries[n])]) else s
  }

  // --- assumptions on the environment ---

  /** At most one node takes itself for the leader. */
  ghost predicate Exclusive(s: Sys)
  {
    forall a, b :: a in s.Leading() && b in s.Leading() ==> a == b
  }

  /** The previous-leader lookup names the other node that runs the singleton, if any. */
  ghost predicate NamesRunner(s: Sys, n: NodeId, p: Prev)
  {
    forall m :: m != n && m in s.Runners() ==> p.leader == m && !p.failed
  }

  /** A handoff of the current term gives up waiting only after its peer has stopped. */
  ghost predicate PeerStopped(s: Sys, g: nat)
  {
    g in s.handoffs && s.handoffs[g].node in s.terms && s.handoffs[g].term == s.terms[s.handoffs[g].node] ==>
      s.handoffs[g].prev !in s.Runners()
  }

  /** The environment does what the protocol relies on. */
  ghost predicate Assumed(s: Sys, step: Step)
    requires WellTyped(s)
  {
    && (step.Act? && s.Ready(step.node) && s.locks[step.node].isLeader ==> NamesRunner(s, step.node, step.p))
    && (step.ContextEnds? || (step.SendRequest? && !step.ok) ==> PeerStopped(s, step.g))
    && (step.LeaderChange? ==> Exclusive(Next(s, step)))
  }

  /** n is inside a lock region and has read there that it leads, or that its handoff is of
      the current term. */
  ghost predicate Pledged(s: Sys, n: NodeId)
  {
    n in s.locks &&
    match s.locks[n]
    case Managing(_, isLeader, _) => isLeader
    case Finishing(g, current) => g in s.handoffs && current == s.handoffs[g].term
  }

  /** The two windows that the code leaves open stay unused: a node's election answer does
      not change between its reads and the start they lead to, and an answer that comes back
      to a forwarding node meets no wait there. */
  ghost predicate Undisturbed(s: Sys, step: Step)
  {
    && (step.LeaderChange? ==> !Pledged(s, step.node))
    && (step.DeliverResponse? ==> step.resp.to == step.resp.asker || !s.Meets(step.resp))
  }

  ghost predicate Allowed(s: Sys, step: Step)
    requires WellTyped(s)
  {
    Assumed(s, step) && Undisturbed(s, step)
  }

  // --- the property and its invariant ---

  ghost predicate AtMostOne(s: Sys)
  {
    forall a, b :: a in s.Runners() && b in s.Runners() ==> a == b
  }

  /** A claim of node n made in term t: while that term lasts, n leads and only n and the
      nodes in may can be running. */
  ghost predicate Claim(s: Sys, n: NodeId, t: nat, may: set<NodeId>)
  {
    n in s.terms && t <= s.terms[n] && (t == s.terms[n] ==> n in s.Leading() && s.Runners() <= {n} + may)
  }

  ghost predicate HandoffOk(s: Sys, h: Handoff)
  {
    Claim(s, h.node, h.term, if h.got || h.pc == Pausing || h.pc == Completing then {} else {h.prev})
  }

  ghost predicate HandoffsOk(s: Sys, hs: map<nat, Handoff>, next: nat)
  {
    forall g {:trigger HandoffOk(s, hs[g])} :: g in hs ==> g < next && HandoffOk(s, hs[g])
  }

  ghost predicate RequestsOk(s: Sys, qs: set<Request>)
  {
    forall q {:trigger Claim(s, q.from, q.term, {q.to})} :: q in qs ==> Claim(s, q.from, q.term, {q.to})
  }

  /** Answers that went back to the asker. */
  ghost predicate ResponsesOk(s: Sys, ps: set<Response>)
  {
    forall p {:trigger Claim(s, p.to, p.term, {})} :: p in ps && p.to == p.asker ==> Claim(s, p.to, p.term, {})
  }

  /** What n has read in its lock region is still so, if it matters. */
  ghost predicate LockOk(s: Sys, hs: map<nat, Handoff>, n: NodeId, l: Lock)
    requires n in s.terms
  {
    match l
    case Managing(_, isLeader, term) => isLeader ==> n in s.Leading() && (term.Some? ==> term.value == s.terms[n])
    case Finishing(g, current) =>
      g in hs && hs[g].node == n && hs[g].pc == Completing && (current == hs[g].term ==> s.terms[n] == current)
  }

  ghost predicate LocksOk(s: Sys, hs: map<nat, Handoff>, ls: map<NodeId, Lock>)
    requires ls.Keys <= s.terms.Keys
  {
    forall n :: n in ls ==> LockOk(s, hs, n, ls[n])
  }

  ghost predicate Inv(s: Sys)
  {
    && WellTyped(s) && AtMostOne(s) && Exclusive(s) && LocksOk(s, s.handoffs, s.locks)
    && HandoffsOk(s, s.handoffs, s.next) && RequestsOk(s, s.requests) && ResponsesOk(s, s.responses)
  }

  /** Any placement of at most one instance, before any lock region or handoff has begun. */
  ghost predicate Init(s: Sys)
  {
    && WellTyped(s) && AtMostOne(s) && Exclusive(s)
    && s.locks == map[] && s.handoffs == map[] && s.requests == {} && s.responses == {}
  }

  // --- preservation ---

  /** Every claim made in s still holds in s'. */
  ghost predicate ClaimsSurvive(s: Sys, s': Sys)
  {
    && s'.terms.Keys == s.terms.Keys
    && forall n, t: nat, may :: n in s.terms && Claim(s, n, t, may) ==> Claim(s', n, t, may)
  }

  lemma ClaimsKept(s: Sys, s': Sys)
    requires Inv(s) && ClaimsSurvive(s, s')
    ensures HandoffsOk(s', s.handoffs, s.next) && RequestsOk(s', s.requests) && ResponsesOk(s', s.responses)
  {
    forall g | g in s.handoffs ensures g < s.next && HandoffOk(s', s.handoffs[g]) {
      assert HandoffOk(s, s.handoffs[g]);
    }
    forall q | q in s.requests ensures Claim(s', q.from, q.term, {q.to}) {
      assert Claim(s, q.from, q.term, {q.to});
    }
    forall p | p in s.responses && p.to == p.asker ensures Claim(s', p.to, p.term, {}) {
      assert Claim(s, p.to, p.term, {});
    }
  }

  lemma HandoffSet(s: Sys, hs: map<nat, Handoff>, next: nat, g: nat, h: Handoff, next': nat)
    requires HandoffsOk(s, hs, next) && HandoffOk(s, h) && g < next' && next <= next'
    ensures HandoffsOk(s, hs[g := h], next')
  {
    var hs' := hs[g := h];
    forall i | i in hs' ensures i < next' && HandoffOk(s, hs'[i]) {
      if i != g { assert HandoffOk(s, hs[i]); }
    }
  }

  lemma HandoffGone(s: Sys, hs: map<nat, Handoff>, next: nat, g: nat)
    requires HandoffsOk(s, hs, next)
    ensures HandoffsOk(s, hs - {g}, next)
  {
    forall i | i in hs - {g} ensures i < next && HandoffOk(s, (hs - {g})[i]) {
      assert HandoffOk(s, hs[i]);
    }
  }

  lemma HandoffsAreOlder(s: Sys, g: nat)
    requires HandoffsOk(s, s.handoffs, s.next) && g in s.handoffs
    ensures g < s.next
  {
    assert HandoffOk(s, s.handoffs[g]);
  }

  /** Locks do not notice changes of handoffs that are not completing. */
  lemma LocksKept(s: Sys, s': Sys, hs: map<nat, Handoff>)
    requires WellTyped(s) && LocksOk(s, s.handoffs, s.locks) && s'.Leading() == s.Leading() && s'.terms == s.terms
    requires forall g :: g in s.handoffs && s.handoffs[g].pc == Completing ==>
               g in hs && hs[g].(got := s.handoffs[g].got) == s.handoffs[g]
    ensures LocksOk(s', hs, s.locks)
  {
    forall n | n in s.locks ensures LockOk(s', hs, n, s.locks[n]) {
      assert LockOk(s, s.handoffs, n, s.locks[n]);
    }
  }

  /** Instances only stop: claims survive. */
  lemma StoppingKeeps(s: Sys, s': Sys)
    requires Inv(s) && s'.Leading() == s.Leading() && s'.terms == s.terms && s'.Runners() <= s.Runners()
    ensures AtMostOne(s') && Exclusive(s') && ClaimsSurvive(s, s')
  {}

  /** The leader n starts while nobody else runs: claims of other nodes are not current,
      and n's own claims exempt n. */
  lemma LeaderStartKeeps(s: Sys, s': Sys, n: NodeId)
    requires Inv(s) && s'.Leading() == s.Leading() && s'.terms == s.terms
    requires n in s.Leading() && s'.Runners() <= {n}
    ensures AtMostOne(s') && Exclusive(s') && ClaimsSurvive(s, s')
  {}

  lemma EntryUpdate(s: Sys, s': Sys, n: NodeId, e: Entry)
    requires n in s.entries && s'.entries == s.entries[n := e] && s'.leaders == s.leaders
    ensures s'.Runners() == if e.Running() then s.Runners() + {n} else s.Runners() - {n}
    ensures s'.Leading() == s.Leading()
  {}

  lemma SameViews(s: Sys, s': Sys)
    requires s'.entries == s.entries && s'.leaders == s.leaders
    ensures s'.Runners() == s.Runners() && s'.Leading() == s.Leading()
  {}

  lemma DecisionIsCautious(s: Sys, n: NodeId, p: Prev)
    requires s.Ready(n)
    ensures Cautious(s.entries[n], n, s.locks[n].isLeader, p, Decision(s, n, p))
  {
    var l := s.locks[n];
    ManagersAreCautious(s.entries[n], n, l.isLeader, l.term.value, p);
  }

  /** The entry change alone. */
  lemma ActStarts(s: Sys, s': Sys, n: NodeId, r: (Entry, bool), p: Prev)
    requires Inv(s) && s.Ready(n) && (s.locks[n].isLeader ==> NamesRunner(s, n, p))
    requires Cautious(s.entries[n], n, s.locks[n].isLeader, p, r)
    requires s'.entries == s.entries[n := r.0] && s'.leaders == s.leaders && s'.terms == s.terms
    ensures AtMostOne(s') && Exclusive(s') && ClaimsSurvive(s, s') && s'.Leading() == s.Leading()
  {
    EntryUpdate(s, s', n, r.0);
    assert LockOk(s, s.handoffs, n, s.locks[n]);
    if r.0.Running() && !s.entries[n].Running() { LeaderStartKeeps(s, s', n); } else { StoppingKeeps(s, s'); }
  }

  lemma LaunchClaim(s: Sys, s': Sys, n: NodeId, r: (Entry, bool), p: Prev)
    requires Inv(s) && s.Ready(n) && s.locks[n].isLeader && NamesRunner(s, n, p) && !r.0.Running()
    requires s'.entries == s.entries[n := r.0] && s'.leaders == s.leaders && s'.terms == s.terms
    ensures HandoffOk(s', Handoff(n, s.locks[n].term.value, p.leader, Starting, false))
  {
    EntryUpdate(s, s', n, r.0);
    assert LockOk(s, s.handoffs, n, s.locks[n]);
  }

  lemma ActKeeps(s: Sys, n: NodeId, p: Prev)
    requires Inv(s) && Assumed(s, Act(n, p))
    ensures Inv(Next(s, Act(n, p)))
  {
    if s.Ready(n) {
      var r, s' := Decision(s, n, p), Next(s, Act(n, p));
      DecisionIsCautious(s, n, p);
      ActStarts(s, s', n, r, p);
      ClaimsKept(s, s');
      if r.1 {
        LaunchClaim(s, s', n, r, p);
        HandoffSet(s', s.handoffs, s.next, s.next, s'.handoffs[s.next], s.next + 1);
        forall g | g in s.handoffs ensures g < s.next { HandoffsAreOlder(s, g); }
      }
      LocksKept(s, s', s'.handoffs);
    }
  }

  lemma LeaderChangeKeeps(s: Sys, n: NodeId, l: NodeId)
    requires Inv(s) && Allowed(s, LeaderChange(n, l))
    ensures Inv(Next(s, LeaderChange(n, l)))
  {
    var s' := Next(s, LeaderChange(n, l));
    if n in s.entries && s.leaders[n] != l {
      assert s'.Runners() == s.Runners();
      assert forall m :: m != n ==> (m in s'.Leading() <==> m in s.Leading());
      ClaimsKept(s, s');
      forall m | m in s.locks ensures LockOk(s', s.handoffs, m, s.locks[m]) {
        assert LockOk(s, s.handoffs, m, s.locks[m]);
      }
    }
  }

  /** Nothing but locks changes. */
  lemma LockStepKeeps(s: Sys, step: Step)
    requires Inv(s) && (step.Open? || step.ReadTerm?)
    ensures Inv(Next(s, step))
  {
    var s' := Next(s, step);
    SameViews(s, s');
    StoppingKeeps(s, s');
    ClaimsKept(s, s');
    LocksKept(s, s', s.handoffs);
  }

  /** The handoff g moves on without touching instances, terms or locks. */
  lemma GoroutineKeeps(s: Sys, s': Sys, g: nat)
    requires Inv(s) && g in s.handoffs && s.handoffs[g].pc != Completing && g in s'.handoffs
    requires s'.handoffs == s.handoffs[g := s'.handoffs[g]]
    requires s' == s.(handoffs := s'.handoffs, waits := s'.waits, requests := s'.requests)
    requires s'.handoffs[g].node == s.handoffs[g].node && HandoffOk(s, s'.handoffs[g])
    requires forall q :: q in s'.requests ==> q in s.requests || Claim(s, q.from, q.term, {q.to})
    ensures Inv(s')
  {
    SameViews(s, s');
    StoppingKeeps(s, s');
    ClaimsKept(s, s');
    LocksKept(s, s', s'.handoffs);
    HandoffsAreOlder(s, g);
    HandoffSet(s', s.handoffs, s.next, g, s'.handoffs[g], s.next);
    forall q | q in s'.requests ensures Claim(s', q.from, q.term, {q.to}) { assert q in s.requests ==> Claim(s, q.from, q.term, {q.to}); }
  }

  lemma SendKeeps(s: Sys, step: Step)
    requires Inv(s) && Assumed(s, step) && (step.RegisterWait? || step.SendRequest?)
    ensures Inv(Next(s, step))
  {
    if step.g in s.handoffs {
      var h := s.handoffs[step.g];
      assert HandoffOk(s, h);
      if (step.RegisterWait? && h.pc == Starting) || (step.SendRequest? && h.pc == Sending) {
        GoroutineKeeps(s, Next(s, step), step.g);
      }
    }
  }

  /** A handoff may move on to completion once nobody but its own node can be running. */
  lemma PcKeeps(s: Sys, step: Step)
    requires Inv(s) && Assumed(s, step) && (step.TakeResponse? || step.ContextEnds? || step.PauseEnds?)
    ensures Inv(Next(s, step))
  {
    if step.g in s.handoffs {
      var h := s.handoffs[step.g];
      assert HandoffOk(s, h);
      if h.pc == Pausing && step.ContextEnds? {
        EndedKeeps(s, step.g);
      } else if Next(s, step).handoffs == s.handoffs[step.g := h.(pc := Completing)] && h.pc != Completing {
        GoroutineKeeps(s, Next(s, step), step.g);
      }
    }
  }

  lemma EndedKeeps(s: Sys, g: nat)
    requires Inv(s) && g in s.handoffs && (s.handoffs[g].pc != Completing || s.Free(s.handoffs[g].node))
    ensures Inv(Ended(s, g))
  {
    var s' := Ended(s, g);
    SameViews(s, s');
    StoppingKeeps(s, s');
    ClaimsKept(s, s');
    HandoffGone(s', s.handoffs, s.next, g);
    forall n | n in s.locks ensures LockOk(s', s'.handoffs, n, s.locks[n]) {
      assert LockOk(s, s.handoffs, n, s.locks[n]);
    }
  }

  lemma DeliverRequestKeeps(s: Sys, q: Request, via: NodeId)
    requires Inv(s)
    ensures Inv(Next(s, DeliverRequest(q, via)))
  {
    var s' := Next(s, DeliverRequest(q, via));
    if q in s.requests && s.Free(q.to) && via in s.entries {
      EntryUpdate(s, s', q.to, OnHandoffRequest(s.entries[q.to]));
      StoppingKeeps(s, s');
      ClaimsKept(s, s');
      LocksKept(s, s', s.handoffs);
      assert q.to !in s'.Runners();
      assert Claim(s', q.from, q.term, {q.to});
      assert Claim(s', q.from, q.term, {});
    }
  }

  lemma DeliverResponseKeeps(s: Sys, p: Response)
    requires Inv(s) && Undisturbed(s, DeliverResponse(p))
    ensures Inv(Next(s, DeliverResponse(p)))
  {
    var s' := Next(s, DeliverResponse(p));
    if p in s.responses && s.Meets(p) {
      SameViews(s, s');
      StoppingKeeps(s, s');
      ClaimsKept(s, s');
      LocksKept(s, s', s'.handoffs);
      var g := s.waits[(p.to, p.term)];
      assert Claim(s', p.to, p.term, {});
      HandoffsAreOlder(s, g);
      HandoffSet(s', s.handoffs, s.next, g, s'.handoffs[g], s.next);
    }
  }

  lemma OpenCompleteKeeps(s: Sys, g: nat)
    requires Inv(s)
    ensures Inv(Next(s, OpenComplete(g)))
  {
    var s' := Next(s, OpenComplete(g));
    if g in s.handoffs && s.handoffs[g].pc == Completing && s.Free(s.handoffs[g].node) {
      var n := s.handoffs[g].node;
      if s.entries[n].phase == Activating && s.entries[n].term == s.handoffs[g].term {
        SameViews(s, s');
        StoppingKeeps(s, s');
        ClaimsKept(s, s');
        LocksKept(s, s', s.handoffs);
      } else {
        EndedKeeps(s, g);
      }
    }
  }

  /** Completion starts an instance only in the current term, where its claim holds. */
  lemma FinishStarts(s: Sys, s': Sys, n: NodeId, e: Entry)
    requires Inv(s) && n in s.locks && s.locks[n].Finishing? && s.locks[n].g in s.handoffs
    requires e == CompleteActivation(s.entries[n], s.handoffs[s.locks[n].g].term, s.locks[n].current)
    requires s'.entries == s.entries[n := e] && s'.leaders == s.leaders && s'.terms == s.terms
    ensures AtMostOne(s') && Exclusive(s') && ClaimsSurvive(s, s') && s'.Leading() == s.Leading()
  {
    EntryUpdate(s, s', n, e);
    assert LockOk(s, s.handoffs, n, s.locks[n]);
    assert HandoffOk(s, s.handoffs[s.locks[n].g]);
    if e.Running() && !s.entries[n].Running() { LeaderStartKeeps(s, s', n); } else { StoppingKeeps(s, s'); }
  }

  lemma FinishKeeps(s: Sys, n: NodeId)
    requires Inv(s)
    ensures Inv(Next(s, FinishComplete(n)))
  {
    var s' := Next(s, FinishComplete(n));
    if n in s.locks && s.locks[n].Finishing? && s.locks[n].g in s.handoffs {
      FinishStarts(s, s', n, s'.entries[n]);
      ClaimsKept(s, s');
      HandoffGone(s', s.handoffs, s.next, s.locks[n].g);
      assert LockOk(s, s.handoffs, n, s.locks[n]);
      forall m | m in s'.locks ensures LockOk(s', s'.handoffs, m, s'.locks[m]) {
        assert LockOk(s, s.handoffs, m, s.locks[m]);
      }
    }
  }

  lemma QuietKeeps(s: Sys, step: Step)
    requires Inv(s) && (step.TimerFires? || step.StopStep?)
    ensures Inv(Next(s, step))
  {
    var s' := Next(s, step);
    if s.Free(step.node) {
      EntryUpdate(s, s', step.node, s'.entries[step.node]);
      StoppingKeeps(s, s');
      ClaimsKept(s, s');
      LocksKept(s, s', s.handoffs);
    }
  }

  lemma StepKeeps(s: Sys, step: Step)
    requires Inv(s) && Allowed(s, step)
    ensures Inv(Next(s, step))
  {
    match step
    case LeaderChange(n, l) => LeaderChangeKeeps(s, n, l);
    case Open(n, rebalance) => LockStepKeeps(s, step);
    case ReadTerm(n) => LockStepKeeps(s, step);
    case Act(n, p) => ActKeeps(s, n, p);
    case RegisterWait(g) => SendKeeps(s, step);
    case SendRequest(g, ok) => SendKeeps(s, step);
    case DeliverRequest(q, via) => DeliverRequestKeeps(s, q, via);
    case DeliverResponse(p) => DeliverResponseKeeps(s, p);
    case TakeResponse(g) => PcKeeps(s, step);
    case ContextEnds(g) => PcKeeps(s, step);
    case PauseEnds(g) => PcKeeps(s, step);
    case OpenComplete(g) => OpenCompleteKeeps(s, g);
    case FinishComplete(n) => FinishKeeps(s, n);
    case TimerFires(n) => QuietKeeps(s, step);
    case StopStep(n) => QuietKeeps(s, step);
  }

  lemma StepTyped(s: Sys, step: Step)
    requires WellTyped(s)
    ensures WellTyped(Next(s, step))
  {
    if IsGoroutine(step) { GoroutineEntries(s, step); } else if step.Act? { ActTyped(s, step); } else { RestTyped(s, step); }
  }

  lemma ActTyped(s: Sys, step: Step)
    requires WellTyped(s) && step.Act?
    ensures WellTyped(Next(s, step))
  {}

  lemma RestTyped(s: Sys, step: Step)
    requires WellTyped(s) && !IsGoroutine(step) && !step.Act?
    ensures WellTyped(Next(s, step))
  {}

  predicate IsGoroutine(step: Step)
  {
    step.RegisterWait? || step.TakeResponse? || step.ContextEnds? || step.PauseEnds? || step.OpenComplete?
  }

  /** The state after a run. */
  function Run(s: Sys, steps: seq<Step>): (s': Sys)
    requires WellTyped(s)
    ensures WellTyped(s')
    decreases |steps|
  {
    if steps == [] then s
    else StepTyped(s, steps[0]); Run(Next(s, steps[0]), steps[1..])
  }

  ghost predicate AllowedRun(s: Sys, steps: seq<Step>)
    requires WellTyped(s)
    decreases |steps|
  {
    steps == [] || (StepTyped(s, steps[0]); Allowed(s, steps[0]) && AllowedRun(Next(s, steps[0]), steps[1..]))
  }

  /** In every interleaving, on any number of nodes, the singleton runs on at most one
      node (active or deactivating) at any time, provided at most one node at a time
      takes itself for the leader, the previous-leader lookup names the runner, a handoff
      gives up on its peer only after that peer has stopped, and the two windows of
      Undisturbed stay unused. */
  lemma {:induction false} SingletonAtMostOne(s: Sys, steps: seq<Step>)
    requires (Init(s) || Inv(s)) && AllowedRun(s, steps)
    ensures AtMostOne(Run(s, steps)) && Inv(Run(s, steps))
    decreases |steps|
  {
    if steps != [] {
      StepKeeps(s, steps[0]);
      SingletonAtMostOne(Next(s, steps[0]), steps[1..]);
    }
  }

  // --- the exact condition of one step ---

  /** The guard under which a step starts the singleton on n. */
  ghost predicate Starts(s: Sys, step: Step, n: NodeId)
    requires WellTyped(s)
  {
    n in s.entries &&
    match step
    case Act(m, p) =>
      && m == n && s.Ready(n) && s.locks[n].isLeader && NoPriorInstance(n, p)
      && (s.entries[n].phase == Idle ||
          (!s.locks[n].rebalance && s.entries[n].phase == Activating && s.entries[n].term != s.locks[n].term.value))
    case FinishComplete(m) =>
      && m == n && n in s.locks && s.locks[n].Finishing? && s.locks[n].g in s.handoffs
      && s.entries[n].phase == Activating && s.entries[n].term == s.handoffs[s.locks[n].g].term == s.locks[n].current
    case _ => false
  }

  /** Exactly when one step keeps the property: whatever it starts, it starts alone. */
  lemma StartExact(s: Sys, step: Step)
    requires WellTyped(s) && AtMostOne(s)
    ensures AtMostOne(Next(s, step)) <==> forall n :: Starts(s, step, n) ==> s.Runners() <= {n}
  {
    StepRunners(s, step);
  }

  lemma StepRunners(s: Sys, step: Step)
    requires WellTyped(s)
    ensures forall n :: Starts(s, step, n) ==> Next(s, step).Runners() == s.Runners() + {n}
    ensures (forall n :: !Starts(s, step, n)) ==> Next(s, step).Runners() <= s.Runners()
  {
    if step.Act? || step.FinishComplete? {
      if step.node in s.entries { LockedRunners(s, step); }
    } else if step.DeliverRequest? || step.TimerFires? || step.StopStep? {
      StoppingRunners(s, step);
    } else {
      OtherRunners(s, step);
    }
  }

  lemma StoppingRunners(s: Sys, step: Step)
    requires WellTyped(s) && (step.DeliverRequest? || step.TimerFires? || step.StopStep?)
    ensures Next(s, step).Runners() <= s.Runners()
  {
    var n := if step.DeliverRequest? then step.req.to else step.node;
    if s.Free(n) {
      var s' := Next(s, step);
      EntryUpdate(s, s', n, s'.entries[n]);
    }
  }

  lemma OtherRunners(s: Sys, step: Step)
    requires WellTyped(s) && !step.Act? && !step.FinishComplete? && !step.DeliverRequest? && !step.TimerFires? && !step.StopStep?
    ensures Next(s, step).entries == s.entries
  {
    if IsGoroutine(step) { GoroutineEntries(s, step); }
  }

  /** Goroutines between their lock regions touch neither entries nor election answers. */
  lemma GoroutineEntries(s: Sys, step: Step)
    requires WellTyped(s) && IsGoroutine(step)
    ensures Next(s, step).entries == s.entries && WellTyped(Next(s, step))
  {
    if step.OpenComplete? { OpenCompleteEntries(s, step.g); }
  }

  lemma OpenCompleteEntries(s: Sys, g: nat)
    requires WellTyped(s)
    ensures Next(s, OpenComplete(g)).entries == s.entries && WellTyped(Next(s, OpenComplete(g)))
  {}

  lemma LockedRunners(s: Sys, step: Step)
    requires WellTyped(s) && (step.Act? || step.FinishComplete?) && step.node in s.entries
    ensures Starts(s, step, step.node) ==> Next(s, step).Runners() == s.Runners() + {step.node}
    ensures !Starts(s, step, step.node) ==> Next(s, step).Runners() <= s.Runners()
  {
    var n, s' := step.node, Next(s, step);
    EntryUpdate(s, s', n, s'.entries[n]);
    if step.Act? { ActEntry(s, n, step.p); } else { FinishEntry(s, n); }
  }

  lemma ActEntry(s: Sys, n: NodeId, p: Prev)
    requires WellTyped(s) && n in s.entries
    ensures var e, e' := s.entries[n], Next(s, Act(n, p)).entries[n];
            (Starts(s, Act(n, p), n) ==> e'.Running()) && (!Starts(s, Act(n, p), n) && e'.Running() ==> e.Running())
  {}

  lemma FinishEntry(s: Sys, n: NodeId)
    requires WellTyped(s) && n in s.entries
    ensures var e, e' := s.entries[n], Next(s, FinishComplete(n)).entries[n];
            (Starts(s, FinishComplete(n), n) ==> e'.Running()) && (!Starts(s, FinishComplete(n), n) && e'.Running() ==> e.Running())
  {}
}
