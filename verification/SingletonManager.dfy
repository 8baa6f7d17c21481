/** One node's lifecycle of one clustered, unplaced singleton: the transitions that
    run under the manager's lock. */
module SingletonManager {
  import opened ClusterTypes

  datatype Phase = Idle | Activating | Active | Deactivating

  datatype Entry = Entry(phase: Phase, term: nat, rebalancing: bool)
  {
    /** The actor exists on this node. */
    predicate Running() { phase == Active || phase == Deactivating }
  }

  /** What findPrevLeader and isRecentlyFailed answer. */
  datatype Prev = Prev(leader: NodeId, failed: bool)

  /** Nothing to hand over from: nobody, ourselves, or a node that crashed. */
  predicate NoPriorInstance(self: NodeId, p: Prev)
  {
    p.leader == "" || p.leader == self || p.failed
  }

  function GainLeadership(e: Entry, self: NodeId, term: nat, p: Prev): (r: (Entry, bool))
  {
    if NoPriorInstance(self, p) then (Entry(Active, term, e.rebalancing), false)
    else if !e.rebalancing then (e, false)
    else (Entry(Activating, term, false), true)
  }

  function Reconcile(e: Entry, self: NodeId, isLeader: bool, term: nat, p: Prev): (r: (Entry, bool))
  {
    match e.phase
    case Active => (e, false)
    case Deactivating => (e, false)
    case Activating =>
      if !isLeader then (e.(phase := Idle), false)
      else if e.term != term then GainLeadership(e, self, term, p)
      else (e, false)
    case Idle => if isLeader then GainLeadership(e, self, term, p) else (e, false)
  }

  function Rebalance(e: Entry, self: NodeId, isLeader: bool, term: nat, p: Prev): (r: (Entry, bool))
  {
    if e.phase == Active && !isLeader then (Entry(Deactivating, term, e.rebalancing), false)
    else if e.phase == Idle && isLeader then GainLeadership(e.(rebalancing := true), self, term, p)
    else (e, false)
  }

  function CompleteActivation(e: Entry, expected: nat, current: nat): Entry
  {
    if e.phase != Activating || e.term != expected then e
    else if current != expected then e.(phase := Idle)
    else e.(phase := Active)
  }

  function OnHandoffRequest(e: Entry): Entry
  {
    if e.Running() then e.(phase := Idle) else e
  }

  function DeactivationTimeout(e: Entry): Entry
  {
    if e.phase == Deactivating then e.(phase := Idle) else e
  }

  function StopManager(e: Entry): Entry
  {
    if e.Running() then e.(phase := Idle) else e
  }

  /** What a manager may do to an entry: start only as a leader with no prior instance, hand
      over only as a leader, and then without running. */
  predicate Cautious(e: Entry, n: NodeId, isLeader: bool, p: Prev, r: (Entry, bool))
  {
    && (r.0.Running() && !e.Running() ==> isLeader && NoPriorInstance(n, p))
    && (r.1 ==> isLeader && !r.0.Running())
  }

  lemma ManagersAreCautious(e: Entry, n: NodeId, isLeader: bool, term: nat, p: Prev)
    ensures Cautious(e, n, isLeader, p, Reconcile(e, n, isLeader, term, p))
    ensures Cautious(e, n, isLeader, p, Rebalance(e, n, isLeader, term, p))
  {}

  /** The mutable singletonState. `live` says that it holds the context of a handoff or of a
      deactivation timer, which cancel would end. */
  class SingletonState {
    const self: NodeId
    var phase: Phase
    var term: nat
    var rebalancing: bool
    var live: bool

    constructor (self: NodeId)
      ensures Valid() && this.self == self && View() == Entry(Idle, 0, false) && !live
    {
      this.self := self;
      phase, term, rebalancing, live := Idle, 0, false, false;
    }

    function View(): Entry
      reads this
    {
      Entry(phase, term, rebalancing)
    }

    /** A deactivating instance has its timer, so it stops even if nobody asks for it. */
    ghost predicate Valid()
      reads this
    {
      phase == Deactivating ==> live
    }

    method Gain(currentTerm: nat, p: Prev) returns (handoff: bool)
      requires phase == Idle || phase == Activating
      modifies this
      ensures Valid()
      ensures (View(), handoff) == GainLeadership(old(View()), self, currentTerm, p)
      ensures handoff ==> live && phase == Activating && !NoPriorInstance(self, p)
    {
      handoff := false;
      if p.leader == "" || p.leader == self || p.failed {
        phase, term := Active, currentTerm;
        return;
      }
      if !rebalancing { return; }
      rebalancing := false;
      phase, term := Activating, currentTerm;
      live, handoff := true, true;
    }

    method DoReconcile(isLeader: bool, currentTerm: nat, p: Prev) returns (handoff: bool)
      requires Valid()
      modifies this
      ensures Valid()
      ensures (View(), handoff) == Reconcile(old(View()), self, isLeader, currentTerm, p)
      ensures old(View()).Running() ==> unchanged(this)
      ensures old(phase) == Activating && !isLeader ==> phase == Idle && !live && !handoff
      ensures isLeader && old(phase) == Idle && NoPriorInstance(self, p) ==> phase == Active && term == currentTerm
      ensures Cautious(old(View()), self, isLeader, p, (View(), handoff))
    {
      handoff := false;
      match phase
      case Active =>
      case Deactivating =>
      case Activating =>
        if !isLeader {
          live := false;
          phase := Idle;
        } else if term != currentTerm {
          live := false;
          handoff := Gain(currentTerm, p);
        }
      case Idle =>
        if isLeader { handoff := Gain(currentTerm, p); }
    }

    method DoRebalance(isLeader: bool, currentTerm: nat, p: Prev) returns (handoff: bool)
      requires Valid()
      modifies this
      ensures Valid()
      ensures (View(), handoff) == Rebalance(old(View()), self, isLeader, currentTerm, p)
      ensures old(phase) == Active && !isLeader ==> phase == Deactivating && term == currentTerm && live
      ensures old(phase) == Idle && isLeader && !NoPriorInstance(self, p) ==> handoff && live && !rebalancing
      ensures (phase == Active && old(phase) == Active) || (old(phase) != Idle && old(phase) != Active) ==> unchanged(this)
      ensures Cautious(old(View()), self, isLeader, p, (View(), handoff))
    {
      handoff := false;
      if phase == Active && !isLeader { Lose(currentTerm); }
      if phase == Idle && isLeader {
        rebalancing := true;
        handoff := Gain(currentTerm, p);
      }
    }

    method Lose(currentTerm: nat)
      requires Valid()
      modifies this
      ensures Valid() && live
      ensures View() == old(View()).(phase := Deactivating, term := currentTerm)
    {
      phase, term, live := Deactivating, currentTerm, true;
    }

    method DoCompleteActivation(expected: nat, current: nat) returns (started: bool)
      requires Valid()
      modifies this
      ensures Valid()
      ensures View() == CompleteActivation(old(View()), expected, current)
      ensures started <==> !old(View()).Running() && View().Running()
    {
      started := false;
      if phase != Activating || term != expected { return; }
      if current != expected { phase := Idle; return; }
      phase, started := Active, true;
    }

    /** The reply says whether an instance was stopped here. */
    method DoHandoffRequest() returns (ok: bool)
      requires Valid()
      modifies this
      ensures Valid()
      ensures View() == OnHandoffRequest(old(View()))
      ensures ok <==> old(View()).Running()
      ensures !View().Running()
    {
      if phase != Active && phase != Deactivating { return false; }
      live, phase, ok := false, Idle, true;
    }

    method DoDeactivationTimeout()
      requires Valid()
      modifies this
      ensures Valid()
      ensures View() == DeactivationTimeout(old(View()))
    {
      if phase != Deactivating { return; }
      phase, live := Idle, false;
    }

    /** Stop cancels the context but leaves an activating entry activating. */
    method DoStop()
      requires Valid()
      modifies this
      ensures Valid()
      ensures View() == StopManager(old(View())) && !live && !View().Running()
    {
      live := false;
      if phase == Active || phase == Deactivating { phase := Idle; }
    }
  }
}
