/** Supervision of one actor: what a handler result does to its state. */
module ActorCore {
  import opened Basics

  datatype Decision = DecisionRestart | DecisionStop | DecisionEscalate

  datatype Supervisor = Supervisor(maxRestarts: int, onLimit: Decision)
  {
    function Limit(): nat { if maxRestarts < 0 then 1 else maxRestarts }

    function Decide(restartCount: nat): Decision
    {
      if restartCount < Limit() then DecisionRestart
      else if onLimit == DecisionEscalate then DecisionEscalate
      else DecisionStop
    }
  }

  /** What a handler did: a new state, or an error or panic; after an error, whether the
      start hook of a restart succeeds. */
  datatype Result<V> = Ok(next: V) | Failed(hookOk: bool)

  datatype Status = Running | Stopped

  datatype Core<V> = Core(initial: V, payload: V, revision: nat, restarts: nat, status: Status)

  /** The effect of one handler result. */
  function Apply<V>(sup: Supervisor, c: Core<V>, r: Result<V>): Core<V>
  {
    match r
    case Ok(next) => c.(payload := next, revision := c.revision + 1)
    case Failed(hookOk) =>
      if sup.Decide(c.restarts) == DecisionRestart then
        c.(payload := c.initial, revision := 0, restarts := c.restarts + 1, status := if hookOk then Running else Stopped)
      else c.(status := Stopped)
  }

  function ApplyAll<V>(sup: Supervisor, c: Core<V>, rs: seq<Result<V>>): Core<V>
  {
    if rs == [] then c else Apply(sup, ApplyAll(sup, c, rs[..|rs| - 1]), rs[|rs| - 1])
  }

  /** The result ends the actor: its context is cancelled and its mailbox closed. */
  predicate Terminates<V>(sup: Supervisor, c: Core<V>, r: Result<V>)
  {
    r.Failed? && (sup.Decide(c.restarts) != DecisionRestart || !r.hookOk)
  }

  class ActorInstance<V> {
    const sup: Supervisor
    const initial: V
    var payload: V
    var revision: nat
    var restarts: nat
    var status: Status
    var cancelled: bool
    var lastDecision: Option<Decision>

    constructor (sup: Supervisor, initial: V)
      ensures this.sup == sup && View() == Core(initial, initial, 0, 0, Running) && !cancelled && lastDecision == None
    {
      this.sup, this.initial := sup, initial;
      payload, revision, restarts, status, cancelled, lastDecision := initial, 0, 0, Running, false, None;
    }

    function View(): Core<V>
      reads this
    {
      Core(initial, payload, revision, restarts, status)
    }

    /** The part of processMessage and processBatch that follows the handler call. */
    method Settle(r: Result<V>)
      modifies this
      ensures View() == Apply(sup, old(View()), r)
      ensures cancelled <==> old(cancelled) || Terminates(sup, old(View()), r)
      ensures r.Ok? ==> lastDecision == old(lastDecision)
      ensures r.Failed? ==> lastDecision.Some?
      ensures r.Failed? ==>
                (lastDecision.value == DecisionRestart <==> old(restarts) < (if sup.maxRestarts >= 0 then sup.maxRestarts else 1))
      ensures r.Failed? && lastDecision.value != DecisionRestart ==>
                (lastDecision.value == DecisionEscalate <==> sup.onLimit == DecisionEscalate)
    {
      match r
      case Failed(hookOk) =>
        var decision := sup.Decide(restarts);
        lastDecision := Some(decision);
        match decision {
          case DecisionRestart =>
            restarts := restarts + 1;
            payload, revision := initial, 0;
            if !hookOk {
              status, cancelled := Stopped, true;
            } else {
              status := Running;
            }
          case DecisionEscalate => status, cancelled := Stopped, true;
          case DecisionStop => status, cancelled := Stopped, true;
        }
      case Ok(next) =>
        payload, revision := next, revision + 1;
    }

    /** A batch whose receiver was removed in the meantime is processed message by
        message, without stopping at a stop decision. */
    method SettleEach(rs: seq<Result<V>>)
      modifies this
      ensures View() == ApplyAll(sup, old(View()), rs)
    {
      for i := 0 to |rs|
        invariant View() == ApplyAll(sup, old(View()), rs[..i])
      {
        assert rs[..i + 1][..i] == rs[..i];
        Settle(rs[i]);
      }
      assert rs[..|rs|] == rs;
    }
  }
}
