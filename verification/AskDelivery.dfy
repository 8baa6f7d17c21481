/** Replies arrive: what is sent to the address of a waiting request is what its Ask returns,
    in every interleaving, and an Ask returns nothing else. */
module AskDelivery {
  import opened Basics
  import opened Pid
  import opened AskTables
  import opened AskProtocol

  lemma {:induction false} RunSnoc(s: Sys, steps: seq<Step>, step: Step)
    ensures Run(s, steps + [step]) == Next(Run(s, steps), step)
    decreases |steps|
  {
    if steps == [] {
      assert steps + [step] == [step] && [step][1..] == [];
      assert Run(s, [step]) == Run(Next(s, step), []);
    } else {
      RunSnoc(Next(s, steps[0]), steps[1..], step);
      assert (steps + [step])[0] == steps[0] && (steps + [step])[1..] == steps[1..] + [step];
    }
  }

  // --- a reply on its way ---

  /** Where the reply to id is: with the replier r, in the channel, with the asker, or
      returned. */
  ghost predicate OnItsWay(s: Sys, id: string, r: nat, reply: Reply, stage: nat)
  {
    && id in s.askers && reply.requestId == id && Count(s.delivered, id) == (if stage == 0 then 0 else 1)
    && match stage
       case 0 => r in s.repliers && s.repliers[r] == Replier(id, reply) && s.askers[id] == Pending
       case 1 => id in s.chans && s.chans[id] == [reply] && s.askers[id] == Pending
       case 2 => s.askers[id] == Received(reply)
       case _ => s.askers[id] == Done(Some(reply))
  }

  /** The step with which the reply leaves its stage. */
  ghost predicate Moves(step: Step, id: string, r: nat, stage: nat)
  {
    match stage
    case 0 => step == ReplySend(r)
    case 1 => step == Receive(id)
    case 2 => step.CloseStep? && step.id == id
    case _ => false
  }

  /** Any step but the asker's giving up leaves the reply where it is or moves it on. */
  lemma StaysOrMoves(s: Sys, step: Step, id: string, r: nat, reply: Reply, stage: nat)
    requires Inv(s) && OnItsWay(s, id, r, reply, stage) && stage <= 3 && step != GiveUp(id)
    ensures OnItsWay(Next(s, step), id, r, reply, if Moves(step, id, r, stage) then stage + 1 else stage)
  {
    assert RequestOk(s, id);
    if step.ReplySend? {
      SendMoves(s, step.r, id, r, reply, stage);
    } else if step.ReplyLock? {
      LockStays(s, step, id, r, reply, stage);
    } else if step.Allocate? {
      assert AskId(s.next + 1) !in s.askers;
    }
  }

  lemma SendMoves(s: Sys, q: nat, id: string, r: nat, reply: Reply, stage: nat)
    requires Inv(s) && OnItsWay(s, id, r, reply, stage) && stage <= 3
    ensures OnItsWay(Next(s, ReplySend(q)), id, r, reply, if stage == 0 && q == r then 1 else stage)
  {
    assert RequestOk(s, id);
    if q in s.repliers {
      ClaimedChannelEmpty(s, q);
      assert stage == 0 && q != r ==> s.repliers[q].requestId != id;
    }
  }

  lemma LockStays(s: Sys, step: Step, id: string, r: nat, reply: Reply, stage: nat)
    requires Inv(s) && OnItsWay(s, id, r, reply, stage) && step.ReplyLock?
    ensures OnItsWay(Next(s, step), id, r, reply, stage)
  {
    assert stage == 0 ==> r < s.nextReplier;
  }

  lemma {:induction false} RunStays(s: Sys, steps: seq<Step>, id: string, r: nat, reply: Reply, stage: nat) returns (after: nat)
    requires Inv(s) && OnItsWay(s, id, r, reply, stage) && stage <= 3 && GiveUp(id) !in steps
    ensures stage <= after <= 3 && OnItsWay(Run(s, steps), id, r, reply, after) && Inv(Run(s, steps))
    decreases |steps|
  {
    after := stage;
    if steps != [] {
      StepKeeps(s, steps[0]);
      StaysOrMoves(s, steps[0], id, r, reply, stage);
      assert GiveUp(id) !in steps[1..];
      after := RunStays(Next(s, steps[0]), steps[1..], id, r, reply, if Moves(steps[0], id, r, stage) then stage + 1 else stage);
    }
  }

  lemma {:induction false} RunConcat(s: Sys, a: seq<Step>, b: seq<Step>)
    ensures Run(s, a + b) == Run(Run(s, a), b)
    decreases |b|
  {
    if b == [] {
      assert a + b == a;
    } else {
      var n := |b| - 1;
      assert b == b[..n] + [b[n]] && a + b == (a + b[..n]) + [b[n]];
      RunConcat(s, a, b[..n]);
      RunSnoc(s, a + b[..n], b[n]);
      RunSnoc(Run(s, a), b[..n], b[n]);
    }
  }

  /** After steps and the step that ends the stage at, the reply is past it. */
  lemma Onward(s: Sys, steps: seq<Step>, step: Step, id: string, r: nat, reply: Reply, stage: nat, at: nat) returns (after: nat)
    requires Inv(s) && at <= stage <= 3 && at < 3 && OnItsWay(s, id, r, reply, stage) && GiveUp(id) !in steps && step != GiveUp(id)
    requires Moves(step, id, r, at)
    ensures at < after <= 3 && Inv(Run(s, steps + [step])) && OnItsWay(Run(s, steps + [step]), id, r, reply, after)
  {
    var before := RunStays(s, steps, id, r, reply, stage);
    var s1 := Run(s, steps);
    RunSnoc(s, steps, step);
    StepKeeps(s1, step);
    StaysOrMoves(s1, step, id, r, reply, before);
    after := if Moves(step, id, r, before) then before + 1 else before;
  }

  /** The request waits, and its reply address is one that this node handles. */
  ghost predicate Awaits(s: Sys, id: string)
  {
    && id in s.askers && s.askers[id] == Pending && id in s.tables.waiting
    && Inv(s) && Inverse(s.node, s.tables)
  }

  /** A new request awaits its reply. */
  lemma AskAwaits(s: Sys, target: string)
    requires Inv(s) && Inverse(s.node, s.tables)
    ensures Awaits(Next(Next(s, Allocate), InsertStep(AskId(s.next + 1), target)), AskId(s.next + 1))
  {
    var insert := InsertStep(AskId(s.next + 1), target);
    StepKeeps(s, Allocate);
    StepKeeps(Next(s, Allocate), insert);
    TablesKeep(s, Allocate);
    TablesKeep(Next(s, Allocate), insert);
  }

  /** It goes on waiting until the asker gives up or somebody replies to its address. */
  lemma {:induction false} AwaitsOn(s: Sys, id: string, steps: seq<Step>)
    requires Awaits(s, id) && GiveUp(id) !in steps
    requires forall i :: 0 <= i < |steps| && steps[i].ReplyLock? ==> steps[i].pid.Key() != ReplyTo(s.node, id).Key()
    ensures Awaits(Run(s, steps), id)
    decreases |steps|
  {
    if steps != [] {
      StepKeeps(s, steps[0]);
      TablesKeep(s, steps[0]);
      StillAwaits(s, id, steps[0]);
      assert GiveUp(id) !in steps[1..];
      AwaitsOn(Next(s, steps[0]), id, steps[1..]);
    }
  }

  lemma StillAwaits(s: Sys, id: string, step: Step)
    requires Awaits(s, id) && step != GiveUp(id) && (step.ReplyLock? ==> step.pid.Key() != ReplyTo(s.node, id).Key())
    ensures var s' := Next(s, step); id in s'.askers && s'.askers[id] == Pending && id in s'.tables.waiting
  {
    if step.ReplyLock? {
      OthersClaimed(s, id, step);
    } else if step.CloseStep? {
      OthersClosed(s, id, step);
    } else {
      NothingToReceive(s, id);
      NobodyClaims(s, id, step);
    }
  }

  lemma NobodyClaims(s: Sys, id: string, step: Step)
    requires id in s.askers && s.askers[id] == Pending && id in s.tables.waiting && id in s.chans && s.chans[id] == []
    requires AskId(s.next + 1) != id && step != GiveUp(id) && !step.ReplyLock? && !step.CloseStep?
    ensures var s' := Next(s, step); id in s'.askers && s'.askers[id] == Pending && id in s'.tables.waiting
  {}

  lemma NothingToReceive(s: Sys, id: string)
    requires Awaits(s, id)
    ensures id in s.chans && s.chans[id] == [] && AskId(s.next + 1) != id
  {
    assert RequestOk(s, id);
    assert AskId(s.next + 1) !in s.askers;
  }

  lemma OthersClosed(s: Sys, id: string, step: Step)
    requires id in s.askers && s.askers[id] == Pending && id in s.tables.waiting && step.CloseStep?
    ensures var s' := Next(s, step); id in s'.askers && s'.askers[id] == Pending && id in s'.tables.waiting
  {}

  lemma OthersClaimed(s: Sys, id: string, step: Step)
    requires Awaits(s, id) && step.ReplyLock? && step.pid.Key() != ReplyTo(s.node, id).Key()
    ensures Next(s, step).askers == s.askers && id in Next(s, step).tables.waiting
  {}

  lemma HandlesOwn(node: string, id: string)
    ensures HandlesHere(node, ReplyTo(node, id).namespace)
  {}

  /** The lock region of a reply to a waiting request. */
  lemma ReplyTaken(s: Sys, id: string, payload: Payload, b: int)
    requires Awaits(s, id) && payload in {Bare(b), Enveloped(Reply("", b)), Enveloped(Reply(id, b))}
    ensures OnItsWay(Next(s, ReplyLock(ReplyTo(s.node, id), payload)), id, s.nextReplier, Reply(id, b), 0)
    ensures Inv(Next(s, ReplyLock(ReplyTo(s.node, id), payload)))
  {
    HandlesOwn(s.node, id);
    assert RequestOk(s, id);
    StepKeeps(s, ReplyLock(ReplyTo(s.node, id), payload));
  }

  /** A reply arrives: a bare value, or an envelope with no id or the right one, sent to the
      address of a waiting request, is what Ask returns, once the replier, the asker's receive
      and its clean-up have had their turns, and whatever else happens in between, as long as
      the asker does not give up. */
  lemma ReplyArrives(s: Sys, id: string, payload: Payload, b: int, target: string, evict: Option<string>,
                     u: seq<Step>, v: seq<Step>, w: seq<Step>)
    requires Awaits(s, id) && payload in {Bare(b), Enveloped(Reply("", b)), Enveloped(Reply(id, b))}
    requires GiveUp(id) !in u + v + w
    ensures var s' := Run(s, [ReplyLock(ReplyTo(s.node, id), payload)] + (u + [ReplySend(s.nextReplier)])
                             + (v + [Receive(id)]) + (w + [CloseStep(id, target, evict)]));
            id in s'.askers && s'.askers[id] == Done(Some(Reply(id, b))) && Count(s'.delivered, id) == 1
  {
    var lock, r, reply := ReplyLock(ReplyTo(s.node, id), payload), s.nextReplier, Reply(id, b);
    var x, y, z := u + [ReplySend(r)], v + [Receive(id)], w + [CloseStep(id, target, evict)];
    ReplyTaken(s, id, payload, b);
    var s0 := Next(s, lock);
    RunSnoc(s, [], lock);
    assert [] + [lock] == [lock];
    NotIn(u, v, w, GiveUp(id));
    var i := Onward(s0, u, ReplySend(r), id, r, reply, 0, 0);
    var j := Onward(Run(s0, x), v, Receive(id), id, r, reply, i, 1);
    var k := Onward(Run(Run(s0, x), y), w, CloseStep(id, target, evict), id, r, reply, j, 2);
    RunConcat(s, [lock], x);
    RunConcat(s, [lock] + x, y);
    RunConcat(s, [lock] + x + y, z);
  }

  lemma NotIn(u: seq<Step>, v: seq<Step>, w: seq<Step>, x: Step)
    requires x !in u + v + w
    ensures x !in u && x !in v && x !in w
  {
    assert x in u + v ==> x in u + v + w;
  }

  // --- replies that are lost ---

  /** Nothing that could still be handed to the asker of id. */
  ghost predicate Doomed(s: Sys, id: string)
  {
    && id in s.askers && id !in s.tables.waiting && id in s.chans && s.chans[id] == []
    && s.askers[id] in {Pending, GaveUp, Done(None)}
    && forall r :: r in s.repliers && s.repliers[r].requestId == id ==> s.repliers[r].reply.requestId != id
  }

  lemma StaysDoomed(s: Sys, step: Step, id: string)
    requires Inv(s) && Doomed(s, id)
    ensures Doomed(Next(s, step), id)
  {
    if step.Allocate? {
      assert AskId(s.next + 1) !in s.askers;
    } else if step.ReplySend? && step.r in s.repliers {
      ClaimedChannelEmpty(s, step.r);
    }
  }

  lemma {:induction false} DoomedRun(s: Sys, steps: seq<Step>, id: string)
    requires Inv(s) && Doomed(s, id)
    ensures Doomed(Run(s, steps), id)
    decreases |steps|
  {
    if steps != [] {
      StepKeeps(s, steps[0]);
      StaysDoomed(s, steps[0], id);
      DoomedRun(Next(s, steps[0]), steps[1..], id);
    }
  }

  /** An envelope with the id of another request, sent to the address of a waiting one, uses up
      its only chance: its Ask never returns a reply. */
  lemma MismatchIsLost(s: Sys, id: string, e: Reply, steps: seq<Step>)
    requires Awaits(s, id) && e.requestId != "" && e.requestId != id
    ensures Doomed(Run(s, [ReplyLock(ReplyTo(s.node, id), Enveloped(e))] + steps), id)
  {
    var lock := ReplyLock(ReplyTo(s.node, id), Enveloped(e));
    HandlesOwn(s.node, id);
    assert RequestOk(s, id);
    forall r | r in s.repliers ensures s.repliers[r].requestId != id { assert s.repliers[r].requestId in ClaimedIds(s.repliers); }
    StepKeeps(s, lock);
    DoomedRun(Next(s, lock), steps, id);
    assert ([lock] + steps)[0] == lock && ([lock] + steps)[1..] == steps;
  }

  ghost predicate GivenUp(s: Sys, id: string) { id in s.askers && s.askers[id] in {GaveUp, Done(None)} }

  lemma StaysGivenUp(s: Sys, step: Step, id: string)
    requires Inv(s) && GivenUp(s, id)
    ensures GivenUp(Next(s, step), id)
  {
    if step.Allocate? { assert AskId(s.next + 1) !in s.askers; }
  }

  /** An asker that has given up returns no reply, whoever replies later. */
  lemma {:induction false} GivenUpIsLost(s: Sys, id: string, steps: seq<Step>)
    requires Inv(s) && GivenUp(s, id)
    ensures GivenUp(Run(s, steps), id)
    decreases |steps|
  {
    if steps != [] {
      StepKeeps(s, steps[0]);
      StaysGivenUp(s, steps[0], id);
      GivenUpIsLost(Next(s, steps[0]), id, steps[1..]);
    }
  }

  // --- late replies ---

  /** The request has had its chance, and its record says whom it was for. */
  ghost predicate Recorded(s: Sys, id: string, target: string)
  {
    && id in s.askers && s.askers[id] != Allocated && id !in s.tables.waiting
    && id in s.tables.closed && s.tables.closed[id] == target
  }

  /** The step neither evicts the record nor closes the request as one for somebody else. */
  predicate Spares(step: Step, id: string, target: string)
  {
    step.CloseStep? ==> step.evict != Some(id) && (step.id == id ==> step.target == target)
  }

  lemma StaysRecorded(s: Sys, step: Step, id: string, target: string)
    requires Inv(s) && Recorded(s, id, target) && Spares(step, id, target)
    ensures Recorded(Next(s, step), id, target)
  {
    if step.Allocate? { assert AskId(s.next + 1) !in s.askers; }
  }

  lemma {:induction false} RecordedRun(s: Sys, steps: seq<Step>, id: string, target: string)
    requires Inv(s) && Recorded(s, id, target) && forall i :: 0 <= i < |steps| ==> Spares(steps[i], id, target)
    ensures Recorded(Run(s, steps), id, target)
    decreases |steps|
  {
    if steps != [] {
      StepKeeps(s, steps[0]);
      StaysRecorded(s, steps[0], id, target);
      RecordedRun(Next(s, steps[0]), steps[1..], id, target);
    }
  }

  /** A reply to the address of id claims nothing and is recognised as late. */
  ghost predicate KnownAsLate(s: Sys, id: string, target: string)
  {
    && (forall payload :: Next(s, ReplyLock(ReplyTo(s.node, id), payload)) == s)
    && LateFor(s.tables, ReplyTo(s.node, id)) == Some(target)
  }

  lemma RecordedIsLate(s: Sys, id: string, target: string)
    requires Inverse(s.node, s.tables) && Recorded(s, id, target)
    ensures KnownAsLate(s, id, target)
  {
    LookupExact(s.node, s.tables, id, ReplyTo(s.node, id));
  }

  lemma LateInRun(s: Sys, id: string, target: string, steps: seq<Step>)
    requires Inv(s) && Inverse(s.node, s.tables) && Recorded(s, id, target)
    requires forall i :: 0 <= i < |steps| ==> Spares(steps[i], id, target)
    ensures KnownAsLate(Run(s, steps), id, target)
  {
    RecordedRun(s, steps, id, target);
    RunKeeps(s, steps);
    RecordedIsLate(Run(s, steps), id, target);
  }

  lemma CloseRecords(s: Sys, id: string, target: string)
    requires id in s.askers && (s.askers[id].Received? || s.askers[id] == GaveUp)
    ensures Recorded(Next(s, CloseStep(id, target, None)), id, target)
  {}

  lemma LockRecords(s: Sys, id: string, payload: Payload)
    requires Awaits(s, id)
    ensures Recorded(Next(s, ReplyLock(ReplyTo(s.node, id), payload)), id, s.tables.waiting[id].target)
  {
    HandlesOwn(s.node, id);
  }

  /** A reply after the end of its Ask is recognised as late, until its record is evicted. */
  lemma LateReplyIsKnown(s: Sys, id: string, target: string, steps: seq<Step>)
    requires Inv(s) && Inverse(s.node, s.tables) && id in s.askers && (s.askers[id].Received? || s.askers[id] == GaveUp)
    requires forall i :: 0 <= i < |steps| ==> Spares(steps[i], id, target)
    ensures KnownAsLate(Run(Next(s, CloseStep(id, target, None)), steps), id, target)
  {
    var s' := Next(s, CloseStep(id, target, None));
    StepKeeps(s, CloseStep(id, target, None));
    TablesKeep(s, CloseStep(id, target, None));
    CloseRecords(s, id, target);
    LateInRun(s', id, target, steps);
  }

  /** So is a second reply to one request, from the moment the first has been taken. */
  lemma SecondReplyIsKnown(s: Sys, id: string, payload: Payload, steps: seq<Step>)
    requires Awaits(s, id) && forall i :: 0 <= i < |steps| ==> Spares(steps[i], id, s.tables.waiting[id].target)
    ensures KnownAsLate(Run(Next(s, ReplyLock(ReplyTo(s.node, id), payload)), steps), id, s.tables.waiting[id].target)
  {
    var lock := ReplyLock(ReplyTo(s.node, id), payload);
    StepKeeps(s, lock);
    TablesKeep(s, lock);
    LockRecords(s, id, payload);
    LateInRun(Next(s, lock), id, s.tables.waiting[id].target, steps);
  }

  // --- where a reply comes from ---

  /** The step sends the reply to the address of id: the body as it is, the id where there is
      none. */
  ghost predicate Sends(node: string, step: Step, id: string, reply: Reply)
  {
    && step.ReplyLock? && step.pid.Key() == ReplyTo(node, id).Key()
    && match step.payload
       case Bare(b) => reply == Reply(id, b)
       case Enveloped(e) => reply.body == e.body && reply.requestId == (if e.requestId == "" then id else e.requestId)
  }

  ghost predicate Sent(node: string, steps: seq<Step>, id: string, reply: Reply)
  {
    exists i :: 0 <= i < |steps| && Sends(node, steps[i], id, reply)
  }

  lemma SentBefore(node: string, steps: seq<Step>, step: Step, id: string, reply: Reply)
    ensures Sent(node, steps, id, reply) ==> Sent(node, steps + [step], id, reply)
    ensures Sends(node, step, id, reply) ==> Sent(node, steps + [step], id, reply)
  {
    if i :| 0 <= i < |steps| && Sends(node, steps[i], id, reply) { assert (steps + [step])[i] == steps[i]; }
    assert (steps + [step])[|steps|] == step;
  }

  ghost predicate Held(repliers: map<nat, Replier>, id: string, reply: Reply)
  {
    exists r :: r in repliers && repliers[r] == Replier(id, reply)
  }

  /** The reply is in the channel of id or with its asker. */
  ghost predicate Passed(s: Sys, id: string, reply: Reply)
  {
    || (id in s.chans && reply in s.chans[id])
    || (id in s.askers && s.askers[id] in {Received(reply), Done(Some(reply))})
  }

  ghost predicate Present(s: Sys, id: string, reply: Reply) { Held(s.repliers, id, reply) || Passed(s, id, reply) }

  lemma HeldBefore(s: Sys, step: Step, id: string, reply: Reply)
    requires Inverse(s.node, s.tables) && Held(Next(s, step).repliers, id, reply)
    ensures Held(s.repliers, id, reply) || Sends(s.node, step, id, reply)
  {
    var now := Next(s, step).repliers;
    var r :| r in now && now[r] == Replier(id, reply);
    if r in s.repliers && s.repliers[r] == now[r] {
      assert Held(s.repliers, id, reply);
    } else {
      assert step.ReplyLock?;
      LockSends(s, step, id, reply, r);
    }
  }

  lemma LockSends(s: Sys, step: Step, id: string, reply: Reply, r: nat)
    requires Inverse(s.node, s.tables) && step.ReplyLock?
    requires r in Next(s, step).repliers && Next(s, step).repliers[r] == Replier(id, reply)
    requires !(r in s.repliers && s.repliers[r] == Replier(id, reply))
    ensures Sends(s.node, step, id, reply)
  {}

  lemma PassedBefore(s: Sys, step: Step, id: string, reply: Reply)
    requires Passed(Next(s, step), id, reply)
    ensures Present(s, id, reply)
  {
    if step.ReplySend? && step.r in s.repliers {
      var q := s.repliers[step.r];
      assert Held(s.repliers, q.requestId, q.reply);
    }
  }

  /** A step brings in only the reply it sends. */
  lemma ComesFrom(s: Sys, step: Step, id: string, reply: Reply)
    requires Inverse(s.node, s.tables) && Present(Next(s, step), id, reply)
    ensures Present(s, id, reply) || Sends(s.node, step, id, reply)
  {
    if Held(Next(s, step).repliers, id, reply) { HeldBefore(s, step, id, reply); } else { PassedBefore(s, step, id, reply); }
  }

  lemma {:induction false} AllSent(s: Sys, steps: seq<Step>, id: string, reply: Reply)
    requires Init(s) && Present(Run(s, steps), id, reply)
    ensures Sent(s.node, steps, id, reply)
    decreases |steps|
  {
    if steps != [] {
      var n := |steps| - 1;
      assert steps == steps[..n] + [steps[n]];
      RunSnoc(s, steps[..n], steps[n]);
      InitInv(s);
      RunKeeps(s, steps[..n]);
      ComesFrom(Run(s, steps[..n]), steps[n], id, reply);
      if Present(Run(s, steps[..n]), id, reply) { AllSent(s, steps[..n], id, reply); }
      SentBefore(s.node, steps[..n], steps[n], id, reply);
    }
  }

  /** What an Ask returns was sent in this run to its own reply address, with that body. */
  lemma ResultsWereSent(s: Sys, steps: seq<Step>, id: string)
    requires Init(s) && id in Run(s, steps).askers && Run(s, steps).askers[id].Done? && Run(s, steps).askers[id].result.Some?
    ensures var reply := Run(s, steps).askers[id].result.value;
            reply.requestId == id && Sent(s.node, steps, id, reply)
  {
    AskSafety(s, steps);
    assert Present(Run(s, steps), id, Run(s, steps).askers[id].result.value);
    AllSent(s, steps, id, Run(s, steps).askers[id].result.value);
  }
}
