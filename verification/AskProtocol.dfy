/** Request and reply over all interleavings: any number of askers, any number of
    repliers (which may guess addresses, reply twice or reply late), timeouts and
    cancellations. Each step is one lock region or one channel operation. */
module AskProtocol {
  import opened Basics
  import opened Pid
  import opened AskTables

  datatype Reply = Reply(requestId: string, body: int)

  /** What a responder sends: a reply envelope, or a bare value. */
  datatype Payload = Enveloped(reply: Reply) | Bare(body: int)

  /** Progress of one Ask call. */
  datatype Asker =
    | Allocated               // request id drawn, not yet in the tables
    | Pending                 // waiting on the channel
    | Received(reply: Reply)  // took the reply, tables not yet cleaned
    | GaveUp                  // timeout, cancellation or rejected submit
    | Done(result: Option<Reply>)

  /** A reply between its lock region and its channel send. */
  datatype Replier = Replier(requestId: string, reply: Reply)

  datatype Sys = Sys(
    node: string,
    next: nat,
    tables: Tables,
    askers: map<string, Asker>,
    chans: map<string, seq<Reply>>,  // waitCh, capacity one
    repliers: map<nat, Replier>,
    nextReplier: nat,
    entered: map<string, nat>,       // envelopes ever put into waitCh
    delivered: map<string, nat>,     // replies acked as delivered
    duplicates: nat)                 // times the full-channel branch was taken

  datatype Step =
    | Allocate
    | InsertStep(id: string, target: string)
    | ReplyLock(pid: PID, payload: Payload)
    | ReplySend(r: nat)
    | Receive(id: string)
    | GiveUp(id: string)
    | CloseStep(id: string, target: string, evict: Option<string>)

  /** The namespace tests with which routeAskReply decides to handle a reply itself. */
  predicate HandlesHere(node: string, ns: string)
  {
    && IsAskReplyNamespace(ns)
    && !(node != "" && ns != ASK_REPLY && ns != ASK_REPLY_AT + node)
  }

  function Normalise(payload: Payload, id: string): Reply
  {
    match payload
    case Bare(b) => Reply(id, b)
    case Enveloped(e) => if e.requestId == "" then Reply(id, e.body) else e
  }

  function Count(m: map<string, nat>, id: string): nat
  {
    if id in m then m[id] else 0
  }

  function Next(s: Sys, step: Step): Sys
  {
    match step
    case Allocate =>
      var id := AskId(s.next + 1);
      s.(next := s.next + 1, askers := s.askers[id := Allocated], chans := s.chans[id := []])
    case InsertStep(id, target) =>
      if id in s.askers && s.askers[id] == Allocated then
        s.(askers := s.askers[id := Pending], tables := Insert(s.tables, PendingAsk(id, target, ReplyTo(s.node, id))))
      else s
    case ReplyLock(pid, payload) =>
      if HandlesHere(s.node, pid.namespace) && pid.Key() in s.tables.reply
         && s.tables.reply[pid.Key()] in s.tables.waiting then
        var id := s.tables.reply[pid.Key()];
        s.(tables := Claim(s.tables, pid), nextReplier := s.nextReplier + 1,
           repliers := s.repliers[s.nextReplier := Replier(id, Normalise(payload, id))])
      else s
    case ReplySend(r) =>
      if r in s.repliers then
        var Replier(id, reply) := s.repliers[r];
        var s' := s.(repliers := s.repliers - {r});
        if reply.requestId != id then s'
        else if id in s.chans && s.chans[id] == [] then
          s'.(chans := s.chans[id := [reply]], entered := s.entered[id := Count(s.entered, id) + 1],
              delivered := s.delivered[id := Count(s.delivered, id) + 1])
        else s'.(duplicates := s.duplicates + 1)
      else s
    case Receive(id) =>
      if id in s.askers && s.askers[id] == Pending && id in s.chans && s.chans[id] != [] then
        s.(askers := s.askers[id := Received(s.chans[id][0])], chans := s.chans[id := []])
      else s
    case GiveUp(id) =>
      if id in s.askers && s.askers[id] == Pending then s.(askers := s.askers[id := GaveUp]) else s
    case CloseStep(id, target, evict) =>
      if id in s.askers && (s.askers[id].Received? || s.askers[id].GaveUp?) then
        s.(tables := CloseAndEvict(s.tables, PendingAsk(id, target, ReplyTo(s.node, id)), evict),
           askers := s.askers[id := Done(if s.askers[id].Received? then Some(s.askers[id].reply) else None)])
      else s
  }

  ghost predicate Init(s: Sys)
  {
    && s.tables == Tables(map[], map[], map[]) && s.askers == map[] && s.chans == map[] && s.repliers == map[]
    && s.entered == map[] && s.delivered == map[] && s.duplicates == 0
  }

  // --- the invariant ---

  /** The requests whose answer is between lock region and channel send. */
  function ClaimedIds(repliers: map<nat, Replier>): set<string>
  {
    set r | r in repliers :: repliers[r].requestId
  }

  ghost predicate OneClaimEach(repliers: map<nat, Replier>)
  {
    forall r, q :: r in repliers && q in repliers && repliers[r].requestId == repliers[q].requestId ==> r == q
  }

  lemma ClaimedAdd(m: map<nat, Replier>, k: nat, x: Replier)
    requires k !in m && x.requestId !in ClaimedIds(m) && OneClaimEach(m)
    ensures ClaimedIds(m[k := x]) == ClaimedIds(m) + {x.requestId} && OneClaimEach(m[k := x])
  {
    var m' := m[k := x];
    forall r | r in m ensures m'[r] == m[r] && m[r].requestId in ClaimedIds(m) && m'[r].requestId in ClaimedIds(m') {}
    assert m'[k].requestId in ClaimedIds(m');
  }

  lemma ClaimedDrop(m: map<nat, Replier>, k: nat)
    requires k in m && OneClaimEach(m)
    ensures ClaimedIds(m - {k}) == ClaimedIds(m) - {m[k].requestId} && OneClaimEach(m - {k})
  {
    var m' := m - {k};
    forall r | r in m' ensures m'[r] == m[r] && m'[r].requestId in ClaimedIds(m') {}
  }

  /** The one chance a request has to be answered is in exactly one place: in the tables,
      with one replier, or spent. */
  ghost predicate OnceOnly(id: string, asker: Asker, chan: seq<Reply>, entered: nat, delivered: nat, open: bool, claimed: bool)
  {
    && |chan| <= entered <= 1 && delivered == entered
    && (forall i :: 0 <= i < |chan| ==> chan[i].requestId == id)
    && (open ==> !claimed && entered == 0)
    && (claimed ==> entered == 0)
    && (asker == Allocated ==> !open && !claimed && entered == 0)
    && (asker.Received? ==> asker.reply.requestId == id)
    && (asker.Done? && asker.result.Some? ==> asker.result.value.requestId == id)
  }

  ghost predicate RequestOk(s: Sys, id: string)
    requires id in s.askers
  {
    && id in s.chans
    && OnceOnly(id, s.askers[id], s.chans[id], Count(s.entered, id), Count(s.delivered, id),
                id in s.tables.waiting, id in ClaimedIds(s.repliers))
  }

  /** Everything about request id is as before. */
  ghost predicate Same(s: Sys, s': Sys, id: string)
    requires id in s.askers && id in s'.askers
  {
    && s'.askers[id] == s.askers[id] && (id in s'.chans <==> id in s.chans)
    && (id in s.chans ==> s'.chans[id] == s.chans[id])
    && Count(s'.entered, id) == Count(s.entered, id) && Count(s'.delivered, id) == Count(s.delivered, id)
    && (id in s'.tables.waiting <==> id in s.tables.waiting)
    && (id in ClaimedIds(s'.repliers) <==> id in ClaimedIds(s.repliers))
  }

  ghost predicate RequestsOk(s: Sys)
  {
    forall id {:trigger RequestOk(s, id)} :: id in s.askers ==> RequestOk(s, id)
  }

  /** Only request id changed, and it is still in order. */
  lemma OneRequestChanged(s: Sys, s': Sys, id: string)
    requires RequestsOk(s) && id in s'.askers && s'.askers.Keys == s.askers.Keys + {id}
    requires forall x :: x in s.askers && x != id ==> Same(s, s', x)
    requires RequestOk(s', id)
    ensures RequestsOk(s')
  {
    forall x | x in s'.askers ensures RequestOk(s', x) {
      if x != id { assert RequestOk(s, x) && Same(s, s', x); }
    }
  }

  ghost predicate Rest(s: Sys)
  {
    && (forall id :: id in s.tables.waiting ==> id in s.askers)
    && (forall r :: r in s.repliers ==> r < s.nextReplier && s.repliers[r].requestId in s.askers)
    && OneClaimEach(s.repliers)
    && (forall n: nat :: n > s.next ==> AskId(n) !in s.askers)
    && (forall id :: id !in s.askers ==> Count(s.entered, id) == 0 && Count(s.delivered, id) == 0)
  }

  ghost predicate Inv(s: Sys)
  {
    s.duplicates == 0 && RequestsOk(s) && Rest(s)
  }

  lemma InitInv(s: Sys)
    requires Init(s)
    ensures Inv(s)
  {}

  // --- preservation ---

  lemma AllocateKeeps(s: Sys)
    requires Inv(s)
    ensures Inv(Next(s, Allocate))
  {
    var s' := Next(s, Allocate);
    var id := AskId(s.next + 1);
    assert id !in s.askers;
    forall n: nat | n > s'.next ensures AskId(n) !in s'.askers { AskIdInjective(n, s.next + 1); }
    assert id !in ClaimedIds(s.repliers);
    OneRequestChanged(s, s', id);
  }

  lemma InsertCore(s: Sys, s': Sys, id: string)
    requires Inv(s) && id in s.askers && s.askers[id] == Allocated
    requires s' == s.(tables := s'.tables, askers := s.askers[id := Pending])
    requires s'.tables.waiting.Keys == s.tables.waiting.Keys + {id}
    ensures Inv(s')
  {
    assert RequestOk(s, id);
    OneRequestChanged(s, s', id);
  }

  lemma InsertKeeps(s: Sys, id: string, target: string)
    requires Inv(s)
    ensures Inv(Next(s, InsertStep(id, target)))
  {
    if id in s.askers && s.askers[id] == Allocated { InsertCore(s, Next(s, InsertStep(id, target)), id); }
  }

  lemma LockCore(s: Sys, s': Sys, id: string, reply: Reply)
    requires Inv(s) && id in s.tables.waiting
    requires s' == s.(tables := s'.tables, nextReplier := s.nextReplier + 1,
                      repliers := s.repliers[s.nextReplier := Replier(id, reply)])
    requires s'.tables.waiting == s.tables.waiting - {id}
    ensures Inv(s')
  {
    assert RequestOk(s, id);
    ClaimedAdd(s.repliers, s.nextReplier, Replier(id, reply));
    OneRequestChanged(s, s', id);
  }

  lemma ReplyLockKeeps(s: Sys, pid: PID, payload: Payload)
    requires Inv(s)
    ensures Inv(Next(s, ReplyLock(pid, payload)))
  {
    if HandlesHere(s.node, pid.namespace) && pid.Key() in s.tables.reply && s.tables.reply[pid.Key()] in s.tables.waiting {
      var id := s.tables.reply[pid.Key()];
      LockCore(s, Next(s, ReplyLock(pid, payload)), id, Normalise(payload, id));
    }
  }

  /** The channel of a claimed request is empty, so the reply goes in. */
  lemma ClaimedChannelEmpty(s: Sys, r: nat)
    requires Inv(s) && r in s.repliers
    ensures var id := s.repliers[r].requestId;
            id in s.askers && id in s.chans && s.chans[id] == [] && Count(s.entered, id) == 0 && id !in s.tables.waiting
  {
    var id := s.repliers[r].requestId;
    assert id in ClaimedIds(s.repliers);
    assert RequestOk(s, id);
  }

  /** Only the counters and the channel of id differ. */
  lemma SendCore(s: Sys, s': Sys, r: nat, id: string, sent: seq<Reply>)
    requires Inv(s) && r in s.repliers && s.repliers[r].requestId == id && |sent| <= 1
    requires forall i :: 0 <= i < |sent| ==> sent[i].requestId == id
    requires s' == s.(repliers := s.repliers - {r}, chans := s'.chans, entered := s'.entered, delivered := s'.delivered)
    requires id in s.chans ==> s'.chans == s.chans[id := sent]
    requires sent == [] ==> s'.entered == s.entered && s'.delivered == s.delivered
    requires sent != [] ==> s'.entered == s.entered[id := Count(s.entered, id) + 1]
                            && s'.delivered == s.delivered[id := Count(s.delivered, id) + 1]
    ensures Inv(s')
  {
    ClaimedChannelEmpty(s, r);
    ClaimedDrop(s.repliers, r);
    assert RequestOk(s, id);
    SentInOrder(s, s', id, sent);
    OneRequestChanged(s, s', id);
    SendRest(s, s', r, id);
  }

  lemma SendRest(s: Sys, s': Sys, r: nat, id: string)
    requires Rest(s) && id in s.askers && OneClaimEach(s.repliers - {r})
    requires s' == s.(repliers := s.repliers - {r}, chans := s'.chans, entered := s'.entered, delivered := s'.delivered)
    requires forall x :: x != id ==> Count(s'.entered, x) == Count(s.entered, x) && Count(s'.delivered, x) == Count(s.delivered, x)
    ensures Rest(s')
  {}

  lemma SentInOrder(s: Sys, s': Sys, id: string, sent: seq<Reply>)
    requires id in s.askers && RequestOk(s, id) && |sent| <= 1 && id in ClaimedIds(s.repliers)
    requires forall i :: 0 <= i < |sent| ==> sent[i].requestId == id
    requires s'.askers == s.askers && s'.tables == s.tables && id !in ClaimedIds(s'.repliers)
    requires id in s'.chans && s'.chans[id] == sent
    requires Count(s'.entered, id) == Count(s.entered, id) + |sent| && Count(s'.delivered, id) == Count(s.delivered, id) + |sent|
    ensures RequestOk(s', id)
  {}

  lemma ReplySendKeeps(s: Sys, r: nat)
    requires Inv(s)
    ensures Inv(Next(s, ReplySend(r)))
  {
    if r in s.repliers {
      var Replier(id, reply) := s.repliers[r];
      ClaimedChannelEmpty(s, r);
      var s' := Next(s, ReplySend(r));
      if reply.requestId == id {
        SendCore(s, s', r, id, [reply]);
      } else {
        assert s.chans[id := []] == s.chans;
        SendCore(s, s', r, id, []);
      }
    }
  }

  lemma AskerKeeps(s: Sys, step: Step)
    requires Inv(s) && (step.Receive? || step.GiveUp?)
    ensures Inv(Next(s, step))
  {
    var s' := Next(s, step);
    if s' != s {
      assert RequestOk(s, step.id);
      OneRequestChanged(s, s', step.id);
    }
  }

  /** One asker moves on and its entry, if still open, goes away. */
  lemma CloseCore(s: Sys, s': Sys, id: string)
    requires Inv(s) && id in s.askers && (s.askers[id].Received? || s.askers[id].GaveUp?)
    requires s' == s.(tables := s'.tables, askers := s'.askers)
    requires s'.tables.waiting == s.tables.waiting - {id}
    requires s'.askers == s.askers[id := Done(if s.askers[id].Received? then Some(s.askers[id].reply) else None)]
    ensures Inv(s')
  {
    assert RequestOk(s, id);
    OneRequestChanged(s, s', id);
  }

  lemma CloseKeeps(s: Sys, id: string, target: string, evict: Option<string>)
    requires Inv(s)
    ensures Inv(Next(s, CloseStep(id, target, evict)))
  {
    if id in s.askers && (s.askers[id].Received? || s.askers[id].GaveUp?) {
      CloseCore(s, Next(s, CloseStep(id, target, evict)), id);
    }
  }

  lemma TablesKeep(s: Sys, step: Step)
    requires Inverse(s.node, s.tables)
    ensures Inverse(s.node, Next(s, step).tables)
  {
    match step
    case InsertStep(id, target) => InsertKeepsInverse(s.node, s.tables, PendingAsk(id, target, ReplyTo(s.node, id)));
    case ReplyLock(pid, payload) => if pid.Key() in s.tables.reply { ClaimKeepsInverse(s.node, s.tables, pid); }
    case CloseStep(id, target, evict) => CloseKeepsInverse(s.node, s.tables, PendingAsk(id, target, ReplyTo(s.node, id)));
    case _ =>
  }

  lemma StepKeeps(s: Sys, step: Step)
    requires Inv(s)
    ensures Inv(Next(s, step)) && Next(s, step).node == s.node
  {
    match step
    case Allocate => AllocateKeeps(s);
    case InsertStep(id, target) => InsertKeeps(s, id, target);
    case ReplyLock(pid, payload) => ReplyLockKeeps(s, pid, payload);
    case ReplySend(r) => ReplySendKeeps(s, r);
    case Receive(id) => AskerKeeps(s, step);
    case GiveUp(id) => AskerKeeps(s, step);
    case CloseStep(id, target, evict) => CloseKeeps(s, id, target, evict);
  }

  function Run(s: Sys, steps: seq<Step>): Sys
    decreases |steps|
  {
    if steps == [] then s else Run(Next(s, steps[0]), steps[1..])
  }

  lemma {:induction false} RunKeeps(s: Sys, steps: seq<Step>)
    requires Inv(s) && Inverse(s.node, s.tables)
    ensures Inv(Run(s, steps)) && Inverse(s.node, Run(s, steps).tables) && Run(s, steps).node == s.node
    decreases |steps|
  {
    if steps != [] {
      StepKeeps(s, steps[0]);
      TablesKeep(s, steps[0]);
      RunKeeps(Next(s, steps[0]), steps[1..]);
    }
  }

  /** In every interleaving: the two tables are mutually inverse, at most one envelope
      ever enters a request's channel, the duplicate-reply branch is never taken, at most
      one reply per request is acked as delivered, and a successful Ask returns a reply
      that carries its own request id. */
  lemma AskSafety(s: Sys, steps: seq<Step>)
    requires Init(s)
    ensures var s' := Run(s, steps);
            && Inverse(s'.node, s'.tables)
            && s'.duplicates == 0
            && (forall id :: Count(s'.entered, id) <= 1 && Count(s'.delivered, id) <= 1)
            && (forall id :: id in s'.askers && s'.askers[id].Done? && s'.askers[id].result.Some? ==>
                  s'.askers[id].result.value.requestId == id)
  {
    InitInv(s);
    RunKeeps(s, steps);
    var s' := Run(s, steps);
    forall id | id in s'.askers ensures RequestOk(s', id) {}
  }
}
