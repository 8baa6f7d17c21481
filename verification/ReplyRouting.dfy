/** The way back of an ask reply across nodes: PID send on the replying node, envelope,
    forwarding, dispatch on the asking node, and its ask tables. */
module ReplyRouting {
  import opened Basics
  import opened ClusterTypes
  import opened Pid
  import opened Ring
  import Tables = AskTables
  import Ask = AskProtocol
  import opened Forwarding

  datatype Envelope = Envelope(
    senderNode: NodeId, targetNode: NodeId, targetActorId: string, namespace: string, generation: nat,
    typeName: string, isAsk: bool, askRequestId: string, askReplyTo: Option<PID>, payload: Ask.Payload)

  /** What sendPIDWithSender does with a message. */
  datatype SendDecision = AnswerHere(pid: PID) | SendRemotely(env: Envelope) | ResolveLocally(pid: PID)

  /** What Dispatch does with an inbound envelope. */
  datatype Dispatched =
    | Forward(target: NodeId)
    | SystemHandler(typeName: string)
    | DeliverAsk(actorId: string, requestId: string, replyTo: PID)
    | DeliverReply(pid: PID)
    | DeliverActor(actorId: string)

  /** RemoteSender.Send: the envelope for a PID. */
  function Encode(local: NodeId, pid: PID, typeName: string, payload: Ask.Payload): Envelope
  {
    Envelope(local, NodeIdFromNamespace(pid.namespace), pid.actorId, pid.namespace, pid.generation,
             typeName, false, "", None, payload)
  }

  function SendPID(local: NodeId, pid: PID, typeName: string, payload: Ask.Payload): SendDecision
  {
    if Ask.HandlesHere(local, pid.namespace) then AnswerHere(pid)
    else if pid.IsRemote(local) then SendRemotely(Encode(local, pid, typeName, payload))
    else ResolveLocally(pid)
  }

  function Dispatch(local: NodeId, handlers: set<string>, env: Envelope): Dispatched
  {
    if env.targetNode != "" && env.targetNode != local then Forward(env.targetNode)
    else if env.typeName in handlers then SystemHandler(env.typeName)
    else if env.isAsk && env.askReplyTo.Some? then
      DeliverAsk(env.targetActorId, env.askRequestId, env.askReplyTo.value)
    else if IsAskReplyLocal(env.namespace, local) then
      DeliverReply(PID(env.namespace, env.targetActorId, env.generation))
    else DeliverActor(env.targetActorId)
  }

  /** Only the issuing node answers a reply address itself. */
  lemma HandledOnlyAtHome(home: NodeId, node: NodeId)
    requires home != "" && node != ""
    ensures Ask.HandlesHere(node, ReplyNamespace(home)) <==> node == home
  {
    ReplyNamespaceRoundTrip(home, node);
  }

  /** Exactly when a reply leaves another node for its home: unless that node's own name
      is the reply namespace itself, which IsRemote takes for a local namespace. */
  lemma ReplyLeavesExactly(home: NodeId, node: NodeId, id: string, typeName: string, payload: Ask.Payload)
    requires home != "" && node != "" && node != home
    ensures SendPID(node, ReplyTo(home, id), typeName, payload).SendRemotely? <==> node != ASK_REPLY_AT + home
    ensures node != ASK_REPLY_AT + home ==>
              SendPID(node, ReplyTo(home, id), typeName, payload).env
              == Envelope(node, home, id, ReplyNamespace(home), 1, typeName, false, "", None, payload)
  {
    HandledOnlyAtHome(home, node);
    ReplyNamespaceRoundTrip(home, node);
  }

  /** The failing case: a node named after the namespace keeps the reply. */
  lemma ReplyStuck()
    ensures SendPID("__ask_reply@a", ReplyTo("a", "ask-1"), "T", Ask.Bare(0)).ResolveLocally?
  {
    ReplyLeavesExactly("a", "__ask_reply@a", "ask-1", "T", Ask.Bare(0));
    HandledOnlyAtHome("a", "__ask_reply@a");
  }

  /** A reply sent on any node to an address issued by home travels to home and nowhere
      else: every node before home forwards it, home dispatches it as an ask reply to
      its own tables, and there it meets the entry of its own request or none. */
  lemma ReplyGoesHome(t: RingTopology, all: set<NodeId>, path: seq<NodeId>, home: NodeId, id: string,
                      typeName: string, handlers: set<string>, payload: Ask.Payload, s: Ask.Sys)
    requires t.WellFormed() && t.Distinct(all) && home in all
    requires "" !in all && path != [] && path[0] != ASK_REPLY_AT + home
    requires Path(t, all, home, path) && path[0] != home && path[|path| - 1] == home
    requires typeName !in handlers
    requires s.node == home && Tables.Inverse(home, s.tables)
    ensures var sent := SendPID(path[0], ReplyTo(home, id), typeName, payload);
            && sent.SendRemotely? && sent.env.targetNode == home
            && (forall i :: 0 < i < |path| - 1 ==> Dispatch(path[i], handlers, sent.env) == Forward(home))
            && Dispatch(home, handlers, sent.env) == DeliverReply(ReplyTo(home, id))
    ensures SendPID(home, ReplyTo(home, id), typeName, payload) == AnswerHere(ReplyTo(home, id))
    ensures Tables.Lookup(s.tables, ReplyTo(home, id)) == if id in s.tables.waiting then Some(id) else None
    ensures var s' := Ask.Next(s, Ask.ReplyLock(ReplyTo(home, id), payload));
            && s'.tables.waiting == s.tables.waiting - {id}
            && (id in s.tables.waiting ==>
                  s'.repliers == s.repliers[s.nextReplier := Ask.Replier(id, Ask.Normalise(payload, id))])
            && (id !in s.tables.waiting ==> s' == s)
  {
    ReplyLeavesExactly(home, path[0], id, typeName, payload);
    HandledOnlyAtHome(home, home);
    ReplyNamespaceRoundTrip(home, home);
    Tables.LookupExact(home, s.tables, id, ReplyTo(home, id));
    ForwardingBound(t, all, home, path);
  }
}
