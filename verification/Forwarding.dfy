/** Multi-hop forwarding: SendRemote on every node, chained by Dispatch. */
module Forwarding {
  import opened Basics
  import opened ClusterTypes
  import opened RingMath
  import opened Ring
  import opened RingRouting
  import Membership

  datatype SendResult = Sent(to: NodeId) | ErrSendFailed | ErrNodeUnreachable

  /** The nodes that self should keep connections to. */
  ghost function Links(t: RingTopology, all: set<NodeId>, self: NodeId): set<NodeId>
    requires t.WellFormed() && t.Distinct(all)
  {
    if |all| < 2 then {} else set id | id in all && IsLink(t, all, self, id)
  }

  lemma NextIsLink(t: RingTopology, all: set<NodeId>, self: NodeId, target: NodeId, hop: NodeId)
    requires t.WellFormed() && t.Distinct(all) && |all| >= 2 && self != target && IsRouteHop(t, all, self, target, hop)
    ensures hop in all && hop != self && hop in Links(t, all, self)
  {
    RouteUsesLinks(t, all, self, target, hop);
  }

  lemma LinkIsMember(t: RingTopology, all: set<NodeId>, self: NodeId, id: NodeId)
    requires t.WellFormed() && t.Distinct(all) && IsLink(t, all, self, id)
    ensures id in all && id != self
  {
    var nodes := t.Order(all);
    t.OrderFacts(all, nodes);
    var i, c :| RingIndex(nodes, self, i) && RingIndex(nodes, id, c) && Linked(i, |nodes|, t.fanout, c);
    assert nodes[c] in Elements(nodes);
  }

  lemma StillMissing(links: set<NodeId>, conns: set<NodeId>)
    ensures links - conns == links - conns * links
  {}

  /** The part of a cluster node that sending uses. */
  class ClusterNode {
    const self: NodeMeta
    var conns: set<NodeId>
    var peers: map<NodeId, NodeMeta>
    var dialing: set<NodeId>

    constructor (self: NodeMeta)
      ensures this.self == self && conns == {} && peers == map[] && dialing == {}
    {
      this.self := self;
      conns, peers, dialing := {}, map[], {};
    }

    ghost predicate Valid()
      reads this`peers
    {
      forall id :: id in peers ==> peers[id].id == id
    }

    /** The membership this node routes over: itself and its live peers. */
    ghost function Known(): set<NodeId>
      reads this`peers
    {
      {self.id} + peers.Keys
    }

    /** Self followed by the peers in map order. */
    method MemberList() returns (out: seq<NodeMeta>)
      requires Valid()
      ensures Ids(out) == Known()
    {
      out := [self];
      var todo := peers.Keys;
      while todo != {}
        invariant todo <= peers.Keys
        invariant Ids(out) == Known() - todo + {self.id}
      {
        var id :| id in todo;
        out := out + [peers[id]];
        assert Ids(out) == Ids(out[..|out| - 1]) + {id};
        assert out[..|out| - 1] + [peers[id]] == out;
        todo := todo - {id};
      }
      assert Known() - {} + {self.id} == Known();
    }

    /** Drops a dead connection. */
    method RemoveConnection(id: NodeId)
      modifies this`conns
      ensures conns == old(conns) - {id}
    {
      conns := conns - {id};
    }

    /** Dials a known peer; dialOk is the transport's answer. */
    method EnsureConnection(id: NodeId, dialOk: bool) returns (ok: bool)
      modifies this`conns
      ensures ok <==> id in peers && dialOk
      ensures conns == if ok then old(conns) + {id} else old(conns)
    {
      if id !in peers || !dialOk { return false; }
      conns := conns + {id};
      ok := true;
    }

    /** Sends towards target: on a direct connection if there is one, otherwise to the
        topology's next hop, connecting on demand. A failed write drops the connection. */
    method SendRemote(t: RingTopology, target: NodeId, dialOk: bool, sendOk: bool) returns (r: SendResult)
      requires Valid() && t.WellFormed() && t.Distinct(Known()) && "" !in Known()
      modifies this`conns
      ensures r.Sent? ==> sendOk && r.to in conns
      ensures r.Sent? ==> r.to == target || IsRouteHop(t, Known(), self.id, target, r.to)
      ensures r.ErrSendFailed? ==> !sendOk && exists id :: conns == old(conns) - {id}
      ensures r.ErrNodeUnreachable? ==> conns == old(conns) && target !in conns
      ensures target in old(conns) ==> r == if sendOk then Sent(target) else ErrSendFailed
      ensures target in Known() && target != self.id && dialOk && sendOk ==> r.Sent?
      ensures Links(t, Known(), self.id) <= old(conns) && target in Known() && target != self.id && sendOk ==>
                r.Sent? && conns == old(conns)
    {
      if target in conns {
        if !sendOk { RemoveConnection(target); return ErrSendFailed; }
        return Sent(target);
      }
      var members := MemberList();
      assert t.NodeSet(self.id, members) == Known();
      var hop, ok := Route(t, self.id, target, members);
      if !ok {
        KnownPair(target);
        return ErrNodeUnreachable;
      }
      if target != self.id { NextIsLink(t, Known(), self.id, target, hop); }
      var connected := hop in conns;
      if !connected {
        connected := EnsureConnection(hop, dialOk);
        if !connected { return ErrNodeUnreachable; }
      }
      if !sendOk {
        RemoveConnection(hop);
        assert conns == old(conns) - {hop};
        return ErrSendFailed;
      }
      r := Sent(hop);
    }

    /** Asks the topology what to connect to. */
    method Desired(t: RingTopology) returns (desired: set<NodeId>)
      requires Valid() && t.WellFormed() && t.Distinct(Known())
      ensures desired == Links(t, Known(), self.id) && desired <= peers.Keys
    {
      var members := MemberList();
      assert t.NodeSet(self.id, members) == Known();
      desired := ShouldConnect(t, self.id, members);
      forall id | id in desired ensures id in Links(t, Known(), self.id) && id in peers.Keys { LinkIsMember(t, Known(), self.id, id); }
    }

    /** Starts a dial for every known node that is neither connected nor being dialled. */
    method StartDials(desired: set<NodeId>)
      requires desired <= peers.Keys
      modifies this`dialing
      ensures dialing == old(dialing) + (desired - conns)
    {
      var todo, started := desired, {};
      while todo != {}
        invariant todo <= desired && started == desired - todo - conns && dialing == old(dialing) + started
      {
        var id :| id in todo;
        if id !in conns {
          started := started + {id};
          if id !in dialing && id in peers { dialing := dialing + {id}; }
        }
        todo := todo - {id};
      }
    }

    /** Starts dialling what is missing and closes what is no longer wanted. */
    method ReconcileConnections(t: RingTopology)
      requires Valid() && t.WellFormed() && t.Distinct(Known())
      modifies this`conns, this`dialing
      ensures conns == old(conns) * Links(t, Known(), self.id)
      ensures dialing == old(dialing) + (Links(t, Known(), self.id) - old(conns))
      ensures dialing == old(dialing) + (Links(t, Known(), self.id) - conns)
    {
      var desired := Desired(t);
      StartDials(desired);
      StillMissing(desired, conns);
      conns := conns * desired;
    }

    /** A dial comes back; a connection made in the meantime stays. */
    method DialDone(id: NodeId, ok: bool)
      modifies this`conns, this`dialing
      ensures dialing == old(dialing) - {id} && conns == if ok then old(conns) + {id} else old(conns)
    {
      dialing := dialing - {id};
      if !ok || id in conns { return; }
      conns := conns + {id};
    }

    /** All open dials succeed. */
    method AllDialsSucceed()
      modifies this`conns, this`dialing
      ensures conns == old(conns) + old(dialing) && dialing == {}
    {
      while dialing != {}
        invariant dialing <= old(dialing) && conns == old(conns) + (old(dialing) - dialing)
        decreases |dialing|
      {
        var id :| id in dialing;
        DialDone(id, true);
      }
    }

    /** Once its dials have succeeded a node is connected to exactly the nodes of the
        topology, and to those it was still dialling before. */
    method ConnectsToLinks(t: RingTopology)
      requires Valid() && t.WellFormed() && t.Distinct(Known())
      modifies this`conns, this`dialing
      ensures conns == Links(t, Known(), self.id) + old(dialing)
      ensures conns == Links(t, Known(), self.id) <==> old(dialing) <= Links(t, Known(), self.id)
    {
      ReconcileConnections(t);
      AllDialsSucceed();
    }

    /** A membership event updates the peer table as Replay does, and the connections follow. */
    method HandleMemberEvent(t: RingTopology, ev: MemberEvent)
      requires Valid() && t.WellFormed() && t.Distinct({self.id} + Membership.Handle(peers, ev).Keys)
      modifies this`peers, this`conns, this`dialing
      ensures Valid() && peers == Membership.Handle(old(peers), ev)
      ensures conns == old(conns) * Links(t, Known(), self.id) - (if ev.member.id in peers then {} else {ev.member.id})
      ensures dialing == old(dialing) + (Links(t, Known(), self.id) - conns)
    {
      TakeEvent(ev);
      ReconcileConnections(t);
    }

    method TakeEvent(ev: MemberEvent)
      requires Valid()
      modifies this`peers, this`conns
      ensures Valid() && peers == Membership.Handle(old(peers), ev)
      ensures conns == old(conns) - (if ev.member.id in peers then {} else {ev.member.id})
    {
      if ev.kind == MemberJoin || ev.kind == MemberUpdated {
        peers := peers[ev.member.id := ev.member];
      } else {
        peers := peers - {ev.member.id};
        conns := conns - {ev.member.id};
      }
    }

    lemma KnownPair(target: NodeId)
      ensures target in Known() && target != self.id ==> |Known()| >= 2
    {
      if target in Known() && target != self.id {
        assert {self.id, target} <= Known();
        SubsetSize({self.id, target}, Known());
      }
    }
  }

  /** What one hop may do: reach the target on a direct connection or follow the ring. */
  ghost predicate Hop(t: RingTopology, all: set<NodeId>, target: NodeId, x: NodeId, y: NodeId)
    requires t.WellFormed() && t.Distinct(all)
  {
    y == target || IsRouteHop(t, all, x, target, y)
  }

  /** The nodes an envelope visits: every node but the target forwards it. */
  ghost predicate Path(t: RingTopology, all: set<NodeId>, target: NodeId, p: seq<NodeId>)
    requires t.WellFormed() && t.Distinct(all)
  {
    && p != [] && p[0] in all
    && forall i :: 0 <= i < |p| - 1 ==> p[i] != target && Hop(t, all, target, p[i], p[i + 1])
  }

  lemma RankFacts(t: RingTopology, all: set<NodeId>, target: NodeId, x: NodeId)
    requires t.WellFormed() && t.Distinct(all) && target in all && x in all
    ensures RankTo(t, all, x, target) == 0 <==> x == target
    ensures RankTo(t, all, x, target) <= FloorLog2(|all|) + 2
  {
    var nodes := t.Order(all);
    t.OrderFacts(all, nodes);
    assert x in Elements(nodes) && target in Elements(nodes);
    var i :| 0 <= i < |nodes| && nodes[i] == x;
    var j :| 0 <= j < |nodes| && nodes[j] == target;
    assert RingIndex(nodes, x, i) && RingIndex(nodes, target, j);
    IndexUnique(nodes, x, i);
    IndexUnique(nodes, target, j);
    HopRankBound(RingDistance(i, j, |nodes|), |all|);
  }

  lemma HopDescends(t: RingTopology, all: set<NodeId>, target: NodeId, x: NodeId, y: NodeId)
    requires t.WellFormed() && t.Distinct(all) && target in all && x in all && x != target
    requires Hop(t, all, target, x, y)
    ensures y in all && RankTo(t, all, y, target) < RankTo(t, all, x, target)
  {
    RankFacts(t, all, target, x);
    if y == target { RankFacts(t, all, target, y); } else { RouteUsesLinks(t, all, x, target, y); }
  }

  lemma {:induction false} PathDescends(t: RingTopology, all: set<NodeId>, target: NodeId, p: seq<NodeId>, i: nat, j: nat)
    requires t.WellFormed() && t.Distinct(all) && target in all && Path(t, all, target, p) && i <= j < |p|
    ensures p[i] in all && p[j] in all
    ensures RankTo(t, all, p[j], target) + (j - i) <= RankTo(t, all, p[i], target)
    decreases j
  {
    if 0 < i == j { PathDescends(t, all, target, p, i - 1, j - 1); HopDescends(t, all, target, p[i - 1], p[i]); }
    if i < j {
      PathDescends(t, all, target, p, i, j - 1);
      HopDescends(t, all, target, p[j - 1], p[j]);
    }
  }

  /** A path from source that has got as far as cur. */
  ghost predicate PathTo(t: RingTopology, all: set<NodeId>, target: NodeId, p: seq<NodeId>, source: NodeId, cur: NodeId)
    requires t.WellFormed() && t.Distinct(all)
  {
    Path(t, all, target, p) && p[0] == source && p[|p| - 1] == cur
  }

  lemma PathExtends(t: RingTopology, all: set<NodeId>, target: NodeId, p: seq<NodeId>, source: NodeId, x: NodeId, y: NodeId)
    requires t.WellFormed() && t.Distinct(all) && PathTo(t, all, target, p, source, x)
    requires x != target && Hop(t, all, target, x, y)
    ensures PathTo(t, all, target, p + [y], source, y)
  {
    var q := p + [y];
    forall i | 0 <= i < |q| - 1 ensures q[i] != target && Hop(t, all, target, q[i], q[i + 1]) {
      assert i < |p| - 1 || q[i] == p[|p| - 1];
    }
  }

  /** Forwarding over one common member set is loop-free and takes at most
      floor(log2 n) + 2 hops, whatever direct connections nodes happen to hold. */
  lemma ForwardingBound(t: RingTopology, all: set<NodeId>, target: NodeId, p: seq<NodeId>)
    requires t.WellFormed() && t.Distinct(all) && target in all && Path(t, all, target, p)
    ensures |p| - 1 <= FloorLog2(|all|) + 2
    ensures NoDup(p) && Elements(p) <= all
  {
    PathDescends(t, all, target, p, 0, |p| - 1);
    RankFacts(t, all, target, p[0]);
    forall i, j | 0 <= i < j < |p| ensures p[i] != p[j] {
      PathDescends(t, all, target, p, i, j);
    }
    forall i | 0 <= i < |p| ensures p[i] in all {
      PathDescends(t, all, target, p, i, i);
    }
  }

  /** A network whose nodes agree on the member set. */
  ghost predicate Agreed(t: RingTopology, all: set<NodeId>, net: map<NodeId, ClusterNode>)
    reads (set id | id in net :: net[id])`peers
  {
    && t.WellFormed() && t.Distinct(all) && "" !in all && net.Keys == all
    && forall id :: id in all ==> net[id].Valid() && net[id].self.id == id && net[id].Known() == all
  }

  /** Every node keeps the connections that the topology asks for. */
  ghost predicate Connected(t: RingTopology, all: set<NodeId>, net: map<NodeId, ClusterNode>)
    requires t.WellFormed() && t.Distinct(all) && net.Keys == all
    reads (set id | id in net :: net[id])`conns
  {
    forall id :: id in all ==> Links(t, all, id) <= net[id].conns
  }

  /** One forwarding step at a node that is not the target. */
  method ForwardOnce(t: RingTopology, all: set<NodeId>, node: ClusterNode, target: NodeId, dialOk: bool) returns (next: NodeId)
    requires t.WellFormed() && t.Distinct(all) && "" !in all && node.Valid() && node.Known() == all
    requires target in all && node.self.id != target && (dialOk || Links(t, all, node.self.id) <= node.conns)
    modifies node`conns
    ensures Links(t, all, node.self.id) <= old(node.conns) ==> node.conns == old(node.conns)
    ensures next in all && Hop(t, all, target, node.self.id, next)
    ensures RankTo(t, all, next, target) < RankTo(t, all, node.self.id, target)
  {
    var r := node.SendRemote(t, target, dialOk, true);
    next := r.to;
    HopDescends(t, all, target, node.self.id, next);
  }

  /** Repeated SendRemote and Dispatch hand the envelope to its target: from any assignment of
      open connections when dials succeed, and on open connections alone, with no dial, when
      every node keeps those of the topology. */
  method Deliver(t: RingTopology, all: set<NodeId>, net: map<NodeId, ClusterNode>, source: NodeId, target: NodeId, dialOk: bool)
    returns (path: seq<NodeId>)
    requires Agreed(t, all, net) && source in all && target in all && (dialOk || Connected(t, all, net))
    modifies (set id | id in net :: net[id])`conns
    ensures Agreed(t, all, net) && (dialOk || Connected(t, all, net))
    ensures PathTo(t, all, target, path, source, target)
    ensures |path| - 1 <= FloorLog2(|all|) + 2 && NoDup(path)
  {
    path := [source];
    var cur := source;
    while cur != target
      invariant Agreed(t, all, net) && cur in all && (dialOk || Connected(t, all, net))
      invariant PathTo(t, all, target, path, source, cur)
      decreases RankTo(t, all, cur, target)
    {
      var next := ForwardOnce(t, all, net[cur], target, dialOk);
      PathExtends(t, all, target, path, source, cur, next);
      cur, path := next, path + [next];
    }
    ForwardingBound(t, all, target, path);
  }
}
