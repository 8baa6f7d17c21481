/** Construction of the consistent-hash ring from a membership list. */
module Ring {
  import opened Basics
  import opened ClusterTypes

  datatype VNodePos = VNodePos(hash: nat, node: NodeId)

  /** The internal ring representation: physical nodes by primary hash, all
      virtual positions by hash, and the inverse index of `nodes`. */
  datatype RingView = RingView(nodes: seq<NodeId>, positions: seq<VNodePos>, nodeIndex: map<NodeId, nat>)
  {
    function IndexOf(id: NodeId): int
    {
      if id in nodeIndex then nodeIndex[id] else -1
    }
  }

  ghost predicate Ascending(ps: seq<VNodePos>)
  {
    forall i, j :: 0 <= i < j < |ps| ==> ps[i].hash < ps[j].hash
  }

  ghost predicate DistinctHashes(ps: seq<VNodePos>)
  {
    forall i, j :: 0 <= i < j < |ps| ==> ps[i].hash != ps[j].hash
  }

  // --- sorting by hash ---

  function InsertByHash(p: VNodePos, ps: seq<VNodePos>): seq<VNodePos>
  {
    if ps == [] then [p]
    else if p.hash <= ps[0].hash then [p] + ps
    else [ps[0]] + InsertByHash(p, ps[1..])
  }

  function SortByHash(ps: seq<VNodePos>): seq<VNodePos>
  {
    if ps == [] then [] else InsertByHash(ps[0], SortByHash(ps[1..]))
  }

  lemma {:induction false} InsertByHashAscends(p: VNodePos, ps: seq<VNodePos>)
    requires Ascending(ps) && forall q | q in ps :: q.hash != p.hash
    ensures Ascending(InsertByHash(p, ps))
    ensures Elements(InsertByHash(p, ps)) == Elements(ps) + {p}
  {
    if ps != [] && p.hash > ps[0].hash {
      var rest := InsertByHash(p, ps[1..]);
      InsertByHashAscends(p, ps[1..]);
      assert Elements(ps) == Elements(ps[1..]) + {ps[0]};
      forall q | q in rest ensures ps[0].hash < q.hash {
        assert q in Elements(rest);
      }
      assert Elements([ps[0]] + rest) == Elements(rest) + {ps[0]};
    }
  }

  /** With distinct hashes there is exactly one way to sort, so ties never arise. */
  lemma {:induction false} SortByHashAscends(ps: seq<VNodePos>)
    requires DistinctHashes(ps)
    ensures Ascending(SortByHash(ps)) && Elements(SortByHash(ps)) == Elements(ps)
  {
    if ps != [] {
      SortByHashAscends(ps[1..]);
      forall q | q in SortByHash(ps[1..]) ensures q.hash != ps[0].hash {
        assert q in Elements(ps[1..]);
      }
      InsertByHashAscends(ps[0], SortByHash(ps[1..]));
      assert Elements(ps) == Elements(ps[1..]) + {ps[0]};
    }
  }

  /** Two ascending sequences with the same elements are the same sequence. */
  lemma {:induction false} AscendingUnique(a: seq<VNodePos>, b: seq<VNodePos>)
    requires Ascending(a) && Ascending(b) && Elements(a) == Elements(b)
    ensures a == b
  {
    EmptyElements(a);
    EmptyElements(b);
    if a != [] {
      assert a[0] in Elements(b);
      assert b[0] in Elements(a);
      assert a[0] == b[0];
      forall p ensures p in Elements(a[1..]) <==> p in Elements(b[1..]) {
        assert p in Elements(a[1..]) <==> p in Elements(a) && p != a[0];
        assert p in Elements(b[1..]) <==> p in Elements(b) && p != b[0];
      }
      AscendingUnique(a[1..], b[1..]);
    }
  }

  /** The hash is a parameter: only its distinctness on the members in play is used. */
  datatype RingTopology = RingTopology(fanout: nat, vnodes: nat, hashVNode: (NodeId, nat) -> nat, hashKey: string -> nat)
  {
    ghost predicate WellFormed() { fanout >= 1 && vnodes >= 1 }

    function PosOf(id: NodeId, v: nat): VNodePos { VNodePos(hashVNode(id, v), id) }

    ghost predicate Distinct(all: set<NodeId>)
    {
      forall a, b, v: nat, w: nat | a in all && b in all && v < vnodes && w < vnodes ::
        PosOf(a, v).hash == PosOf(b, w).hash ==> a == b && v == w
    }

    /** The virtual positions of a set of nodes. */
    ghost predicate IsPosition(all: set<NodeId>, p: VNodePos)
    {
      p.node in all && exists v: nat :: v < vnodes && p == PosOf(p.node, v)
    }

    ghost predicate CoversPositions(all: set<NodeId>, ps: seq<VNodePos>)
    {
      forall p :: p in ps <==> IsPosition(all, p)
    }

    function Primary(nodes: seq<NodeId>): (ps: seq<VNodePos>)
      ensures |ps| == |nodes|
    {
      seq(|nodes|, i requires 0 <= i < |nodes| => PosOf(nodes[i], 0))
    }

    /** nodes lists the set all in strictly increasing primary-hash order. */
    ghost predicate IsOrder(all: set<NodeId>, nodes: seq<NodeId>)
    {
      Elements(nodes) == all && Ascending(Primary(nodes))
    }

    ghost predicate IsRing(all: set<NodeId>, rg: RingView)
    {
      && IsOrder(all, rg.nodes)
      && IsPositions(all, rg.positions)
      && rg.nodeIndex.Keys == all
      && forall i :: 0 <= i < |rg.nodes| ==> rg.nodeIndex[rg.nodes[i]] == i
    }

    lemma OrderFacts(all: set<NodeId>, nodes: seq<NodeId>)
      requires IsOrder(all, nodes)
      ensures NoDup(nodes) && |nodes| == |all|
    {
      forall i, j | 0 <= i < j < |nodes| ensures nodes[i] != nodes[j] {
        assert Primary(nodes)[i].hash < Primary(nodes)[j].hash;
      }
      NoDupSize(nodes);
    }

    lemma OrderUnique(all: set<NodeId>, a: seq<NodeId>, b: seq<NodeId>)
      requires IsOrder(all, a) && IsOrder(all, b)
      ensures a == b
    {
      forall p ensures p in Elements(Primary(a)) <==> p in Elements(Primary(b)) {
        PrimaryElement(all, a, p);
        PrimaryElement(all, b, p);
      }
      AscendingUnique(Primary(a), Primary(b));
      forall i | 0 <= i < |a| ensures a[i] == b[i] {
        assert Primary(a)[i].node == Primary(b)[i].node;
      }
      assert |a| == |Primary(a)| == |Primary(b)| == |b|;
    }

    lemma PrimaryElement(all: set<NodeId>, nodes: seq<NodeId>, p: VNodePos)
      requires Elements(nodes) == all
      ensures p in Elements(Primary(nodes)) <==> p.node in all && p == PosOf(p.node, 0)
    {
      if p.node in all && p == PosOf(p.node, 0) {
        assert p.node in nodes;
        var i :| 0 <= i < |nodes| && nodes[i] == p.node;
        assert Primary(nodes)[i] == p;
      }
      if p in Elements(Primary(nodes)) {
        var i :| 0 <= i < |Primary(nodes)| && Primary(nodes)[i] == p;
        assert nodes[i] in Elements(nodes);
      }
    }

    /** Every node that knows the same member set builds the same ring. */
    lemma RingUnique(all: set<NodeId>, a: RingView, b: RingView)
      requires IsRing(all, a) && IsRing(all, b)
      ensures a == b
    {
      OrderUnique(all, a.nodes, b.nodes);
      PositionsUnique(all, a.positions, b.positions);
      forall id | id in all ensures a.nodeIndex[id] == b.nodeIndex[id] {
        assert id in Elements(a.nodes);
      }
    }

    /** The ring order of a member set. */
    ghost function Order(all: set<NodeId>): (nodes: seq<NodeId>)
      requires WellFormed() && Distinct(all)
      ensures IsOrder(all, nodes)
    {
      OrderExists(all);
      var nodes :| IsOrder(all, nodes);
      nodes
    }

    lemma OrderExists(all: set<NodeId>)
      requires WellFormed() && Distinct(all)
      ensures exists nodes :: IsOrder(all, nodes)
    {
      if all == {} {
        assert IsOrder(all, []);
      } else {
        var id := LastByHash(all);
        var rest := all - {id};
        OrderExists(rest);
        var nodes :| IsOrder(rest, nodes);
        var ext := nodes + [id];
        assert Elements(ext) == Elements(nodes) + {id} == all;
        forall i | 0 <= i < |nodes| ensures Primary(ext)[i].hash < PosOf(id, 0).hash {
          assert nodes[i] in Elements(nodes);
          assert Primary(ext)[i] == PosOf(nodes[i], 0) && nodes[i] != id;
        }
        forall i, j | 0 <= i < j < |ext| ensures Primary(ext)[i].hash < Primary(ext)[j].hash {
          if j < |nodes| { assert Primary(ext)[i] == Primary(nodes)[i] && Primary(ext)[j] == Primary(nodes)[j]; }
        }
        assert IsOrder(all, ext);
      }
    }

    lemma LastByHash(all: set<NodeId>) returns (id: NodeId)
      requires all != {}
      ensures id in all && forall x | x in all :: PosOf(x, 0).hash <= PosOf(id, 0).hash
    {
      var id0 :| id0 in all;
      var rest := all - {id0};
      if rest == {} {
        assert all == {id0} + rest;
        id := id0;
      } else {
        var m := LastByHash(rest);
        id := if PosOf(id0, 0).hash < PosOf(m, 0).hash then m else id0;
        assert forall x | x in all :: x == id0 || x in rest;
      }
    }

    ghost predicate IsPositions(all: set<NodeId>, ps: seq<VNodePos>)
    {
      Ascending(ps) && CoversPositions(all, ps)
    }

    lemma PositionsUnique(all: set<NodeId>, a: seq<VNodePos>, b: seq<VNodePos>)
      requires IsPositions(all, a) && IsPositions(all, b)
      ensures a == b
    {
      assert Elements(a) == Elements(b);
      AscendingUnique(a, b);
    }

    /** All virtual positions of a member set in hash order. */
    ghost function Positions(all: set<NodeId>): (ps: seq<VNodePos>)
      requires Distinct(all)
      ensures IsPositions(all, ps)
    {
      PositionsExist(all);
      var ps :| IsPositions(all, ps);
      ps
    }

    lemma PositionsExist(all: set<NodeId>)
      requires Distinct(all)
      ensures exists ps :: IsPositions(all, ps)
    {
      if all == {} {
        assert IsPositions(all, []);
      } else {
        var id :| id in all;
        PositionsExist(all - {id});
        var ps: seq<VNodePos> :| IsPositions(all - {id}, ps);
        var v := 0;
        ghost var before: seq<VNodePos> := ps;
        while v < vnodes
          invariant v <= vnodes && Ascending(ps)
          invariant forall p :: p in ps <==> p in before || (p.node == id && exists w: nat :: w < v && p == PosOf(id, w))
        {
          forall q | q in ps ensures q.hash != PosOf(id, v).hash {
            assert exists w: nat :: w < vnodes && q == PosOf(q.node, w) && (q.node != id || w < v);
          }
          InsertByHashAscends(PosOf(id, v), ps);
          var ps' := InsertByHash(PosOf(id, v), ps);
          forall p ensures p in ps' <==> p in ps || p == PosOf(id, v) {
            assert p in ps' <==> p in Elements(ps');
            assert p in ps <==> p in Elements(ps);
          }
          ps, v := ps', v + 1;
        }
        assert IsPositions(all, ps);
      }
    }

    // --- building ---

    /** The nested loops that append `vnodes` positions for every node, in map order. */
    method CollectPositions(all: set<NodeId>, count: nat) returns (ps: seq<VNodePos>)
      requires count <= vnodes && Distinct(all)
      ensures DistinctHashes(ps)
      ensures forall p :: p in ps <==> p.node in all && exists v: nat :: v < count && p == PosOf(p.node, v)
    {
      ps := [];
      var todo := all;
      while todo != {}
        invariant todo <= all
        invariant DistinctHashes(ps)
        invariant forall p :: p in ps <==> p.node in all - todo && exists v: nat :: v < count && p == PosOf(p.node, v)
      {
        var id :| id in todo;
        ghost var before: seq<VNodePos> := ps;
        var v := 0;
        while v < count
          invariant 0 <= v <= count
          invariant DistinctHashes(ps)
          invariant forall p :: p in ps <==> p in before || (p.node == id && exists w: nat :: w < v && p == PosOf(id, w))
        {
          forall q | q in ps ensures q.hash != PosOf(id, v).hash {
            assert exists w: nat :: w < count && q == PosOf(q.node, w) && (q.node != id || w < v);
          }
          ps := ps + [PosOf(id, v)];
          v := v + 1;
        }
        todo := todo - {id};
      }
    }

    method SortedPositions(all: set<NodeId>, count: nat) returns (ps: seq<VNodePos>)
      requires count <= vnodes && Distinct(all)
      ensures Ascending(ps)
      ensures forall p :: p in ps <==> p.node in all && exists v: nat :: v < count && p == PosOf(p.node, v)
    {
      var unsorted := CollectPositions(all, count);
      SortByHashAscends(unsorted);
      ps := SortByHash(unsorted);
      forall p ensures p in ps <==> p in unsorted {
        assert p in ps <==> p in Elements(ps);
        assert p in unsorted <==> p in Elements(unsorted);
      }
    }

    /** Unpacks the sorted primary positions into the node list and its inverse index. */
    method IndexNodes(sorted: seq<VNodePos>) returns (nodes: seq<NodeId>, nodeIndex: map<NodeId, nat>)
      requires NoDup(seq(|sorted|, i requires 0 <= i < |sorted| => sorted[i].node))
      ensures nodes == seq(|sorted|, i requires 0 <= i < |sorted| => sorted[i].node)
      ensures nodeIndex.Keys == Elements(nodes)
      ensures forall k :: 0 <= k < |nodes| ==> nodeIndex[nodes[k]] == k
    {
      nodes, nodeIndex := [], map[];
      ghost var full := seq(|sorted|, i requires 0 <= i < |sorted| => sorted[i].node);
      for i := 0 to |sorted|
        invariant |nodes| == i && nodes == full[..i]
        invariant nodeIndex.Keys == Elements(nodes)
        invariant forall k :: 0 <= k < i ==> nodeIndex[nodes[k]] == k
      {
        assert full[i] == sorted[i].node;
        nodes := nodes + [sorted[i].node];
        nodeIndex := nodeIndex[sorted[i].node := i];
      }
    }

    lemma PrimaryOrder(all: set<NodeId>, sorted: seq<VNodePos>, nodes: seq<NodeId>)
      requires Ascending(sorted)
      requires forall p :: p in sorted <==> p.node in all && exists v: nat :: v < 1 && p == PosOf(p.node, v)
      requires nodes == seq(|sorted|, i requires 0 <= i < |sorted| => sorted[i].node)
      ensures IsOrder(all, nodes) && NoDup(nodes)
    {
      forall i | 0 <= i < |nodes| ensures Primary(nodes)[i] == sorted[i] && nodes[i] in all {
        assert sorted[i] in sorted;
      }
      assert Primary(nodes) == sorted;
      forall id | id in all ensures id in nodes {
        assert PosOf(id, 0) in sorted;
        var k :| 0 <= k < |sorted| && sorted[k] == PosOf(id, 0);
        assert nodes[k] == id;
      }
      assert Elements(nodes) == all;
      OrderFacts(all, nodes);
    }

    method BuildRingFromNodeSet(all: set<NodeId>) returns (rg: RingView)
      requires WellFormed() && Distinct(all)
      ensures IsRing(all, rg)
    {
      var positions := SortedPositions(all, vnodes);
      assert CoversPositions(all, positions);
      var sorted := SortedPositions(all, 1);
      ghost var order := seq(|sorted|, i requires 0 <= i < |sorted| => sorted[i].node);
      PrimaryOrder(all, sorted, order);
      var nodes, nodeIndex := IndexNodes(sorted);
      rg := RingView(nodes, positions, nodeIndex);
    }

    function NodeSet(self: NodeId, members: seq<NodeMeta>): set<NodeId>
    {
      {self} + Ids(members)
    }

    /** Ring over self and the members, or None for fewer than two nodes. */
    method BuildRing(self: NodeId, members: seq<NodeMeta>) returns (rg: Option<RingView>)
      requires WellFormed() && Distinct(NodeSet(self, members))
      ensures rg.None? <==> |NodeSet(self, members)| < 2
      ensures rg.Some? ==> IsRing(NodeSet(self, members), rg.value)
    {
      var all := {self};
      for i := 0 to |members|
        invariant all == {self} + Ids(members[..i])
      {
        assert members[..i + 1] == members[..i] + [members[i]];
        all := all + {members[i].id};
      }
      assert members[..|members|] == members;
      if |all| < 2 { return None; }
      var r := BuildRingFromNodeSet(all);
      rg := Some(r);
    }
  }
}
