/** Greedy routing and connection choice on the ring overlay. */
module RingRouting {
  import opened Basics
  import opened ClusterTypes
  import opened RingMath
  import opened Ring

  /** The node at ring index i is linked to the node at index c. */
  ghost predicate Linked(i: int, n: nat, fanout: nat, c: int)
    requires 0 <= i < n
  {
    && 0 <= c < n && c != i
    && (n <= 2 * fanout + 1 || IsCandidate(i, n, fanout, c))
  }

  /** Nodes at jumps 1, 2, 4, ...: no jump ever lands on self or on an earlier finger. */
  method BuildFingers(nodes: seq<NodeId>, selfIdx: nat) returns (fingers: seq<NodeId>)
    requires selfIdx < |nodes| && NoDup(nodes)
    ensures |fingers| == FingerCount(|nodes|)
    ensures forall b: nat :: b < |fingers| ==> fingers[b] == nodes[FingerAt(selfIdx, b, |nodes|)]
  {
    var n := |nodes|;
    fingers := [];
    if n <= 2 { return; }
    assert Pow2(1) == 2;
    var numFingers: int := FloorLog2(n);
    if numFingers < 1 { numFingers := 1; }
    var seen: set<NodeId> := {};
    for i := 0 to numFingers
      invariant |fingers| == i
      invariant forall b: nat :: b < i ==> fingers[b] == nodes[FingerAt(selfIdx, b, n)]
      invariant seen == Elements(fingers)
    {
      var jump := Pow2(i);
      FingersFit(n, i);
      SlotAhead(selfIdx, jump, n);
      var idx := (selfIdx + jump) % n;
      var node := nodes[idx];
      assert idx == FingerAt(selfIdx, i, n);
      forall b: nat | b < i ensures fingers[b] != node { FingersDiffer(selfIdx, b, i, n); }
      if node != nodes[selfIdx] && node !in seen {
        seen := seen + {node};
        fingers := fingers + [node];
      }
    }
  }

  /** What the scan over the candidates has established so far. */
  ghost predicate BestSoFar(nodes: seq<NodeId>, i: int, j: int, fanout: nat, bestHop: NodeId, bestDist: int, best: int)
    requires 0 <= i < |nodes|
  {
    && 0 <= best < |nodes| && bestHop == nodes[best]
    && IsCandidate(i, |nodes|, fanout, best)
    && bestDist == RingDistance(best, j, |nodes|)
  }

  /** The next hop towards target: target itself when it is within fanout clockwise
      places, otherwise the finger or neighbour with the least clockwise distance to it. */
  method Route(t: RingTopology, self: NodeId, target: NodeId, members: seq<NodeMeta>) returns (hop: NodeId, ok: bool)
    requires t.WellFormed() && t.Distinct(t.NodeSet(self, members)) && "" !in t.NodeSet(self, members)
    ensures ok <==> |t.NodeSet(self, members)| >= 2 && target in t.NodeSet(self, members)
    ensures !ok ==> hop == ""
    ensures ok ==> IsRouteHop(t, t.NodeSet(self, members), self, target, hop)
  {
    var built := t.BuildRing(self, members);
    if built.None? { return "", false; }
    var rg := built.value;
    ghost var all := t.NodeSet(self, members);
    t.OrderFacts(all, rg.nodes);
    t.OrderUnique(all, rg.nodes, t.Order(all));
    var targetIdx := rg.IndexOf(target);
    if targetIdx < 0 { return "", false; }
    var selfIdx := rg.IndexOf(self);
    assert self in Elements(rg.nodes) && target in Elements(rg.nodes);
    if selfIdx < 0 { return "", false; }
    var n := |rg.nodes|;
    var dist := RingDistance(selfIdx, targetIdx, n);
    assert RingIndex(rg.nodes, self, selfIdx) && RingIndex(rg.nodes, target, targetIdx);
    if dist <= t.fanout {
      assert IsNextHop(selfIdx, targetIdx, n, t.fanout, targetIdx);
      return target, true;
    }
    ghost var best;
    hop, best := ScanCandidates(rg, t.fanout, selfIdx, targetIdx);
    assert rg.nodes[best] in Elements(rg.nodes);
    ok := hop != "";
    assert RingIndex(rg.nodes, hop, best);
  }

  ghost predicate RingIndex(nodes: seq<NodeId>, id: NodeId, i: int)
  {
    0 <= i < |nodes| && nodes[i] == id
  }

  /** hop is the greedy choice of self for target on the ring of all. */
  ghost predicate IsRouteHop(t: RingTopology, all: set<NodeId>, self: NodeId, target: NodeId, hop: NodeId)
    requires t.WellFormed() && t.Distinct(all)
  {
    var nodes := t.Order(all);
    exists i, j, h :: RingIndex(nodes, self, i) && RingIndex(nodes, target, j) && RingIndex(nodes, hop, h)
                      && IsNextHop(i, j, |nodes|, t.fanout, h)
  }

  /** Indexed lookups on the ring invert the node list. */
  ghost predicate Indexed(rg: RingView)
  {
    && NoDup(rg.nodes) && rg.nodeIndex.Keys == Elements(rg.nodes)
    && forall k :: 0 <= k < |rg.nodes| ==> rg.nodeIndex[rg.nodes[k]] == k
  }

  ghost predicate BeatsFingers(i: int, j: int, n: nat, bestDist: int, upTo: nat)
    requires 0 <= i < n && upTo <= FingerCount(n)
  {
    forall b: nat :: b < upTo ==> bestDist <= RingDistance(FingerAt(i, b, n), j, n)
  }

  ghost predicate BeatsNeighbours(i: int, j: int, n: nat, bestDist: int, upTo: nat)
  {
    forall m: nat, c :: 1 <= m <= upTo && IsNeighbourAt(i, n, m, c) ==> bestDist <= RingDistance(c, j, n)
  }

  method ScanFingers(rg: RingView, fanout: nat, selfIdx: nat, targetIdx: nat)
    returns (bestHop: NodeId, bestDist: int, ghost best: int)
    requires selfIdx < |rg.nodes| && targetIdx < |rg.nodes| && Indexed(rg) && |rg.nodes| > 2
    ensures BestSoFar(rg.nodes, selfIdx, targetIdx, fanout, bestHop, bestDist, best)
    ensures BeatsFingers(selfIdx, targetIdx, |rg.nodes|, bestDist, FingerCount(|rg.nodes|))
  {
    var n := |rg.nodes|;
    var fingers := BuildFingers(rg.nodes, selfIdx);
    bestHop, bestDist, best := "", n, -1;
    for f := 0 to |fingers|
      invariant f > 0 ==> BestSoFar(rg.nodes, selfIdx, targetIdx, fanout, bestHop, bestDist, best)
      invariant f == 0 ==> bestDist == n
      invariant BeatsFingers(selfIdx, targetIdx, n, bestDist, f)
    {
      var fIdx := rg.IndexOf(fingers[f]);
      assert rg.nodes[FingerAt(selfIdx, f, n)] in Elements(rg.nodes);
      assert fIdx == FingerAt(selfIdx, f, n);
      assert IsFinger(selfIdx, n, fIdx);
      if fIdx < 0 { continue; }
      var fToTarget := RingDistance(fIdx, targetIdx, n);
      if fToTarget < bestDist {
        bestDist, bestHop, best := fToTarget, fingers[f], fIdx;
      }
    }
    assert Pow2(1) == 2;
  }

  /** The two candidate loops of Route: fingers first, then neighbours on both sides. */
  method ScanCandidates(rg: RingView, fanout: nat, selfIdx: nat, targetIdx: nat) returns (bestHop: NodeId, ghost best: int)
    requires selfIdx < |rg.nodes| && targetIdx < |rg.nodes| && Indexed(rg)
    requires RingDistance(selfIdx, targetIdx, |rg.nodes|) > fanout >= 1
    ensures RingIndex(rg.nodes, bestHop, best) && IsNextHop(selfIdx, targetIdx, |rg.nodes|, fanout, best)
  {
    var bestDist;
    bestHop, bestDist, best := ScanFingers(rg, fanout, selfIdx, targetIdx);
    for i := 1 to fanout + 1
      invariant BestSoFar(rg.nodes, selfIdx, targetIdx, fanout, bestHop, bestDist, best)
      invariant BeatsFingers(selfIdx, targetIdx, |rg.nodes|, bestDist, FingerCount(|rg.nodes|))
      invariant BeatsNeighbours(selfIdx, targetIdx, |rg.nodes|, bestDist, i - 1)
    {
      ghost var d := bestDist;
      var ahead, behind := NeighboursAt(rg, selfIdx, i);
      bestHop, bestDist, best := TryNeighbour(rg, fanout, selfIdx, targetIdx, i, ahead, bestHop, bestDist, best);
      bestHop, bestDist, best := TryNeighbour(rg, fanout, selfIdx, targetIdx, i, behind, bestHop, bestDist, best);
      BeatsGrow(selfIdx, targetIdx, |rg.nodes|, d, bestDist, i);
    }
    BestIsNextHop(rg.nodes, selfIdx, targetIdx, fanout, bestHop, bestDist, best);
  }

  lemma BeatsGrow(i: int, j: int, n: nat, d: int, d': int, m: nat)
    requires 0 <= i < n && 1 <= m && d' <= d
    requires BeatsFingers(i, j, n, d, FingerCount(n)) && BeatsNeighbours(i, j, n, d, m - 1)
    requires d' <= RingDistance(Ahead(i, m, n), j, n) && d' <= RingDistance(Behind(i, m, n), j, n)
    ensures BeatsFingers(i, j, n, d', FingerCount(n)) && BeatsNeighbours(i, j, n, d', m)
  {
    forall m': nat, c | 1 <= m' <= m && IsNeighbourAt(i, n, m', c) ensures d' <= RingDistance(c, j, n) {}
  }

  lemma BestIsNextHop(nodes: seq<NodeId>, i: int, j: int, fanout: nat, bestHop: NodeId, bestDist: int, best: int)
    requires 0 <= i < |nodes| && RingDistance(i, j, |nodes|) > fanout
    requires BestSoFar(nodes, i, j, fanout, bestHop, bestDist, best)
    requires BeatsFingers(i, j, |nodes|, bestDist, FingerCount(|nodes|))
    requires BeatsNeighbours(i, j, |nodes|, bestDist, fanout)
    ensures IsNextHop(i, j, |nodes|, fanout, best)
  {}

  /** The neighbours i places clockwise and counter-clockwise of self. */
  method NeighboursAt(rg: RingView, selfIdx: nat, i: nat) returns (ahead: NodeId, behind: NodeId)
    requires selfIdx < |rg.nodes| && Indexed(rg) && 1 <= i < |rg.nodes|
    ensures ahead in rg.nodeIndex && rg.nodeIndex[ahead] == Ahead(selfIdx, i, |rg.nodes|)
    ensures behind in rg.nodeIndex && rg.nodeIndex[behind] == Behind(selfIdx, i, |rg.nodes|)
  {
    var n := |rg.nodes|;
    SlotAhead(selfIdx, i, n);
    SlotBehind(selfIdx, i, n);
    ahead := rg.nodes[(selfIdx + i) % n];
    behind := rg.nodes[(selfIdx - i + n) % n];
    assert ahead in Elements(rg.nodes) && behind in Elements(rg.nodes);
  }

  /** One neighbour candidate: it replaces the best hop when it is strictly closer. */
  method TryNeighbour(rg: RingView, fanout: nat, selfIdx: nat, targetIdx: nat, i: nat, neighbour: NodeId,
                      hop: NodeId, dist: int, ghost best: int)
    returns (bestHop: NodeId, bestDist: int, ghost best': int)
    requires selfIdx < |rg.nodes| && targetIdx < |rg.nodes| && Indexed(rg) && 1 <= i <= fanout
    requires neighbour in rg.nodeIndex && IsNeighbourAt(selfIdx, |rg.nodes|, i, rg.nodeIndex[neighbour])
    requires BestSoFar(rg.nodes, selfIdx, targetIdx, fanout, hop, dist, best)
    ensures BestSoFar(rg.nodes, selfIdx, targetIdx, fanout, bestHop, bestDist, best')
    ensures bestDist <= dist && bestDist <= RingDistance(rg.nodeIndex[neighbour], targetIdx, |rg.nodes|)
  {
    var nIdx := rg.IndexOf(neighbour);
    var nToTarget := RingDistance(nIdx, targetIdx, |rg.nodes|);
    bestHop, bestDist, best' := hop, dist, best;
    if nToTarget < dist {
      assert neighbour in Elements(rg.nodes);
      assert IsNeighbour(selfIdx, |rg.nodes|, fanout, nIdx);
      bestHop, bestDist, best' := neighbour, nToTarget, nIdx;
    }
  }

  // --- connections ---

  /** The nodes self keeps connections to: neighbours on both sides and fingers, or
      everybody in a small cluster; never more than 2*fanout + floor(log2 n). */
  method ShouldConnect(t: RingTopology, self: NodeId, members: seq<NodeMeta>) returns (out: set<NodeId>)
    requires t.WellFormed() && t.Distinct(t.NodeSet(self, members))
    ensures var all := t.NodeSet(self, members);
            if |all| < 2 then out == {}
            else
              && (forall id :: id in out <==> IsLink(t, all, self, id))
              && |out| <= 2 * t.fanout + FloorLog2(|all|)
  {
    var built := t.BuildRing(self, members);
    if built.None? { return {}; }
    var rg := built.value;
    ghost var all := t.NodeSet(self, members);
    t.OrderFacts(all, rg.nodes);
    t.OrderUnique(all, rg.nodes, t.Order(all));
    assert self in Elements(rg.nodes);
    var n := |rg.nodes|;
    var selfIdx := rg.IndexOf(self);
    assert RingIndex(rg.nodes, self, selfIdx);
    if n <= 2 * t.fanout + 1 {
      out := Others(rg.nodes, self);
    } else {
      out := CollectTargets(rg, t.fanout, selfIdx);
    }
    forall id ensures id in out <==> IsLink(t, all, self, id) {
      LinkAt(t, all, self, id, selfIdx, rg.nodeIndex);
      if id in all { assert id in Elements(rg.nodes); }
    }
  }

  /** Small clusters: everybody but self. */
  method Others(nodes: seq<NodeId>, self: NodeId) returns (out: set<NodeId>)
    requires self in nodes
    ensures out == Elements(nodes) - {self} && |out| < |nodes|
  {
    out := {};
    ghost var met := false;
    for i := 0 to |nodes|
      invariant out == Elements(nodes[..i]) - {self}
      invariant met <==> self in nodes[..i]
      invariant |out| <= if met then i - 1 else i
    {
      ElementsPrefix(nodes, i);
      if nodes[i] != self { out := out + {nodes[i]}; } else { met := true; }
    }
    assert nodes[..|nodes|] == nodes;
  }

  method AddAll(targets: set<NodeId>, ids: seq<NodeId>) returns (out: set<NodeId>)
    ensures out == targets + Elements(ids) && |out| <= |targets| + |ids|
  {
    out := targets;
    for f := 0 to |ids|
      invariant out == targets + Elements(ids[..f]) && |out| <= |targets| + f
    {
      ElementsPrefix(ids, f);
      out := out + {ids[f]};
    }
    assert ids[..|ids|] == ids;
  }

  ghost predicate IsLink(t: RingTopology, all: set<NodeId>, self: NodeId, id: NodeId)
    requires t.WellFormed() && t.Distinct(all)
  {
    var nodes := t.Order(all);
    exists i, c :: RingIndex(nodes, self, i) && RingIndex(nodes, id, c) && Linked(i, |nodes|, t.fanout, c)
  }

  lemma LinkAt(t: RingTopology, all: set<NodeId>, self: NodeId, id: NodeId, i: int, index: map<NodeId, nat>)
    requires t.WellFormed() && t.Distinct(all) && RingIndex(t.Order(all), self, i)
    requires index.Keys == all && forall k :: 0 <= k < |t.Order(all)| ==> index[t.Order(all)[k]] == k
    ensures IsLink(t, all, self, id) <==> id in all && Linked(i, |t.Order(all)|, t.fanout, index[id])
  {
    var nodes := t.Order(all);
    t.OrderFacts(all, nodes);
    if id in all {
      assert id in Elements(nodes);
      assert RingIndex(nodes, id, index[id]);
    }
    forall c | RingIndex(nodes, id, c) ensures id in all && c == index[id] {
      assert id in Elements(nodes);
    }
  }

  method CollectNeighbours(rg: RingView, fanout: nat, selfIdx: nat) returns (targets: set<NodeId>)
    requires selfIdx < |rg.nodes| && Indexed(rg) && |rg.nodes| > fanout
    ensures forall id :: id in targets <==> id in rg.nodeIndex && IsNeighbour(selfIdx, |rg.nodes|, fanout, rg.nodeIndex[id])
    ensures |targets| <= 2 * fanout
  {
    targets := {};
    for i := 1 to fanout + 1
      invariant |targets| <= 2 * (i - 1)
      invariant forall id :: id in targets <==> id in rg.nodeIndex && IsNeighbour(selfIdx, |rg.nodes|, i - 1, rg.nodeIndex[id])
    {
      var ahead, behind := NeighboursAt(rg, selfIdx, i);
      targets := targets + {ahead} + {behind};
      forall id ensures id in targets <==> id in rg.nodeIndex && IsNeighbour(selfIdx, |rg.nodes|, i, rg.nodeIndex[id]) {
        if id in rg.nodeIndex {
          assert id in Elements(rg.nodes) && ahead in Elements(rg.nodes) && behind in Elements(rg.nodes);
          NeighbourGrows(selfIdx, |rg.nodes|, i, rg.nodeIndex[id]);
          assert IsNeighbourAt(selfIdx, |rg.nodes|, i, rg.nodeIndex[id]) <==> id == ahead || id == behind;
        }
      }
    }
  }

  lemma NeighbourGrows(i: int, n: nat, fanout: nat, c: int)
    requires fanout >= 1
    ensures IsNeighbour(i, n, fanout, c) <==> IsNeighbour(i, n, fanout - 1, c) || IsNeighbourAt(i, n, fanout, c)
  {}

  method CollectTargets(rg: RingView, fanout: nat, selfIdx: nat) returns (targets: set<NodeId>)
    requires selfIdx < |rg.nodes| && Indexed(rg) && |rg.nodes| > 2 * fanout + 1 >= 3
    ensures forall id :: id in targets <==> id in rg.nodeIndex && Linked(selfIdx, |rg.nodes|, fanout, rg.nodeIndex[id])
    ensures |targets| <= 2 * fanout + FloorLog2(|rg.nodes|)
  {
    targets := CollectNeighbours(rg, fanout, selfIdx);
    var fingers := BuildFingers(rg.nodes, selfIdx);
    TargetsAreLinks(rg, fanout, selfIdx, fingers, targets);
    targets := AddAll(targets, fingers);
    targets := targets - {rg.nodes[selfIdx]};
  }

  lemma TargetsAreLinks(rg: RingView, fanout: nat, selfIdx: nat, fingers: seq<NodeId>, neighbours: set<NodeId>)
    requires selfIdx < |rg.nodes| && Indexed(rg) && |rg.nodes| > 2 * fanout + 1 >= 3
    requires |fingers| == FingerCount(|rg.nodes|)
    requires forall b: nat :: b < |fingers| ==> fingers[b] == rg.nodes[FingerAt(selfIdx, b, |rg.nodes|)]
    requires forall id :: id in neighbours <==> id in rg.nodeIndex && IsNeighbour(selfIdx, |rg.nodes|, fanout, rg.nodeIndex[id])
    ensures forall id :: id in neighbours + Elements(fingers) - {rg.nodes[selfIdx]} <==>
                         id in rg.nodeIndex && Linked(selfIdx, |rg.nodes|, fanout, rg.nodeIndex[id])
  {
    FingerElements(rg, selfIdx, fingers);
    forall id | id in rg.nodeIndex ensures rg.nodes[rg.nodeIndex[id]] == id {
      assert id in Elements(rg.nodes);
    }
  }

  lemma FingerElements(rg: RingView, selfIdx: nat, fingers: seq<NodeId>)
    requires selfIdx < |rg.nodes| && Indexed(rg)
    requires |fingers| == FingerCount(|rg.nodes|)
    requires forall b: nat :: b < |fingers| ==> fingers[b] == rg.nodes[FingerAt(selfIdx, b, |rg.nodes|)]
    ensures forall id :: id in fingers <==> id in rg.nodeIndex && IsFinger(selfIdx, |rg.nodes|, rg.nodeIndex[id])
  {
    var n := |rg.nodes|;
    forall id ensures id in fingers <==> id in rg.nodeIndex && IsFinger(selfIdx, n, rg.nodeIndex[id]) {
      if id in fingers {
        var b: nat :| b < |fingers| && fingers[b] == id;
        assert rg.nodes[FingerAt(selfIdx, b, n)] in Elements(rg.nodes);
      }
      if id in rg.nodeIndex && IsFinger(selfIdx, n, rg.nodeIndex[id]) {
        var b: nat :| b < FingerCount(n) && rg.nodeIndex[id] == FingerAt(selfIdx, b, n);
        assert id in Elements(rg.nodes);
        assert fingers[b] == id;
      }
    }
  }

  /** Route never leaves the overlay: its hop is a node self keeps a connection to, is
      not self, and is strictly closer to the target than self. */
  lemma RouteUsesLinks(t: RingTopology, all: set<NodeId>, self: NodeId, target: NodeId, hop: NodeId)
    requires t.WellFormed() && t.Distinct(all) && self != target
    requires IsRouteHop(t, all, self, target, hop)
    ensures hop in all && hop != self && IsLink(t, all, self, hop)
    ensures DistanceTo(t, all, hop, target) < DistanceTo(t, all, self, target)
    ensures RankTo(t, all, hop, target) < RankTo(t, all, self, target)
  {
    var nodes := t.Order(all);
    var n := |nodes|;
    t.OrderFacts(all, nodes);
    var i, j, h :| RingIndex(nodes, self, i) && RingIndex(nodes, target, j) && RingIndex(nodes, hop, h)
                   && IsNextHop(i, j, n, t.fanout, h);
    assert hop in Elements(nodes);
    HopProgress(i, j, n, t.fanout, h);
    HopRankDecreases(i, j, n, t.fanout, h);
    var d := RingDistance(i, j, n);
    if d <= t.fanout {
      assert IsNeighbourAt(i, n, d, h);
      assert IsNeighbour(i, n, t.fanout, h);
    }
    assert Linked(i, n, t.fanout, h);
    IndexUnique(nodes, self, i);
    IndexUnique(nodes, target, j);
    IndexUnique(nodes, hop, h);
  }

  lemma IndexUnique(nodes: seq<NodeId>, id: NodeId, i: int)
    requires NoDup(nodes) && RingIndex(nodes, id, i)
    ensures IndexIn(nodes, id) == i
  {}

  ghost function IndexIn(nodes: seq<NodeId>, id: NodeId): int
  {
    if exists i :: RingIndex(nodes, id, i) then var i :| RingIndex(nodes, id, i); i else 0
  }

  /** Clockwise distance between two members. */
  ghost function DistanceTo(t: RingTopology, all: set<NodeId>, id: NodeId, target: NodeId): int
    requires t.WellFormed() && t.Distinct(all)
  {
    var nodes := t.Order(all);
    RingDistance(IndexIn(nodes, id), IndexIn(nodes, target), |nodes|)
  }

  ghost function RankTo(t: RingTopology, all: set<NodeId>, id: NodeId, target: NodeId): nat
    requires t.WellFormed() && t.Distinct(all)
  {
    var d := DistanceTo(t, all, id, target);
    if d < 0 || all == {} then 0 else HopRank(d, FloorLog2(|all|))
  }
}
