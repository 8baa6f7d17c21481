/** Consistent-hash placement: which nodes hold a key, and how that changes when a
    node leaves. */
module Placement {
  import opened Basics
  import opened ClusterTypes
  import opened RingMath
  import opened Ring

  lemma {:induction false} FilterAscends(f: VNodePos -> bool, ps: seq<VNodePos>)
    requires Ascending(ps)
    ensures Ascending(Filter(f, ps))
  {
    if ps != [] {
      var init := ps[..|ps| - 1];
      FilterAscends(f, init);
      FilterMembers(f, init);
      forall q | q in Filter(f, init) ensures q.hash < ps[|ps| - 1].hash {
        assert q in init;
      }
    }
  }

  // --- positions and their nodes ---

  function NodesOf(ps: seq<VNodePos>): (ids: seq<NodeId>)
    ensures |ids| == |ps|
  {
    seq(|ps|, i requires 0 <= i < |ps| => ps[i].node)
  }

  function NotNode(x: NodeId): VNodePos -> bool { (p: VNodePos) => p.node != x }
  function NotId(x: NodeId): NodeId -> bool { (id: NodeId) => id != x }

  lemma NodesOfSnoc(ps: seq<VNodePos>, p: VNodePos)
    ensures NodesOf(ps + [p]) == NodesOf(ps) + [p.node]
  {}

  /** Deleting x commutes with taking first occurrences. */
  lemma {:induction false} FirstOccurrencesWithout(ps: seq<VNodePos>, x: NodeId)
    ensures FirstOccurrences(NodesOf(Filter(NotNode(x), ps))) == Filter(NotId(x), FirstOccurrences(NodesOf(ps)))
  {
    if ps != [] {
      var init, last := ps[..|ps| - 1], ps[|ps| - 1];
      assert ps == init + [last];
      FirstOccurrencesWithout(init, x);
      FilterSnoc(NotNode(x), init, last);
      NodesOfSnoc(init, last);
      FirstOccurrencesSnoc(NodesOf(init), last.node);
      FilterSnoc(NotId(x), FirstOccurrences(NodesOf(init)), last.node);
      if last.node != x {
        NodesOfWithout(init, x, last.node);
        NodesOfSnoc(Filter(NotNode(x), init), last);
        FirstOccurrencesSnoc(NodesOf(Filter(NotNode(x), init)), last.node);
      }
    }
  }

  lemma NodesOfWithout(ps: seq<VNodePos>, x: NodeId, id: NodeId)
    requires id != x
    ensures id in NodesOf(Filter(NotNode(x), ps)) <==> id in NodesOf(ps)
  {
    FilterMembers(NotNode(x), ps);
    var kept := Filter(NotNode(x), ps);
    if id in NodesOf(ps) {
      var i :| 0 <= i < |ps| && NodesOf(ps)[i] == id;
      assert ps[i] in kept;
      var j :| 0 <= j < |kept| && kept[j] == ps[i];
      assert NodesOf(kept)[j] == id;
    }
    if id in NodesOf(kept) {
      var j :| 0 <= j < |kept| && NodesOf(kept)[j] == id;
      assert kept[j] in ps;
      var i :| 0 <= i < |ps| && ps[i] == kept[j];
      assert NodesOf(ps)[i] == id;
    }
  }

  // --- the walk ---

  function AtOrAfter(h: nat): VNodePos -> bool { (p: VNodePos) => p.hash >= h }
  function Before(h: nat): VNodePos -> bool { (p: VNodePos) => p.hash < h }

  /** The positions in the order a clockwise walk from hash h meets them. */
  function Clockwise(ps: seq<VNodePos>, h: nat): seq<VNodePos>
  {
    Filter(AtOrAfter(h), ps) + Filter(Before(h), ps)
  }

  lemma ClockwiseIsRotation(ps: seq<VNodePos>, h: nat, idx: nat)
    requires Ascending(ps) && idx <= |ps|
    requires forall i :: 0 <= i < |ps| ==> (ps[i].hash >= h <==> i >= idx)
    ensures Clockwise(ps, h) == ps[idx..] + ps[..idx]
  {
    var a, b := ps[..idx], ps[idx..];
    assert ps == a + b;
    assert (forall p | p in a :: p.hash < h) && (forall p | p in b :: p.hash >= h);
    FilterHalves(a, b, h);
  }

  lemma FilterHalves(a: seq<VNodePos>, b: seq<VNodePos>, h: nat)
    requires (forall p | p in a :: p.hash < h) && (forall p | p in b :: p.hash >= h)
    ensures Clockwise(a + b, h) == b + a
  {
    FilterSides(AtOrAfter(h), a, false, b, true);
    FilterSides(Before(h), a, true, b, false);
  }

  lemma FilterSides<T>(f: T -> bool, a: seq<T>, keepA: bool, b: seq<T>, keepB: bool)
    requires (forall x | x in a :: f(x) == keepA) && (forall x | x in b :: f(x) == keepB)
    ensures Filter(f, a + b) == (if keepA then a else []) + (if keepB then b else [])
  {
    FilterConcat(f, a, b);
    FilterUniform(f, a, keepA);
    FilterUniform(f, b, keepB);
  }

  /** All members in the order in which they become responsible for key. */
  ghost function Preference(t: RingTopology, all: set<NodeId>, key: string): seq<NodeId>
    requires t.Distinct(all)
  {
    FirstOccurrences(NodesOf(Clockwise(t.Positions(all), t.hashKey(key))))
  }

  /** The replicas of key: the head of its preference list. */
  ghost function Replicas(t: RingTopology, all: set<NodeId>, key: string, replication: int): seq<NodeId>
    requires t.Distinct(all)
  {
    var pref := Preference(t, all, key);
    pref[..Min(Max(replication, 1), |pref|)]
  }

  /** Every member occurs in the preference list exactly once. */
  lemma PreferenceIsPermutation(t: RingTopology, all: set<NodeId>, key: string)
    requires t.WellFormed() && t.Distinct(all)
    ensures NoDup(Preference(t, all, key)) && Elements(Preference(t, all, key)) == all
    ensures |Preference(t, all, key)| == |all|
  {
    var ps := t.Positions(all);
    var cw := Clockwise(ps, t.hashKey(key));
    FirstOccurrencesDistinct(NodesOf(cw));
    FilterMembers(AtOrAfter(t.hashKey(key)), ps);
    FilterMembers(Before(t.hashKey(key)), ps);
    forall id ensures id in NodesOf(cw) <==> id in all {
      if id in all {
        var p := t.PosOf(id, 0);
        assert t.IsPosition(all, p);
        assert p in ps;
        assert p in cw;
        var i :| 0 <= i < |cw| && cw[i] == p;
        assert NodesOf(cw)[i] == id;
      }
      if id in NodesOf(cw) {
        var i :| 0 <= i < |cw| && NodesOf(cw)[i] == id;
        assert cw[i] in ps;
      }
    }
    assert Elements(NodesOf(cw)) == all;
    NoDupSize(Preference(t, all, key));
  }

  // --- the order of the walk ---

  /** A clockwise walk from hash h meets p before q. */
  predicate Sooner(h: nat, p: VNodePos, q: VNodePos)
  {
    if p.hash >= h then q.hash < h || p.hash < q.hash else q.hash < h && p.hash < q.hash
  }

  /** Clockwise from the key, some position of a comes before every position of b. */
  ghost predicate Closer(t: RingTopology, key: string, a: NodeId, b: NodeId)
  {
    exists v: nat :: v < t.vnodes && AllLater(t, key, t.PosOf(a, v), b)
  }

  ghost predicate AllLater(t: RingTopology, key: string, p: VNodePos, b: NodeId)
  {
    forall w: nat :: w < t.vnodes ==> Sooner(t.hashKey(key), p, t.PosOf(b, w))
  }

  lemma ClockwiseOrder(ps: seq<VNodePos>, h: nat, i: nat, j: nat)
    requires Ascending(ps) && i < j < |Clockwise(ps, h)|
    ensures Sooner(h, Clockwise(ps, h)[i], Clockwise(ps, h)[j])
  {
    FilterAscends(AtOrAfter(h), ps);
    FilterAscends(Before(h), ps);
    FilterMembers(AtOrAfter(h), ps);
    FilterMembers(Before(h), ps);
    var cw := Clockwise(ps, h);
    var first, rest := Filter(AtOrAfter(h), ps), Filter(Before(h), ps);
    if j < |first| {
      assert cw[i] == first[i] && cw[j] == first[j] && first[i] in first && first[j] in first;
    } else {
      assert cw[j] == rest[j - |first|] && rest[j - |first|] in rest;
      if i < |first| {
        assert cw[i] == first[i] && first[i] in first;
      } else {
        assert cw[i] == rest[i - |first|] && rest[i - |first|] in rest;
      }
    }
  }

  /** The i-th distinct element has an occurrence before every occurrence of the j-th. */
  lemma {:induction false} FirstComesFirst<T>(ids: seq<T>, i: nat, j: nat) returns (k: nat)
    requires i < j < |FirstOccurrences(ids)|
    ensures k < |ids| && ids[k] == FirstOccurrences(ids)[i]
    ensures forall m :: 0 <= m < |ids| && ids[m] == FirstOccurrences(ids)[j] ==> k < m
  {
    var init, last := ids[..|ids| - 1], ids[|ids| - 1];
    FirstOccurrencesDistinct(ids);
    FirstOccurrencesDistinct(init);
    if j < |FirstOccurrences(init)| {
      k := FirstComesFirst(init, i, j);
      assert forall m :: 0 <= m < |ids| - 1 ==> init[m] == ids[m];
    } else {
      assert FirstOccurrences(init)[i] in Elements(init);
      k :| 0 <= k < |init| && init[k] == FirstOccurrences(init)[i];
    }
  }

  /** The preference list is in the order of the nodes' first positions clockwise from the key. */
  lemma PreferenceByDistance(t: RingTopology, all: set<NodeId>, key: string, i: nat, j: nat)
    requires t.WellFormed() && t.Distinct(all) && i < j < |Preference(t, all, key)|
    ensures Closer(t, key, Preference(t, all, key)[i], Preference(t, all, key)[j])
  {
    var h, ps, pref := t.hashKey(key), t.Positions(all), Preference(t, all, key);
    var cw := Clockwise(ps, h);
    var k := FirstComesFirst(NodesOf(cw), i, j);
    WalkMeets(t, all, h, cw[k]);
    var v: nat :| v < t.vnodes && cw[k] == t.PosOf(pref[i], v);
    forall w: nat | w < t.vnodes ensures Sooner(h, cw[k], t.PosOf(pref[j], w)) {
      var q := t.PosOf(pref[j], w);
      PreferenceIsPermutation(t, all, key);
      assert pref[j] in Elements(pref);
      assert t.IsPosition(all, q);
      WalkMeets(t, all, h, q);
      var m :| 0 <= m < |cw| && cw[m] == q;
      assert NodesOf(cw)[m] == pref[j];
      ClockwiseOrder(ps, h, k, m);
    }
    assert AllLater(t, key, t.PosOf(pref[i], v), pref[j]);
  }

  lemma WalkMeets(t: RingTopology, all: set<NodeId>, h: nat, p: VNodePos)
    requires t.Distinct(all)
    ensures p in Clockwise(t.Positions(all), h) <==> t.IsPosition(all, p)
  {
    FilterMembers(AtOrAfter(h), t.Positions(all));
    FilterMembers(Before(h), t.Positions(all));
    assert p in t.Positions(all) <==> t.IsPosition(all, p);
  }

  /** The nodes of out, and no others, are the n members closest to the key, closest first. */
  ghost predicate Closest(t: RingTopology, all: set<NodeId>, key: string, n: nat, out: seq<NodeId>)
  {
    && |out| == Min(n, |all|) && NoDup(out) && Elements(out) <= all
    && (forall i, j :: 0 <= i < j < |out| ==> Closer(t, key, out[i], out[j]))
    && (forall i, b :: 0 <= i < |out| && b in all && b !in out ==> Closer(t, key, out[i], b))
  }

  lemma ReplicasAreClosest(t: RingTopology, all: set<NodeId>, key: string, replication: int)
    requires t.WellFormed() && t.Distinct(all)
    ensures Closest(t, all, key, if replication <= 0 then 1 else replication, Replicas(t, all, key, replication))
  {
    var pref, out := Preference(t, all, key), Replicas(t, all, key, replication);
    PreferenceIsPermutation(t, all, key);
    forall i, j | 0 <= i < j < |out| ensures Closer(t, key, out[i], out[j]) { PreferenceByDistance(t, all, key, i, j); }
    forall i, b | 0 <= i < |out| && b in all && b !in out ensures Closer(t, key, out[i], b) {
      TakeDrop(pref, |out|);
      assert b in Elements(pref);
      var rest := pref[|out|..];
      var j :| 0 <= j < |rest| && rest[j] == b;
      PreferenceByDistance(t, all, key, i, |out| + j);
    }
    forall x | x in Elements(out) ensures x in all { assert x in Elements(pref); }
  }

  /** sort.Search: the least index whose hash is at least h. */
  method SearchPosition(ps: seq<VNodePos>, h: nat) returns (idx: nat)
    requires Ascending(ps)
    ensures idx <= |ps| && forall i :: 0 <= i < |ps| ==> (ps[i].hash >= h <==> i >= idx)
  {
    var lo, hi := 0, |ps|;
    while lo < hi
      invariant 0 <= lo <= hi <= |ps|
      invariant forall i :: 0 <= i < lo ==> ps[i].hash < h
      invariant forall i :: hi <= i < |ps| ==> ps[i].hash >= h
    {
      var mid := lo + (hi - lo) / 2;
      if ps[mid].hash >= h { hi := mid; } else { lo := mid + 1; }
    }
    idx := lo;
  }

  /** Walks clockwise from the key's hash and collects distinct physical nodes. */
  method Responsible(t: RingTopology, key: string, members: seq<NodeMeta>, replication: int) returns (out: seq<NodeId>)
    requires t.WellFormed() && t.Distinct(Ids(members))
    ensures Closest(t, Ids(members), key, if replication <= 0 then 1 else replication, out)
    ensures out == Replicas(t, Ids(members), key, replication) && out <= Preference(t, Ids(members), key)
  {
    var want := if replication <= 0 then 1 else replication;
    ghost var pref := Preference(t, Ids(members), key);
    PreferenceIsPermutation(t, Ids(members), key);
    ReplicasAreClosest(t, Ids(members), key, replication);
    if |members| == 0 {
      assert Ids(members) == {};
      return [];
    }
    var all := set m | m in members :: m.id;
    var rg := t.BuildRingFromNodeSet(all);
    t.PositionsUnique(all, rg.positions, t.Positions(all));
    var h := t.hashKey(key);
    var start := SearchPosition(rg.positions, h);
    ClockwiseIsRotation(rg.positions, h, start);
    out := WalkClockwise(rg.positions, start, want);
  }

  method WalkClockwise(ps: seq<VNodePos>, start: nat, want: nat) returns (out: seq<NodeId>)
    requires start <= |ps|
    ensures var pref := FirstOccurrences(NodesOf(ps[start..] + ps[..start]));
            out == pref[..Min(want, |pref|)]
  {
    var idx := if start >= |ps| then 0 else start;
    ghost var cw := ps[start..] + ps[..start];
    ghost var ids := NodesOf(cw);
    var seen: set<NodeId> := {};
    out := [];
    var i := 0;
    while i < |ps| && |out| < want
      invariant 0 <= i <= |ps| && |out| <= want
      invariant out == FirstOccurrences(ids[..i]) && seen == Elements(ids[..i])
    {
      WrapAround(idx + i, |ps|);
      var pos := ps[(idx + i) % |ps|];
      assert pos == cw[i] && pos.node == ids[i];
      assert ids[..i + 1][..i] == ids[..i] && ids[..i + 1][i] == ids[i];
      ElementsPrefix(ids, i);
      assert pos.node in seen <==> pos.node in ids[..i];
      if pos.node !in seen {
        seen := seen + {pos.node};
        out := out + [pos.node];
      }
      i := i + 1;
    }
    FirstOccurrencesPrefix(ids, i);
    if i == |ps| { assert ids[..i] == ids; }
  }

  // --- stability ---

  lemma PositionsWithout(t: RingTopology, all: set<NodeId>, x: NodeId)
    requires t.Distinct(all)
    ensures t.Positions(all - {x}) == Filter(NotNode(x), t.Positions(all))
  {
    var ps := t.Positions(all);
    var kept := Filter(NotNode(x), ps);
    FilterAscends(NotNode(x), ps);
    FilterMembers(NotNode(x), ps);
    assert t.CoversPositions(all - {x}, kept);
    t.PositionsUnique(all - {x}, kept, t.Positions(all - {x}));
  }

  /** When a node leaves, the preference list of every key loses that node and is
      otherwise unchanged. */
  lemma RemovalDeletes(t: RingTopology, all: set<NodeId>, x: NodeId, key: string)
    requires t.Distinct(all)
    ensures Preference(t, all - {x}, key) == Filter(NotId(x), Preference(t, all, key))
  {
    var ps, h := t.Positions(all), t.hashKey(key);
    PositionsWithout(t, all, x);
    FilterSwap(AtOrAfter(h), NotNode(x), ps);
    FilterSwap(Before(h), NotNode(x), ps);
    FilterConcat(NotNode(x), Filter(AtOrAfter(h), ps), Filter(Before(h), ps));
    FirstOccurrencesWithout(Clockwise(ps, h), x);
  }

  lemma {:induction false} FilterLength(ids: seq<NodeId>, x: NodeId)
    requires NoDup(ids)
    ensures |Filter(NotId(x), ids)| == |ids| - if x in ids then 1 else 0
  {
    if ids != [] {
      var init, last := ids[..|ids| - 1], ids[|ids| - 1];
      FilterLength(init, x);
      assert ids == init + [last];
    }
  }

  /** Replicas that survive keep their role: the old replica list without x is a prefix
      of the new one, which is the old one when x was no replica and otherwise has at
      most one new member. Read backwards, it says that a join only inserts the joiner. */
  lemma SurvivorsStay(t: RingTopology, all: set<NodeId>, x: NodeId, key: string, replication: int)
    requires t.WellFormed() && t.Distinct(all) && x in all
    ensures var old', new' := Replicas(t, all, key, replication), Replicas(t, all - {x}, key, replication);
            && Filter(NotId(x), old') <= new'
            && (x !in old' ==> new' == old')
            && |new'| <= |Filter(NotId(x), old')| + 1
  {
    var pref := Preference(t, all, key);
    PreferenceIsPermutation(t, all, key);
    RemovalDeletes(t, all, x, key);
    assert x in pref by { assert x in Elements(pref); }
    PrefixWithout(pref, x, Max(replication, 1));
  }

  lemma PrefixWithout(ids: seq<NodeId>, x: NodeId, want: nat)
    requires NoDup(ids) && x in ids && want >= 1
    ensures var fewer := Filter(NotId(x), ids);
            var old', new' := ids[..Min(want, |ids|)], fewer[..Min(want, |fewer|)];
            && Filter(NotId(x), old') <= new'
            && (x !in old' ==> new' == old')
            && |new'| <= |Filter(NotId(x), old')| + 1
  {
    var k := Min(want, |ids|);
    assert ids == ids[..k] + ids[k..];
    FilterConcat(NotId(x), ids[..k], ids[k..]);
    FilterLength(ids[..k], x);
    FilterLength(ids, x);
    if x !in ids[..k] { FilterUniform(NotId(x), ids[..k], true); }
  }
}
