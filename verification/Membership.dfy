/** What a membership provider knows of one node, and the events it emits about it. */
module Membership {
  import opened Basics
  import opened ClusterTypes

  datatype PeerState = PeerState(meta: NodeMeta, alive: bool, misses: nat)

  type Peers = map<NodeId, PeerState>

  /** One look at a node: it answered, it did not, or it was registered by hand. */
  datatype Observation = Seen(meta: NodeMeta) | Missed | Added(meta: NodeMeta)

  /** threshold as configured; updates: whether new tags of a live node are taken over. */
  datatype Config = Config(threshold: int, updates: bool)
  {
    /** Misses it takes to fail: a threshold below one acts as one. */
    function Limit(): nat { if threshold < 1 then 1 else threshold }
  }

  function Joined(meta: NodeMeta): MemberEvent { MemberEvent(MemberJoin, meta) }

  // --- tags ---

  function Lookup(m: map<string, string>, k: string): string { if k in m then m[k] else "" }

  /** The comparison as written: a key absent from b reads as the empty string. */
  predicate TagsEqual(a: map<string, string>, b: map<string, string>)
  {
    |a| == |b| && forall k :: k in a ==> Lookup(b, k) == a[k]
  }

  lemma SameSizeSubset<T>(a: set<T>, b: set<T>)
    requires a <= b && |a| == |b|
    ensures a == b
  {
    assert b == a + (b - a) && |b| == |a| + |b - a|;
  }

  lemma MapSize(m: map<string, string>)
    ensures |m| == |m.Keys|
  {}

  /** A key longer than all others. */
  lemma {:induction false} FreshKey(keys: set<string>) returns (k: string)
    ensures k !in keys && forall x :: x in keys ==> |x| < |k|
    decreases |keys|
  {
    if keys == {} {
      k := "";
    } else {
      var x :| x in keys;
      var k' := FreshKey(keys - {x});
      k := seq(|x| + |k'| + 1, i => 'x');
    }
  }

  /** The comparison is equality for every other tag set just when no tag is empty. */
  lemma TagsEqualExact(a: map<string, string>)
    ensures (forall b :: TagsEqual(a, b) <==> a == b) <==> (forall k :: k in a ==> a[k] != "")
  {
    if forall k :: k in a ==> a[k] != "" {
      forall b ensures TagsEqual(a, b) <==> a == b {
        if TagsEqual(a, b) {
          MapSize(a);
          MapSize(b);
          SameSizeSubset(a.Keys, b.Keys);
        }
      }
    } else {
      var k :| k in a && a[k] == "";
      var other := FreshKey(a.Keys);
      var b := (a - {k})[other := "x"];
      assert b.Keys == a.Keys - {k} + {other};
      MapSize(a);
      MapSize(b);
      assert TagsEqual(a, b) && k !in b;
    }
  }

  // --- one node ---

  /** The provider's reaction to one observation, and what it emits. */
  function Observe(cfg: Config, p: Option<PeerState>, o: Observation): (Option<PeerState>, seq<MemberEvent>)
  {
    match o
    case Seen(meta) =>
      if p.None? || !p.value.alive then (Some(PeerState(meta, true, 0)), [Joined(meta)])
      else if cfg.updates && !TagsEqual(p.value.meta.tags, meta.tags) then
        (Some(PeerState(meta, true, 0)), [MemberEvent(MemberUpdated, meta)])
      else (Some(p.value.(misses := 0)), [])
    case Missed =>
      if p.None? || !p.value.alive then (p, [])
      else if p.value.misses + 1 >= cfg.threshold then
        (Some(p.value.(misses := p.value.misses + 1, alive := false)), [MemberEvent(MemberFailed, p.value.meta)])
      else (Some(p.value.(misses := p.value.misses + 1)), [])
    case Added(meta) =>
      if p.None? then (Some(PeerState(meta, true, 0)), [Joined(meta)]) else (p, [])
  }

  function StateAfter(cfg: Config, obs: seq<Observation>): Option<PeerState>
  {
    if obs == [] then None else Observe(cfg, StateAfter(cfg, obs[..|obs| - 1]), obs[|obs| - 1]).0
  }

  function EventsAfter(cfg: Config, obs: seq<Observation>): seq<MemberEvent>
  {
    if obs == [] then []
    else EventsAfter(cfg, obs[..|obs| - 1]) + Observe(cfg, StateAfter(cfg, obs[..|obs| - 1]), obs[|obs| - 1]).1
  }

  predicate Known(obs: seq<Observation>)
  {
    obs != [] && (!obs[|obs| - 1].Missed? || Known(obs[..|obs| - 1]))
  }

  /** Misses since the node was last seen, counted from when it became known. */
  function MissRun(obs: seq<Observation>): nat
  {
    if obs == [] then 0
    else
      var init := obs[..|obs| - 1];
      match obs[|obs| - 1]
      case Seen(_) => 0
      case Missed => if Known(init) then MissRun(init) + 1 else 0
      case Added(_) => MissRun(init)
  }

  /** A node is alive just while it is known and its run of misses is short of the limit. */
  lemma {:induction false} AliveExact(cfg: Config, obs: seq<Observation>)
    ensures StateAfter(cfg, obs).Some? <==> Known(obs)
    ensures !Known(obs) ==> MissRun(obs) == 0
    ensures Known(obs) ==> (StateAfter(cfg, obs).value.alive <==> MissRun(obs) < cfg.Limit())
    ensures Known(obs) && StateAfter(cfg, obs).value.alive ==> StateAfter(cfg, obs).value.misses == MissRun(obs)
  {
    if obs != [] { AliveExact(cfg, obs[..|obs| - 1]); }
  }

  /** The next observation fails the node just when it is the limit-th miss in a row. */
  lemma FailedExact(cfg: Config, obs: seq<Observation>, o: Observation)
    ensures (exists m :: MemberEvent(MemberFailed, m) in Observe(cfg, StateAfter(cfg, obs), o).1) <==>
            o.Missed? && Known(obs) && MissRun(obs) + 1 == cfg.Limit()
  {
    AliveExact(cfg, obs);
    var evs := Observe(cfg, StateAfter(cfg, obs), o).1;
    if o.Missed? && Known(obs) && MissRun(obs) + 1 == cfg.Limit() {
      assert MemberEvent(MemberFailed, StateAfter(cfg, obs).value.meta) in evs;
    }
  }

  /** The next observation joins the node just when it is new, or answers after having failed. */
  lemma JoinedExact(cfg: Config, obs: seq<Observation>, o: Observation)
    ensures (exists m :: Joined(m) in Observe(cfg, StateAfter(cfg, obs), o).1) <==>
            !o.Missed? && (!Known(obs) || (o.Seen? && MissRun(obs) >= cfg.Limit()))
  {
    AliveExact(cfg, obs);
    var evs := Observe(cfg, StateAfter(cfg, obs), o).1;
    if !o.Missed? && (!Known(obs) || (o.Seen? && MissRun(obs) >= cfg.Limit())) {
      assert Joined(o.meta) in evs;
    }
  }

  /** The next observation emits an update just when it shows other tags of a live node and
      updates are taken over. */
  lemma UpdatedExact(cfg: Config, obs: seq<Observation>, o: Observation)
    ensures (exists m :: MemberEvent(MemberUpdated, m) in Observe(cfg, StateAfter(cfg, obs), o).1) <==>
            && o.Seen? && cfg.updates && StateAfter(cfg, obs).Some? && MissRun(obs) < cfg.Limit()
            && !TagsEqual(StateAfter(cfg, obs).value.meta.tags, o.meta.tags)
  {
    AliveExact(cfg, obs);
    var evs := Observe(cfg, StateAfter(cfg, obs), o).1;
    if |evs| == 1 { assert evs[0] in evs && evs[0] == MemberEvent(evs[0].kind, evs[0].member); }
  }

  /** A sighting leaves the node alive with the metadata shown, or with its own of the same
      tags; where updates are not taken over, a live node keeps its own. */
  lemma SightingTells(cfg: Config, obs: seq<Observation>, meta: NodeMeta)
    ensures var p := StateAfter(cfg, obs + [Seen(meta)]);
            && p.Some? && p.value.alive && p.value.misses == 0
            && (!Known(obs) || MissRun(obs) >= cfg.Limit() ==> p.value.meta == meta)
            && (cfg.updates ==> TagsEqual(p.value.meta.tags, meta.tags))
            && (!cfg.updates && StateAfter(cfg, obs).Some? && MissRun(obs) < cfg.Limit() ==>
                p.value.meta == StateAfter(cfg, obs).value.meta)
  {
    AliveExact(cfg, obs);
    assert (obs + [Seen(meta)])[..|obs|] == obs;
  }

  // --- events of one node ---

  predicate Up(evs: seq<MemberEvent>)
  {
    evs != [] && (evs[|evs| - 1].kind == MemberJoin || evs[|evs| - 1].kind == MemberUpdated)
  }

  /** Joins come while the node is down, failures and updates while it is up. */
  predicate Alternating(evs: seq<MemberEvent>)
  {
    evs == [] ||
      var init, last := evs[..|evs| - 1], evs[|evs| - 1];
      Alternating(init) && last.kind != MemberLeave && (last.kind == MemberJoin <==> !Up(init))
  }

  lemma OneMore(evs: seq<MemberEvent>, ev: MemberEvent)
    ensures (evs + [ev])[..|evs|] == evs && (evs + [ev])[|evs|] == ev && |evs + [ev]| == |evs| + 1
  {}

  /** Joins and failures alternate, and the last event tells the node's state and metadata. */
  lemma {:induction false} EventsTell(cfg: Config, obs: seq<Observation>)
    ensures Alternating(EventsAfter(cfg, obs))
    ensures var p, evs := StateAfter(cfg, obs), EventsAfter(cfg, obs);
            && (Up(evs) <==> p.Some? && p.value.alive)
            && (Up(evs) ==> evs[|evs| - 1].member == p.value.meta)
  {
    if obs != [] {
      var init, o := obs[..|obs| - 1], obs[|obs| - 1];
      EventsTell(cfg, init);
      var evs, more := EventsAfter(cfg, init), Observe(cfg, StateAfter(cfg, init), o).1;
      if |more| == 1 { OneMore(evs, more[0]); } else { assert evs + more == evs; }
    }
  }

  // --- replay ---

  /** The peer table of a cluster that has handled the events. */
  function Replay(evs: seq<MemberEvent>): map<NodeId, NodeMeta>
  {
    if evs == [] then map[] else Handle(Replay(evs[..|evs| - 1]), evs[|evs| - 1])
  }

  function Handle(peers: map<NodeId, NodeMeta>, ev: MemberEvent): map<NodeId, NodeMeta>
  {
    if ev.kind == MemberJoin || ev.kind == MemberUpdated then peers[ev.member.id := ev.member]
    else peers - {ev.member.id}
  }

  function EventsOf(evs: seq<MemberEvent>, id: NodeId): seq<MemberEvent>
  {
    if evs == [] then []
    else EventsOf(evs[..|evs| - 1], id) + if evs[|evs| - 1].member.id == id then [evs[|evs| - 1]] else []
  }

  lemma {:induction false} EventsOfConcat(a: seq<MemberEvent>, b: seq<MemberEvent>, id: NodeId)
    ensures EventsOf(a + b, id) == EventsOf(a, id) + EventsOf(b, id)
  {
    if b == [] {
      assert a + b == a;
    } else {
      assert (a + b)[..|a + b| - 1] == a + b[..|b| - 1];
      EventsOfConcat(a, b[..|b| - 1], id);
    }
  }

  /** A peer is in the table just when its own last event says so. */
  lemma {:induction false} ReplayIsPerNode(evs: seq<MemberEvent>, id: NodeId)
    ensures id in Replay(evs) <==> Up(EventsOf(evs, id))
    ensures id in Replay(evs) ==> Replay(evs)[id] == EventsOf(evs, id)[|EventsOf(evs, id)| - 1].member
  {
    if evs != [] { ReplayIsPerNode(evs[..|evs| - 1], id); }
  }

  /** The last events about a node tell the same of it. */
  ghost predicate AgreeAt(a: seq<MemberEvent>, b: seq<MemberEvent>, id: NodeId)
  {
    var x, y := EventsOf(a, id), EventsOf(b, id);
    (Up(x) <==> Up(y)) && (Up(x) ==> x[|x| - 1].member == y[|y| - 1].member)
  }

  predicate SameAt<T(==)>(m: map<NodeId, T>, n: map<NodeId, T>, id: NodeId)
  {
    (id in m <==> id in n) && (id in m && id in n ==> m[id] == n[id])
  }

  lemma SameEverywhere<T>(m: map<NodeId, T>, n: map<NodeId, T>)
    ensures m == n <==> forall id :: SameAt(m, n, id)
  {
    if forall id :: SameAt(m, n, id) {
      forall id ensures id in m.Keys <==> id in n.Keys { assert SameAt(m, n, id); }
      forall id | id in m.Keys ensures m[id] == n[id] { assert SameAt(m, n, id); }
    }
  }

  lemma AgreementIsSame(a: seq<MemberEvent>, b: seq<MemberEvent>, id: NodeId)
    ensures AgreeAt(a, b, id) <==> SameAt(Replay(a), Replay(b), id)
  {
    ReplayIsPerNode(a, id);
    ReplayIsPerNode(b, id);
  }

  /** Two logs rebuild the same table exactly when they agree on every node's last event. */
  lemma ReplayExact(a: seq<MemberEvent>, b: seq<MemberEvent>)
    ensures Replay(a) == Replay(b) <==> forall id :: AgreeAt(a, b, id)
  {
    SameEverywhere(Replay(a), Replay(b));
    forall id: NodeId { AgreementIsSame(a, b, id); }
  }

  function Alive(members: Peers): map<NodeId, NodeMeta>
  {
    map id | id in members && members[id].alive :: members[id].meta
  }

  function At(members: Peers, id: NodeId): Option<PeerState>
  {
    if id in members then Some(members[id]) else None
  }

  /** members and emitted are what the observations of every node make them. */
  ghost predicate Tracks(cfg: Config, obs: NodeId -> seq<Observation>, members: Peers, emitted: seq<MemberEvent>)
  {
    forall id {:trigger At(members, id)} ::
      At(members, id) == StateAfter(cfg, obs(id)) && EventsOf(emitted, id) == EventsAfter(cfg, obs(id))
  }

  /** Replaying what was emitted rebuilds the live members with their metadata. */
  lemma ReplayIsAlive(cfg: Config, obs: NodeId -> seq<Observation>, members: Peers, emitted: seq<MemberEvent>)
    requires Tracks(cfg, obs, members, emitted)
    ensures Replay(emitted) == Alive(members)
  {
    forall id
      ensures id in Replay(emitted) <==> id in Alive(members)
      ensures id in Replay(emitted) ==> Replay(emitted)[id] == Alive(members)[id]
    {
      assert At(members, id) == StateAfter(cfg, obs(id));
      ReplayIsPerNode(emitted, id);
      EventsTell(cfg, obs(id));
    }
  }
}
