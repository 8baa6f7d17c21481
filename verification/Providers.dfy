/** The polling and the static membership provider against the per-node account of Membership. */
module Providers {
  import opened Basics
  import opened ClusterTypes
  import opened Membership

  // --- the event channel ---

  /** sent lists every event the channel has accepted; queue is its unread tail. */
  datatype Channel = Channel(capacity: nat, queue: seq<MemberEvent>, sent: seq<MemberEvent>, dropped: nat)
  {
    function Received(): seq<MemberEvent>
      requires |queue| <= |sent|
    {
      sent[..|sent| - |queue|]
    }

    ghost predicate Ok(emitted: seq<MemberEvent>)
    {
      && |queue| <= capacity && |queue| <= |sent| && queue == sent[|sent| - |queue|..]
      && |sent| + dropped == |emitted| && (dropped == 0 ==> sent == emitted)
    }
  }

  function Offer(c: Channel, ev: MemberEvent): Channel
  {
    if |c.queue| < c.capacity then c.(queue := c.queue + [ev], sent := c.sent + [ev]) else c.(dropped := c.dropped + 1)
  }

  lemma OfferOk(c: Channel, ev: MemberEvent, emitted: seq<MemberEvent>)
    requires c.Ok(emitted)
    ensures Offer(c, ev).Ok(emitted + [ev])
  {}

  /** The reader takes the oldest unread event. */
  function Take(c: Channel): Channel
    requires c.queue != []
  {
    c.(queue := c.queue[1..])
  }

  lemma TakeOk(c: Channel, emitted: seq<MemberEvent>)
    requires c.Ok(emitted) && c.queue != []
    ensures Take(c).Ok(emitted) && Take(c).Received() == c.Received() + [c.queue[0]]
  {}

  /** Once the channel is drained and nothing was dropped, the reader's peer table is the
      provider's live membership. */
  lemma DrainedAgrees(cfg: Config, obs: NodeId -> seq<Observation>, members: Peers, emitted: seq<MemberEvent>, c: Channel)
    requires Tracks(cfg, obs, members, emitted) && c.Ok(emitted) && c.queue == [] && c.dropped == 0
    ensures Replay(c.Received()) == Alive(members)
  {
    ReplayIsAlive(cfg, obs, members, emitted);
    assert c.Received() == emitted;
  }

  /** Once the channel is drained, the reader's peer table is the live membership exactly when
      for every node the last event accepted tells what the last event emitted does. */
  lemma DrainedExact(cfg: Config, obs: NodeId -> seq<Observation>, members: Peers, emitted: seq<MemberEvent>, c: Channel)
    requires Tracks(cfg, obs, members, emitted) && c.Ok(emitted) && c.queue == []
    ensures Replay(c.Received()) == Alive(members) <==> forall id :: AgreeAt(c.sent, emitted, id)
  {
    ReplayIsAlive(cfg, obs, members, emitted);
    assert c.Received() == c.sent;
    ReplayExact(c.sent, emitted);
  }

  /** One sighting and one miss, with a threshold of one. */
  lemma SeenThenMissed(m: NodeMeta)
    ensures StateAfter(Config(1, true), [Seen(m), Missed]) == Some(PeerState(m, false, 1))
    ensures EventsAfter(Config(1, true), [Seen(m), Missed]) == [Joined(m), MemberEvent(MemberFailed, m)]
  {
    var cfg, obs := Config(1, true), [Seen(m), Missed];
    assert obs[..1] == [Seen(m)] && [Seen(m)][..0] == [];
    assert StateAfter(cfg, [Seen(m)]) == Some(PeerState(m, true, 0));
    assert EventsAfter(cfg, [Seen(m)]) == [Joined(m)];
    assert EventsAfter(cfg, obs) == [Joined(m)] + [MemberEvent(MemberFailed, m)];
  }

  lemma EventsOfTwo(x: MemberEvent, y: MemberEvent, id: NodeId)
    requires x.member.id == y.member.id
    ensures EventsOf([x, y], id) == if id == x.member.id then [x, y] else []
  {
    assert [x, y][..1] == [x] && [x][..0] == [];
    assert EventsOf([x], id) == if id == x.member.id then [x] else [];
  }

  ghost function ObsOfOne(m: NodeMeta): NodeId -> seq<Observation> { id => if id == m.id then [Seen(m), Missed] else [] }

  lemma TracksOne(m: NodeMeta)
    ensures Tracks(Config(1, true), ObsOfOne(m), map[m.id := PeerState(m, false, 1)], [Joined(m), MemberEvent(MemberFailed, m)])
  {
    SeenThenMissed(m);
    forall id: NodeId { EventsOfTwo(Joined(m), MemberEvent(MemberFailed, m), id); }
  }

  /** A dropped event can leave the reader with a peer that is gone. */
  lemma DroppedDisagrees(m: NodeMeta) returns (members: Peers, emitted: seq<MemberEvent>, c: Channel)
    ensures Tracks(Config(1, true), ObsOfOne(m), members, emitted) && c.Ok(emitted) && c.queue == [] && c.dropped == 1
    ensures m.id in Replay(c.Received()) && m.id !in Alive(members)
    ensures var full := Offer(Offer(Channel(1, [], [], 0), Joined(m)), MemberEvent(MemberFailed, m));
            full.queue != [] && c == Take(full)
  {
    TracksOne(m);
    members, emitted := map[m.id := PeerState(m, false, 1)], [Joined(m), MemberEvent(MemberFailed, m)];
    c := Channel(1, [], [Joined(m)], 1);
    assert c.Received() == [Joined(m)] && c.sent[1..] == [] && [Joined(m)][..0] == [];
    assert Replay([Joined(m)]) == map[m.id := m];
  }

  // --- taking in observations ---

  ghost predicate KeyedById(members: Peers)
  {
    forall id :: id in members ==> members[id].meta.id == id
  }

  predicate About(o: Observation, id: NodeId) { o.Missed? || o.meta.id == id }

  /** An observation of a node emits events about that node only. */
  lemma ObservedEvents(cfg: Config, members: Peers, id: NodeId, o: Observation, other: NodeId)
    requires KeyedById(members) && About(o, id)
    ensures var evs := Observe(cfg, At(members, id), o).1; EventsOf(evs, other) == if other == id then evs else []
  {
    var evs := Observe(cfg, At(members, id), o).1;
    if evs != [] { assert evs == [evs[0]] && evs[..0] == []; }
  }

  /** The members and events after looking once at each node of look, in some order. */
  ghost predicate Progress(cfg: Config, members: Peers, look: map<NodeId, Observation>, members': Peers, evs: seq<MemberEvent>)
  {
    forall id {:trigger At(members', id)} ::
      var r := if id in look then Observe(cfg, At(members, id), look[id]) else (At(members, id), []);
      At(members', id) == r.0 && EventsOf(evs, id) == r.1
  }

  function Put(members: Peers, id: NodeId, p: Option<PeerState>): Peers
  {
    if p.Some? then members[id := p.value] else members
  }

  lemma ProgressStep(cfg: Config, members: Peers, look: map<NodeId, Observation>, members': Peers, evs: seq<MemberEvent>,
                     id: NodeId, o: Observation)
    requires KeyedById(members) && About(o, id) && id !in look && Progress(cfg, members, look, members', evs)
    ensures At(members', id) == At(members, id)
    ensures var r := Observe(cfg, At(members, id), o); Progress(cfg, members, look[id := o], Put(members', id, r.0), evs + r.1)
  {
    assert At(members', id) == At(members, id);
    var r := Observe(cfg, At(members, id), o);
    var members'' := Put(members', id, r.0);
    forall other ensures
      var q := if other in look[id := o] then Observe(cfg, At(members, other), look[id := o][other]) else (At(members, other), []);
      At(members'', other) == q.0 && EventsOf(evs + r.1, other) == q.1
    {
      EventsOfConcat(evs, r.1, other);
      ObservedEvents(cfg, members, id, o, other);
      assert At(members', other) == At(members', other);
      assert other != id ==> At(members'', other) == At(members', other);
    }
  }

  lemma ProgressKeyed(cfg: Config, members: Peers, look: map<NodeId, Observation>, members': Peers, evs: seq<MemberEvent>)
    requires KeyedById(members) && Progress(cfg, members, look, members', evs) && forall id :: id in look ==> About(look[id], id)
    ensures KeyedById(members')
  {
    forall id | id in members' ensures members'[id].meta.id == id {
      assert At(members', id).Some?;
    }
  }

  lemma TracksMore(cfg: Config, obs: NodeId -> seq<Observation>, obs': NodeId -> seq<Observation>, members: Peers,
                   emitted: seq<MemberEvent>, look: map<NodeId, Observation>, members': Peers, evs: seq<MemberEvent>)
    requires Tracks(cfg, obs, members, emitted) && Progress(cfg, members, look, members', evs)
    requires forall id :: (id in look && obs'(id) == obs(id) + [look[id]]) || (id !in look && Quiet(cfg, At(members, id),
               obs(id), obs'(id)))
    ensures Tracks(cfg, obs', members', emitted + evs)
  {
    forall id ensures At(members', id) == StateAfter(cfg, obs'(id)) && EventsOf(emitted + evs, id) == EventsAfter(cfg, obs'(id)) {
      EventsOfConcat(emitted, evs, id);
      assert At(members, id) == StateAfter(cfg, obs(id)) && At(members', id) == At(members', id);
      if id in look {
        assert (obs(id) + [look[id]])[..|obs(id)|] == obs(id);
      } else if obs'(id) != obs(id) {
        assert (obs(id) + [Missed])[..|obs(id)|] == obs(id);
      }
    }
  }

  /** Nothing new, or a miss of an unknown node. */
  ghost predicate Quiet(cfg: Config, p: Option<PeerState>, before: seq<Observation>, after: seq<Observation>)
  {
    after == before || (p.None? && after == before + [Missed])
  }

  // --- the polling provider ---

  /** The last entry of the discovered list about id. */
  ghost predicate LastShown(current: seq<NodeMeta>, id: NodeId, i: nat)
  {
    i < |current| && current[i].id == id && forall j :: i < j < |current| ==> current[j].id != id
  }

  ghost predicate Discovered(current: seq<NodeMeta>, id: NodeId)
  {
    exists i :: 0 <= i < |current| && current[i].id == id
  }

  /** What a poll shows: the nodes by id, without the polling node. */
  function SeenIn(self: NodeId, current: seq<NodeMeta>): map<NodeId, NodeMeta>
  {
    if current == [] then map[]
    else
      var m, seen := current[|current| - 1], SeenIn(self, current[..|current| - 1]);
      if m.id == self then seen else seen[m.id := m]
  }

  lemma DiscoveredSnoc(init: seq<NodeMeta>, m: NodeMeta, id: NodeId)
    ensures Discovered(init + [m], id) <==> m.id == id || Discovered(init, id)
    ensures forall i: nat :: i < |init| && LastShown(init + [m], id, i) ==> LastShown(init, id, i)
  {
    var current := init + [m];
    assert forall j :: 0 <= j < |init| ==> current[j] == init[j];
    assert current[|init|] == m;
  }

  /** Exactly the discovered nodes other than the polling one, each as shown last. */
  lemma {:induction false} SeenInExact(self: NodeId, current: seq<NodeMeta>, id: NodeId)
    ensures id in SeenIn(self, current) <==> id != self && Discovered(current, id)
    ensures id in SeenIn(self, current) ==> SeenIn(self, current)[id].id == id
    ensures forall i: nat :: id in SeenIn(self, current) && LastShown(current, id, i) ==> SeenIn(self, current)[id] == current[i]
  {
    if current != [] {
      var n := |current| - 1;
      var init, m := current[..n], current[n];
      SeenInExact(self, init, id);
      assert current == init + [m];
      DiscoveredSnoc(init, m, id);
    }
  }

  lemma AllSeen(self: NodeId, current: seq<NodeMeta>)
    ensures forall id :: id in SeenIn(self, current) <==> id != self && Discovered(current, id)
    ensures forall id :: id in SeenIn(self, current) ==> SeenIn(self, current)[id].id == id
    ensures forall id, i: nat :: id in SeenIn(self, current) && LastShown(current, id, i) ==> SeenIn(self, current)[id] == current[i]
  {
    forall id: NodeId { SeenInExact(self, current, id); }
  }

  function Look(seen: map<NodeId, NodeMeta>, id: NodeId): Observation
  {
    if id in seen then Seen(seen[id]) else Missed
  }

  /** Every look is what the poll shows of that node. */
  ghost predicate Shows(look: map<NodeId, Observation>, seen: map<NodeId, NodeMeta>)
  {
    forall id :: id in look ==> look[id] == Look(seen, id)
  }

  lemma ShowsMore(look: map<NodeId, Observation>, seen: map<NodeId, NodeMeta>, id: NodeId)
    requires Shows(look, seen)
    ensures Shows(look[id := Look(seen, id)], seen)
  {}

  function Looks(polls: seq<map<NodeId, NodeMeta>>, id: NodeId): seq<Observation>
  {
    seq(|polls|, i requires 0 <= i < |polls| => Look(polls[i], id))
  }

  ghost function PollObs(polls: seq<map<NodeId, NodeMeta>>): NodeId -> seq<Observation>
  {
    id => Looks(polls, id)
  }

  lemma LooksMore(polls: seq<map<NodeId, NodeMeta>>, seen: map<NodeId, NodeMeta>, id: NodeId)
    ensures Looks(polls + [seen], id) == Looks(polls, id) + [Look(seen, id)]
  {}

  lemma NothingTracked(cfg: Config, obs: NodeId -> seq<Observation>)
    requires forall id :: obs(id) == []
    ensures Tracks(cfg, obs, map[], [])
  {
    forall id ensures At(map[], id) == StateAfter(cfg, obs(id)) && EventsOf([], id) == EventsAfter(cfg, obs(id)) {
      assert obs(id) == [];
    }
  }

  /** One of the last n polls showed the node. */
  ghost predicate Recent(polls: seq<map<NodeId, NodeMeta>>, n: nat, id: NodeId)
  {
    exists k :: 0 <= k < |polls| && |polls| - n <= k && id in polls[k]
  }

  ghost predicate EverShown(polls: seq<map<NodeId, NodeMeta>>, id: NodeId)
  {
    exists k :: 0 <= k < |polls| && id in polls[k]
  }

  /** The run of misses in the polls is the number of polls since the node was last shown. */
  lemma {:induction false} MissesInPolls(polls: seq<map<NodeId, NodeMeta>>, id: NodeId)
    ensures Known(Looks(polls, id)) <==> EverShown(polls, id)
    ensures forall n: nat :: Recent(polls, n, id) <==> EverShown(polls, id) && MissRun(Looks(polls, id)) < n
  {
    if polls != [] {
      var m := |polls| - 1;
      var init := polls[..m];
      MissesInPolls(init, id);
      assert polls == init + [polls[m]];
      LooksMore(init, polls[m], id);
      assert Looks(polls, id)[..m] == Looks(init, id);
      assert id in polls[m] ==> EverShown(polls, id);
      if k :| 0 <= k < |init| && id in init[k] { assert id in polls[k]; }
      if k :| 0 <= k < |polls| && id in polls[k] { assert k < m ==> id in init[k]; }
      forall n: nat ensures Recent(polls, n, id) <==> (n > 0 && id in polls[m]) || (n > 0 && Recent(init, n - 1, id)) {
        RecentStep(polls, n, id);
      }
    }
  }

  lemma RecentStep(polls: seq<map<NodeId, NodeMeta>>, n: nat, id: NodeId)
    requires polls != []
    ensures Recent(polls, n, id) <==> n > 0 && (id in polls[|polls| - 1] || Recent(polls[..|polls| - 1], n - 1, id))
  {
    var m := |polls| - 1;
    var init := polls[..m];
    if k :| 0 <= k < |polls| && |polls| - n <= k && id in polls[k] {
      if k < m { assert id in init[k]; }
    }
    if n > 0 {
      if id in polls[m] { assert Recent(polls, n, id); }
      if k :| 0 <= k < |init| && |init| - (n - 1) <= k && id in init[k] { assert id in polls[k]; }
    }
  }

  /** A node is alive exactly if one of the last polls, as many as misses make it fail, showed
      it. */
  lemma AliveIsRecent(cfg: Config, polls: seq<map<NodeId, NodeMeta>>, members: Peers, emitted: seq<MemberEvent>, id: NodeId)
    requires Tracks(cfg, PollObs(polls), members, emitted)
    ensures id in Alive(members) <==> Recent(polls, cfg.Limit(), id)
  {
    assert At(members, id) == StateAfter(cfg, Looks(polls, id));
    AliveExact(cfg, Looks(polls, id));
    MissesInPolls(polls, id);
  }

  /** The tags of a live node are those its last poll showed. */
  lemma TagsAreShown(cfg: Config, polls: seq<map<NodeId, NodeMeta>>, seen: map<NodeId, NodeMeta>, members: Peers,
                     emitted: seq<MemberEvent>, id: NodeId)
    requires cfg.updates && Tracks(cfg, PollObs(polls + [seen]), members, emitted) && id in seen
    ensures id in Alive(members) && TagsEqual(Alive(members)[id].tags, seen[id].tags)
  {
    LooksMore(polls, seen, id);
    assert At(members, id) == StateAfter(cfg, Looks(polls + [seen], id));
    SightingTells(cfg, Looks(polls, id), seen[id]);
  }

  class Poller {
    const self: NodeId
    const cfg: Config
    var members: Peers
    var channel: Channel
    ghost var emitted: seq<MemberEvent>
    ghost var polls: seq<map<NodeId, NodeMeta>>

    /** Members and events are a function of the polls so far, node by node. */
    ghost predicate Valid()
      reads this
    {
      cfg.updates && KeyedById(members) && channel.Ok(emitted) && Tracks(cfg, PollObs(polls), members, emitted)
    }

    constructor (self: NodeId, threshold: int, capacity: int)
      ensures Valid() && polls == [] && this.self == self
      ensures cfg.threshold == if threshold <= 0 then 3 else threshold
      ensures channel == Channel(if capacity <= 0 then 1024 else capacity, [], [], 0)
    {
      this.self := self;
      cfg := Config(if threshold <= 0 then 3 else threshold, true);
      members, channel := map[], Channel(if capacity <= 0 then 1024 else capacity, [], [], 0);
      emitted, polls := [], [];
      new;
      NothingTracked(cfg, PollObs([]));
    }

    method Emit(ev: MemberEvent)
      requires channel.Ok(emitted)
      modifies this`channel, this`emitted
      ensures channel.Ok(emitted) && emitted == old(emitted) + [ev] && channel.capacity == old(channel.capacity)
      ensures channel.dropped == old(channel.dropped) <==> old(|channel.queue|) < channel.capacity
    {
      OfferOk(channel, ev, emitted);
      channel, emitted := Offer(channel, ev), emitted + [ev];
    }

    /** A node that the poll shows. */
    method Sight(id: NodeId, meta: NodeMeta)
      requires channel.Ok(emitted) && cfg.updates
      modifies this`members, this`channel, this`emitted
      ensures channel.Ok(emitted)
      ensures var r := Observe(cfg, old(At(members, id)), Seen(meta));
              members == Put(old(members), id, r.0) && emitted == old(emitted) + r.1
    {
      if id !in members {
        members := members[id := PeerState(meta, true, 0)];
        Emit(Joined(meta));
      } else if !members[id].alive {
        members := members[id := PeerState(meta, true, 0)];
        Emit(Joined(meta));
      } else {
        members := members[id := members[id].(misses := 0)];
        if !TagsEqual(members[id].meta.tags, meta.tags) {
          members := members[id := members[id].(meta := meta)];
          Emit(MemberEvent(MemberUpdated, meta));
        }
      }
    }

    /** A known node that the poll does not show. */
    method Miss(id: NodeId)
      requires channel.Ok(emitted) && id in members
      modifies this`members, this`channel, this`emitted
      ensures channel.Ok(emitted)
      ensures var r := Observe(cfg, old(At(members, id)), Missed);
              members == Put(old(members), id, r.0) && emitted == old(emitted) + r.1
    {
      if !members[id].alive { return; }
      members := members[id := members[id].(misses := members[id].misses + 1)];
      if members[id].misses >= cfg.threshold {
        members := members[id := members[id].(alive := false)];
        Emit(MemberEvent(MemberFailed, members[id].meta));
      }
    }

    method SightAll(seen: map<NodeId, NodeMeta>) returns (ghost look: map<NodeId, Observation>, ghost evs: seq<MemberEvent>)
      requires channel.Ok(emitted) && cfg.updates && KeyedById(members) && forall id :: id in seen ==> seen[id].id == id
      modifies this`members, this`channel, this`emitted
      ensures channel.Ok(emitted) && emitted == old(emitted) + evs
      ensures look.Keys == seen.Keys && Shows(look, seen)
      ensures Progress(cfg, old(members), look, members, evs)
    {
      look, evs := map[], [];
      var todo := seen.Keys;
      while todo != {}
        invariant todo <= seen.Keys && look.Keys == seen.Keys - todo && Shows(look, seen)
        invariant channel.Ok(emitted) && emitted == old(emitted) + evs
        invariant Progress(cfg, old(members), look, members, evs)
      {
        var id :| id in todo;
        ProgressStep(cfg, old(members), look, members, evs, id, Seen(seen[id]));
        ShowsMore(look, seen, id);
        ghost var r := Observe(cfg, At(members, id), Seen(seen[id]));
        Sight(id, seen[id]);
        look, evs := look[id := Seen(seen[id])], evs + r.1;
        todo := todo - {id};
      }
    }

    method MissAll(seen: map<NodeId, NodeMeta>, ghost before: Peers, ghost sighted: map<NodeId, Observation>,
                   ghost base: seq<MemberEvent>, ghost first: seq<MemberEvent>)
      returns (ghost look: map<NodeId, Observation>, ghost evs: seq<MemberEvent>)
      requires channel.Ok(emitted) && emitted == base + first && KeyedById(before)
      requires sighted.Keys == seen.Keys && Shows(sighted, seen)
      requires Progress(cfg, before, sighted, members, first)
      modifies this`members, this`channel, this`emitted
      ensures channel.Ok(emitted) && emitted == base + evs
      ensures look.Keys == seen.Keys + members.Keys && Shows(look, seen)
      ensures Progress(cfg, before, look, members, evs)
    {
      look, evs := sighted, first;
      var todo := members.Keys;
      while todo != {}
        invariant todo <= members.Keys == old(members.Keys)
        invariant look.Keys == seen.Keys + (members.Keys - todo) && Shows(look, seen)
        invariant channel.Ok(emitted) && emitted == base + evs
        invariant Progress(cfg, before, look, members, evs)
      {
        var id :| id in todo;
        todo := todo - {id};
        if id !in seen {
          ProgressStep(cfg, before, look, members, evs, id, Missed);
          ShowsMore(look, seen, id);
          ghost var r := Observe(cfg, At(members, id), Missed);
          Miss(id);
          look, evs := look[id := Missed], evs + r.1;
        }
      }
    }

    method CollectSeen(current: seq<NodeMeta>) returns (seen: map<NodeId, NodeMeta>)
      ensures seen == SeenIn(self, current)
      ensures forall id :: id in seen <==> id != self && Discovered(current, id)
      ensures forall id, i: nat :: id in seen && LastShown(current, id, i) ==> seen[id] == current[i]
    {
      AllSeen(self, current);
      seen := map[];
      for i := 0 to |current|
        invariant seen == SeenIn(self, current[..i])
      {
        assert current[..i + 1][..i] == current[..i];
        if current[i].id == self { continue; }
        seen := seen[current[i].id := current[i]];
      }
      assert current[..|current|] == current;
    }

    /** One poll: every node is looked at once, seen or missed. */
    method DiffMembers(current: seq<NodeMeta>)
      requires Valid()
      modifies this`members, this`channel, this`emitted, this`polls
      ensures Valid() && polls == old(polls) + [SeenIn(self, current)]
      ensures forall id :: id in Alive(members) <==> Recent(polls, cfg.Limit(), id)
      ensures forall id :: id != self && Discovered(current, id) ==> id in Alive(members)
      ensures forall id, i: nat :: id != self && LastShown(current, id, i) && id in Alive(members) ==>
                TagsEqual(Alive(members)[id].tags, current[i].tags)
    {
      var seen := CollectSeen(current);
      AllSeen(self, current);
      ghost var sighted, first := SightAll(seen);
      ghost var look, evs := MissAll(seen, old(members), sighted, old(emitted), first);
      polls := polls + [seen];
      PolledOnce(cfg, old(polls), seen, old(members), old(emitted), look, members, evs);
      PollTells(old(polls), current, seen);
    }

    /** What the poll has found out. */
    lemma PollTells(before: seq<map<NodeId, NodeMeta>>, current: seq<NodeMeta>, seen: map<NodeId, NodeMeta>)
      requires Valid() && polls == before + [seen] && seen == SeenIn(self, current)
      ensures forall id :: id in Alive(members) <==> Recent(polls, cfg.Limit(), id)
      ensures forall id :: id != self && Discovered(current, id) ==> id in Alive(members)
      ensures forall id, i: nat :: id != self && LastShown(current, id, i) && id in Alive(members) ==>
                TagsEqual(Alive(members)[id].tags, current[i].tags)
    {
      AllSeen(self, current);
      forall id ensures id in Alive(members) <==> Recent(polls, cfg.Limit(), id) { AliveIsRecent(cfg, polls, members, emitted, id); }
      forall id | id in seen ensures id in Alive(members) && TagsEqual(Alive(members)[id].tags, seen[id].tags) {
        TagsAreShown(cfg, before, seen, members, emitted, id);
      }
      forall id, i: nat | id != self && LastShown(current, id, i) ensures Discovered(current, id) {}
    }
  }

  lemma PolledOnce(cfg: Config, polls: seq<map<NodeId, NodeMeta>>, seen: map<NodeId, NodeMeta>, members: Peers, emitted: seq<MemberEvent>,
                   look: map<NodeId, Observation>, members': Peers, evs: seq<MemberEvent>)
    requires Tracks(cfg, PollObs(polls), members, emitted) && Progress(cfg, members, look, members', evs) && KeyedById(members)
    requires look.Keys == seen.Keys + members'.Keys && Shows(look, seen)
    requires forall id :: id in seen ==> seen[id].id == id
    ensures Tracks(cfg, PollObs(polls + [seen]), members', emitted + evs) && KeyedById(members')
  {
    ProgressKeyed(cfg, members, look, members', evs);
    var obs, obs' := PollObs(polls), PollObs(polls + [seen]);
    forall id ensures (id in look && obs'(id) == obs(id) + [look[id]]) || (id !in look && Quiet(cfg, At(members, id), obs(id), obs'(id))) {
      LooksMore(polls, seen, id);
      assert At(members', id) == At(members', id);
    }
    TracksMore(cfg, obs, obs', members, emitted, look, members', evs);
  }

  // --- the static provider ---

  /** The observations of one node among those of all nodes. */
  function ObsOf(ops: seq<(NodeId, Observation)>, id: NodeId): seq<Observation>
  {
    if ops == [] then []
    else ObsOf(ops[..|ops| - 1], id) + if ops[|ops| - 1].0 == id then [ops[|ops| - 1].1] else []
  }

  ghost function OpObs(ops: seq<(NodeId, Observation)>): NodeId -> seq<Observation>
  {
    id => ObsOf(ops, id)
  }

  lemma ObservedOnce(cfg: Config, ops: seq<(NodeId, Observation)>, members: Peers, emitted: seq<MemberEvent>,
                     id: NodeId, o: Observation)
    requires Tracks(cfg, OpObs(ops), members, emitted) && KeyedById(members) && About(o, id)
    ensures var r := Observe(cfg, At(members, id), o);
            && Tracks(cfg, OpObs(ops + [(id, o)]), Put(members, id, r.0), emitted + r.1)
            && KeyedById(Put(members, id, r.0))
  {
    var r, look := Observe(cfg, At(members, id), o), map[id := o];
    assert Progress(cfg, members, map[], members, []);
    ProgressStep(cfg, members, map[], members, [], id, o);
    assert map[][id := o] == look && [] + r.1 == r.1;
    ProgressKeyed(cfg, members, look, Put(members, id, r.0), r.1);
    assert (ops + [(id, o)])[..|ops|] == ops;
    TracksMore(cfg, OpObs(ops), OpObs(ops + [(id, o)]), members, emitted, look, Put(members, id, r.0), r.1);
  }

  class FixedProvider {
    const cfg: Config
    var members: Peers
    var channel: Channel
    ghost var emitted: seq<MemberEvent>
    ghost var ops: seq<(NodeId, Observation)>

    ghost predicate Valid()
      reads this
    {
      !cfg.updates && KeyedById(members) && channel.Ok(emitted) && Tracks(cfg, OpObs(ops), members, emitted)
    }

    /** Only a threshold of zero is replaced; a negative one stays. */
    constructor (threshold: int)
      ensures Valid() && ops == [] && cfg == Config(if threshold == 0 then 3 else threshold, false)
      ensures channel == Channel(1024, [], [], 0)
    {
      cfg := Config(if threshold == 0 then 3 else threshold, false);
      members, channel := map[], Channel(1024, [], [], 0);
      emitted, ops := [], [];
      new;
      NothingTracked(cfg, OpObs([]));
    }

    method Emit(ev: MemberEvent)
      requires channel.Ok(emitted)
      modifies this`channel, this`emitted
      ensures channel.Ok(emitted) && emitted == old(emitted) + [ev]
      ensures channel.dropped == old(channel.dropped) <==> old(|channel.queue|) < channel.capacity
    {
      OfferOk(channel, ev, emitted);
      channel, emitted := Offer(channel, ev), emitted + [ev];
    }

    /** Records the observation that the body just acted on. */
    ghost method Account(id: NodeId, o: Observation, members0: Peers, emitted0: seq<MemberEvent>)
      requires !cfg.updates && KeyedById(members0) && Tracks(cfg, OpObs(ops), members0, emitted0) && About(o, id) && channel.Ok(emitted)
      requires var r := Observe(cfg, At(members0, id), o); members == Put(members0, id, r.0) && emitted == emitted0 + r.1
      modifies this`ops
      ensures Valid() && ops == old(ops) + [(id, o)]
    {
      ObservedOnce(cfg, ops, members0, emitted0, id, o);
      ops := ops + [(id, o)];
    }

    method HandleProbeSuccess(meta: NodeMeta)
      requires Valid()
      modifies this
      ensures Valid() && ops == old(ops) + [(meta.id, Seen(meta))]
    {
      if meta.id !in members {
        members := members[meta.id := PeerState(meta, true, 0)];
        Emit(Joined(meta));
      } else {
        members := members[meta.id := members[meta.id].(misses := 0)];
        if !members[meta.id].alive {
          members := members[meta.id := members[meta.id].(alive := true, meta := meta)];
          Emit(Joined(meta));
        }
      }
      Account(meta.id, Seen(meta), old(members), old(emitted));
    }

    method HandleProbeFailure(id: NodeId)
      requires Valid()
      modifies this
      ensures Valid() && ops == old(ops) + [(id, Missed)]
    {
      if id in members && members[id].alive {
        members := members[id := members[id].(misses := members[id].misses + 1)];
        if members[id].misses >= cfg.threshold {
          members := members[id := members[id].(alive := false)];
          Emit(MemberEvent(MemberFailed, members[id].meta));
        }
      }
      Account(id, Missed, old(members), old(emitted));
    }

    method AddMember(meta: NodeMeta)
      requires Valid()
      modifies this
      ensures Valid() && ops == old(ops) + [(meta.id, Added(meta))]
    {
      if meta.id !in members {
        members := members[meta.id := PeerState(meta, true, 0)];
        Emit(Joined(meta));
      }
      Account(meta.id, Added(meta), old(members), old(emitted));
    }
  }
}
