/** Ring election: deterministic leaders, terms, and fencing by term. */
module Election {
  import opened ClusterTypes
  import Membership

  /** Hash of a scope and a node. */
  type ScopeHash = (string, NodeId) -> nat

  const TERMS := 0x1_0000_0000_0000_0000

  datatype Scope = Scope(leader: NodeId, term: nat)

  // --- the leader of a member set ---

  /** A member of lowest hash; none when there are no members. */
  ghost predicate IsLeaderOf(hash: ScopeHash, scope: string, members: set<NodeId>, leader: NodeId)
  {
    if members == {} then leader == ""
    else leader in members && forall m :: m in members ==> hash(scope, leader) <= hash(scope, m)
  }

  ghost predicate DistinctOn(hash: ScopeHash, scope: string, members: set<NodeId>)
  {
    forall a, b :: a in members && b in members && hash(scope, a) == hash(scope, b) ==> a == b
  }

  /** Whoever computes it, in whatever order, names the same leader. */
  lemma LeaderUnique(hash: ScopeHash, scope: string, members: set<NodeId>, a: NodeId, b: NodeId)
    requires DistinctOn(hash, scope, members)
    requires IsLeaderOf(hash, scope, members, a) && IsLeaderOf(hash, scope, members, b)
    ensures a == b
  {
    if members != {} { assert hash(scope, a) <= hash(scope, b) <= hash(scope, a); }
  }

  /** Nodes with the same members agree exactly when one member has the lowest hash alone. */
  lemma AgreementExact(hash: ScopeHash, scope: string, members: set<NodeId>)
    ensures (forall a, b :: IsLeaderOf(hash, scope, members, a) && IsLeaderOf(hash, scope, members, b) ==> a == b) <==>
            (forall a, b :: a in members && b in members && a != b && hash(scope, a) == hash(scope, b) ==>
               exists m :: m in members && hash(scope, m) < hash(scope, a))
  {
    if forall a, b :: IsLeaderOf(hash, scope, members, a) && IsLeaderOf(hash, scope, members, b) ==> a == b {
      forall a, b | a in members && b in members && a != b && hash(scope, a) == hash(scope, b)
        ensures exists m :: m in members && hash(scope, m) < hash(scope, a)
      {
        assert !(IsLeaderOf(hash, scope, members, a) && IsLeaderOf(hash, scope, members, b));
      }
    } else {
      var a, b :| IsLeaderOf(hash, scope, members, a) && IsLeaderOf(hash, scope, members, b) && a != b;
      assert hash(scope, a) <= hash(scope, b) <= hash(scope, a);
    }
  }

  method ComputeLeader(hash: ScopeHash, scope: string, members: set<NodeId>) returns (leader: NodeId)
    ensures IsLeaderOf(hash, scope, members, leader)
  {
    if members == {} { return ""; }
    leader :| leader in members;
    var rest := members - {leader};
    while rest != {}
      invariant rest <= members && leader in members
      invariant forall m :: m in members - rest ==> hash(scope, leader) <= hash(scope, m)
    {
      var m :| m in rest;
      if hash(scope, m) < hash(scope, leader) { leader := m; }
      rest := rest - {m};
    }
  }

  /** A joiner takes over just when its hash is below the leader's. */
  lemma JoinExact(hash: ScopeHash, scope: string, members: set<NodeId>, j: NodeId, before: NodeId, after: NodeId)
    requires IsLeaderOf(hash, scope, members, before) && IsLeaderOf(hash, scope, members + {j}, after)
    requires DistinctOn(hash, scope, members + {j})
    ensures after == if members == {} || hash(scope, j) < hash(scope, before) then j else before
  {
    var winner := if members == {} || hash(scope, j) < hash(scope, before) then j else before;
    assert j in members + {j};
    LeaderUnique(hash, scope, members + {j}, after, winner);
  }

  /** The leader outlasts the loss of any other member, and not its own. */
  lemma RemovalExact(hash: ScopeHash, scope: string, members: set<NodeId>, r: NodeId, before: NodeId, after: NodeId)
    requires IsLeaderOf(hash, scope, members, before) && IsLeaderOf(hash, scope, members - {r}, after)
    requires DistinctOn(hash, scope, members) && r in members && members != {r}
    ensures after == before <==> before != r
  {
    var m :| m in members && m != r;
    assert m in members - {r};
    if before != r { LeaderUnique(hash, scope, members - {r}, after, before); }
  }

  // --- the state of one election instance ---

  /** history[s] lists the leaders that scope s has had. */
  datatype Election = Election(members: set<NodeId>, scopes: map<string, Scope>, history: map<string, seq<NodeId>>)

  /** A scope as a recomputation over members leaves it. */
  ghost predicate Recomputed(hash: ScopeHash, members: set<NodeId>, scope: string, s: Scope, s': Scope, h: seq<NodeId>, h': seq<NodeId>)
  {
    && IsLeaderOf(hash, scope, members, s'.leader)
    && s' == Reelected(s, s'.leader)
    && h' == if s'.leader == s.leader then h else h + [s'.leader]
  }

  function Reelected(s: Scope, leader: NodeId): Scope
  {
    if leader == s.leader then s else Scope(leader, (s.term + 1) % TERMS)
  }

  ghost predicate ScopeStep(hash: ScopeHash, scopes: map<string, Scope>, history: map<string, seq<NodeId>>, e': Election, s: string)
  {
    && s in scopes && s in e'.scopes && s in history && s in e'.history
    && Recomputed(hash, e'.members, s, scopes[s], e'.scopes[s], history[s], e'.history[s])
  }

  ghost predicate AllRecomputed(hash: ScopeHash, scopes: map<string, Scope>, history: map<string, seq<NodeId>>, e': Election)
  {
    && e'.scopes.Keys == scopes.Keys == history.Keys == e'.history.Keys
    && forall s {:trigger ScopeStep(hash, scopes, history, e', s)} :: s in scopes ==> ScopeStep(hash, scopes, history, e', s)
  }

  /** All scopes but those in todo have been recomputed. */
  ghost predicate Redone(hash: ScopeHash, scopes: map<string, Scope>, history: map<string, seq<NodeId>>, e: Election, todo: set<string>)
  {
    && e.scopes.Keys == scopes.Keys == history.Keys == e.history.Keys
    && (forall s {:trigger s in todo} :: s in todo && s in scopes ==> e.scopes[s] == scopes[s] && e.history[s] == history[s])
    && forall s {:trigger ScopeStep(hash, scopes, history, e, s)} :: s in scopes && s !in todo ==> ScopeStep(hash, scopes, history, e, s)
  }

  lemma RedoneMore(hash: ScopeHash, scopes: map<string, Scope>, history: map<string, seq<NodeId>>, e: Election, todo: set<string>,
                   s: string, leader: NodeId)
    requires Redone(hash, scopes, history, e, todo) && s in todo && s in scopes && IsLeaderOf(hash, s, e.members, leader)
    ensures var h := if leader == scopes[s].leader then e.history else e.history[s := e.history[s] + [leader]];
            Redone(hash, scopes, history, Election(e.members, e.scopes[s := Reelected(scopes[s], leader)], h), todo - {s})
  {
    var h := if leader == scopes[s].leader then e.history else e.history[s := e.history[s] + [leader]];
    var e' := Election(e.members, e.scopes[s := Reelected(scopes[s], leader)], h);
    forall x | x in scopes && x !in todo - {s} ensures ScopeStep(hash, scopes, history, e', x) {
      if x != s { assert ScopeStep(hash, scopes, history, e, x); }
    }
  }

  /** A scope asked for: created with term 1 if unknown. */
  ghost predicate Ensured(hash: ScopeHash, e: Election, scope: string, e': Election)
  {
    if scope in e.scopes then e' == e
    else scope in e'.scopes && IsLeaderOf(hash, scope, e.members, e'.scopes[scope].leader) &&
         e'.scopes[scope].term == 1 &&
         e' == Election(e.members, e.scopes[scope := e'.scopes[scope]], e.history[scope := [e'.scopes[scope].leader]])
  }

  function MembersAfter(members: set<NodeId>, ev: MemberEvent): set<NodeId>
  {
    if ev.kind == MemberJoin || ev.kind == MemberUpdated then members + {ev.member.id} else members - {ev.member.id}
  }

  datatype Step = Ask(scope: string) | Event(ev: MemberEvent) | Replace(members: seq<NodeMeta>)

  ghost predicate Next(hash: ScopeHash, self: NodeId, e: Election, step: Step, e': Election)
  {
    match step
    case Ask(scope) => Ensured(hash, e, scope, e')
    case Event(ev) => e'.members == MembersAfter(e.members, ev) && AllRecomputed(hash, e.scopes, e.history, e')
    case Replace(members) => e'.members == Ids(members) + {self} && AllRecomputed(hash, e.scopes, e.history, e')
  }

  /** The stored leader is a member of lowest hash and the last of the scope's leaders; the
      term counts them. */
  ghost predicate ScopeOk(hash: ScopeHash, members: set<NodeId>, scope: string, s: Scope, h: seq<NodeId>)
  {
    && IsLeaderOf(hash, scope, members, s.leader)
    && h != [] && h[|h| - 1] == s.leader && s.term == |h| % TERMS
  }

  ghost predicate Inv(hash: ScopeHash, e: Election)
  {
    && e.scopes.Keys == e.history.Keys
    && forall s {:trigger ScopeInv(hash, e, s)} :: s in e.scopes ==> ScopeInv(hash, e, s)
  }

  ghost predicate ScopeInv(hash: ScopeHash, e: Election, s: string)
  {
    s in e.scopes && s in e.history && ScopeOk(hash, e.members, s, e.scopes[s], e.history[s])
  }

  lemma ModStep(n: nat)
    ensures (n % TERMS + 1) % TERMS == (n + 1) % TERMS
  {
    assert n == n / TERMS * TERMS + n % TERMS;
    if n % TERMS + 1 == TERMS {
      assert n + 1 == (n / TERMS + 1) * TERMS;
    } else {
      assert n + 1 == n / TERMS * TERMS + (n % TERMS + 1);
    }
  }

  lemma RecomputedOk(hash: ScopeHash, before: set<NodeId>, members: set<NodeId>, scope: string, s: Scope, s': Scope,
                     h: seq<NodeId>, h': seq<NodeId>)
    requires ScopeOk(hash, before, scope, s, h) && Recomputed(hash, members, scope, s, s', h, h')
    ensures ScopeOk(hash, members, scope, s', h')
  {
    ModStep(|h|);
  }

  lemma NextKeeps(hash: ScopeHash, self: NodeId, e: Election, step: Step, e': Election)
    requires Inv(hash, e) && Next(hash, self, e, step, e')
    ensures Inv(hash, e')
  {
    forall s | s in e'.scopes ensures ScopeInv(hash, e', s) {
      if step.Ask? {
        assert s in e.scopes ==> ScopeInv(hash, e, s);
        assert 1 % TERMS == 1;
      } else {
        assert ScopeInv(hash, e, s) && ScopeStep(hash, e.scopes, e.history, e', s);
        RecomputedOk(hash, e.members, e'.members, s, e.scopes[s], e'.scopes[s], e.history[s], e'.history[s]);
      }
    }
  }

  /** Every scope of e lives on in e', with at most n leaders more. */
  ghost predicate Grown(e: Election, e': Election, n: nat)
    requires e.scopes.Keys == e.history.Keys && e'.scopes.Keys == e'.history.Keys
  {
    forall s :: s in e.scopes ==> s in e'.scopes && e.history[s] <= e'.history[s] && |e'.history[s]| <= |e.history[s]| + n
  }

  lemma NextGrows(hash: ScopeHash, self: NodeId, e: Election, step: Step, e': Election)
    requires Inv(hash, e) && Next(hash, self, e, step, e') && Inv(hash, e')
    ensures Grown(e, e', 1)
  {
    if !step.Ask? {
      forall s | s in e.scopes ensures s in e'.scopes && e.history[s] <= e'.history[s] && |e'.history[s]| <= |e.history[s]| + 1 {
        assert ScopeStep(hash, e.scopes, e.history, e', s);
      }
    }
  }

  lemma GrownTwice(e: Election, e': Election, e'': Election, m: nat, n: nat)
    requires e.scopes.Keys == e.history.Keys && e'.scopes.Keys == e'.history.Keys && e''.scopes.Keys == e''.history.Keys
    requires Grown(e, e', m) && Grown(e', e'', n)
    ensures Grown(e, e'', m + n)
  {}

  /** A run is given by the states after each of its steps. */
  ghost predicate Run(hash: ScopeHash, self: NodeId, e: Election, steps: seq<(Step, Election)>)
    decreases |steps|
  {
    steps == [] || (Next(hash, self, e, steps[0].0, steps[0].1) && Run(hash, self, steps[0].1, steps[1..]))
  }

  function End(e: Election, steps: seq<(Step, Election)>): Election
  {
    if steps == [] then e else steps[|steps| - 1].1
  }

  /** Every reachable state stores lowest-hash leaders, and histories only grow. */
  lemma {:induction false} RunKeeps(hash: ScopeHash, self: NodeId, e: Election, steps: seq<(Step, Election)>)
    requires Inv(hash, e) && Run(hash, self, e, steps)
    ensures Inv(hash, End(e, steps)) && Grown(e, End(e, steps), |steps|)
    decreases |steps|
  {
    if steps != [] {
      var e' := steps[0].1;
      NextKeeps(hash, self, e, steps[0].0, e');
      NextGrows(hash, self, e, steps[0].0, e');
      RunKeeps(hash, self, e', steps[1..]);
      GrownTwice(e, e', End(e, steps), 1, |steps| - 1);
    }
  }

  /** Two instances with the same members name the same leader. */
  lemma InstancesAgree(hash: ScopeHash, e: Election, f: Election, s: string)
    requires Inv(hash, e) && Inv(hash, f) && e.members == f.members && s in e.scopes && s in f.scopes
    requires DistinctOn(hash, s, e.members)
    ensures e.scopes[s].leader == f.scopes[s].leader
  {
    assert ScopeInv(hash, e, s) && ScopeInv(hash, f, s);
    LeaderUnique(hash, s, e.members, e.scopes[s].leader, f.scopes[s].leader);
  }

  // --- the members of an instance ---

  predicate Concerns(step: Step, id: NodeId)
  {
    step.Replace? || (step.Event? && step.ev.member.id == id)
  }

  /** The step says that id is a member. */
  predicate Counts(self: NodeId, step: Step, id: NodeId)
    requires Concerns(step, id)
  {
    match step
    case Event(ev) => ev.kind != MemberLeave && ev.kind != MemberFailed
    case Replace(ms) => id == self || exists m :: m in ms && m.id == id
  }

  /** The k-th step is the last one that concerns id. */
  ghost predicate LastWord(steps: seq<(Step, Election)>, id: NodeId, k: nat)
  {
    k < |steps| && Concerns(steps[k].0, id) && forall j :: k < j < |steps| ==> !Concerns(steps[j].0, id)
  }

  lemma OneStepMembers(hash: ScopeHash, self: NodeId, e: Election, step: Step, e': Election, id: NodeId)
    requires Next(hash, self, e, step, e')
    ensures id in e'.members <==> if Concerns(step, id) then Counts(self, step, id) else id in e.members
  {
    if step.Replace? { assert id in Ids(step.members) <==> exists m :: m in step.members && m.id == id; }
  }

  ghost predicate NoWord(steps: seq<(Step, Election)>, id: NodeId)
  {
    forall k :: 0 <= k < |steps| ==> !Concerns(steps[k].0, id)
  }

  lemma {:induction false} MembersUntouched(hash: ScopeHash, self: NodeId, e: Election, steps: seq<(Step, Election)>, id: NodeId)
    requires Run(hash, self, e, steps) && NoWord(steps, id)
    ensures id in End(e, steps).members <==> id in e.members
    decreases |steps|
  {
    if steps != [] {
      OneStepMembers(hash, self, e, steps[0].0, steps[0].1, id);
      MembersUntouched(hash, self, steps[0].1, steps[1..], id);
    }
  }

  lemma {:induction false} MembersSettled(hash: ScopeHash, self: NodeId, e: Election, steps: seq<(Step, Election)>, id: NodeId, k: nat)
    requires Run(hash, self, e, steps) && LastWord(steps, id, k)
    ensures id in End(e, steps).members <==> Counts(self, steps[k].0, id)
    decreases |steps|
  {
    var e', rest := steps[0].1, steps[1..];
    if k == 0 {
      OneStepMembers(hash, self, e, steps[0].0, e', id);
      MembersUntouched(hash, self, e', rest, id);
    } else {
      assert rest[k - 1] == steps[k] && LastWord(rest, id, k - 1);
      MembersSettled(hash, self, e', rest, id, k - 1);
    }
  }

  /** After every run a node is a member just when the last word about it says so, or, if there
      is none, when it was one at the start. */
  lemma MembersExact(hash: ScopeHash, self: NodeId, e: Election, steps: seq<(Step, Election)>, id: NodeId)
    requires Run(hash, self, e, steps)
    ensures forall k: nat :: LastWord(steps, id, k) ==> (id in End(e, steps).members <==> Counts(self, steps[k].0, id))
    ensures NoWord(steps, id) ==> (id in End(e, steps).members <==> id in e.members)
  {
    forall k: nat | LastWord(steps, id, k) ensures id in End(e, steps).members <==> Counts(self, steps[k].0, id) {
      MembersSettled(hash, self, e, steps, id, k);
    }
    if NoWord(steps, id) { MembersUntouched(hash, self, e, steps, id); }
  }

  /** The membership events of a run. */
  function Events(steps: seq<(Step, Election)>): seq<MemberEvent>
  {
    if steps == [] then [] else (if steps[0].0.Event? then [steps[0].0.ev] else []) + Events(steps[1..])
  }

  lemma {:induction false} MembersByEvents(hash: ScopeHash, self: NodeId, e: Election, steps: seq<(Step, Election)>, id: NodeId)
    requires Run(hash, self, e, steps) && forall k :: 0 <= k < |steps| ==> !steps[k].0.Replace?
    ensures var evs := Membership.EventsOf(Events(steps), id);
            id in End(e, steps).members <==> if evs == [] then id in e.members else Membership.Up(evs)
    decreases |steps|
  {
    if steps != [] {
      var step := steps[0].0;
      OneStepMembers(hash, self, e, step, steps[0].1, id);
      MembersByEvents(hash, self, steps[0].1, steps[1..], id);
      if step.Event? {
        Membership.EventsOfConcat([step.ev], Events(steps[1..]), id);
        assert [step.ev][..0] == [];
      } else {
        assert [] + Events(steps[1..]) == Events(steps[1..]);
      }
    }
  }

  /** An instance that starts alone and hears only events about others has as members itself
      and the peers that the same events leave in the peer table. */
  lemma MembersFollowPeers(hash: ScopeHash, self: NodeId, e: Election, steps: seq<(Step, Election)>)
    requires Run(hash, self, e, steps) && e.members == {self}
    requires forall k :: 0 <= k < |steps| ==> !steps[k].0.Replace? && !Concerns(steps[k].0, self)
    ensures End(e, steps).members == Membership.Replay(Events(steps)).Keys + {self}
  {
    forall id ensures id in End(e, steps).members <==> id in Membership.Replay(Events(steps)).Keys + {self} {
      if id == self { MembersUntouched(hash, self, e, steps, id); }
      MembersByEvents(hash, self, e, steps, id);
      Membership.ReplayIsPerNode(Events(steps), id);
    }
  }

  // --- fencing ---

  lemma SameTermSameHistory(h: seq<NodeId>, h': seq<NodeId>)
    requires h <= h' && |h'| < |h| + TERMS
    ensures |h| % TERMS == |h'| % TERMS <==> h == h'
  {
    if |h| % TERMS == |h'| % TERMS {
      assert |h'| - |h| == (|h'| / TERMS - |h| / TERMS) * TERMS;
      assert h == h'[..|h|] == h';
    }
  }

  lemma TermIsLength(hash: ScopeHash, e: Election, s: string)
    requires Inv(hash, e) && s in e.scopes
    ensures s in e.history && e.scopes[s].term == |e.history[s]| % TERMS
    ensures e.history[s] != [] && e.scopes[s].leader == e.history[s][|e.history[s]| - 1]
  {
    assert ScopeInv(hash, e, s);
  }

  lemma TermsDecide(hash: ScopeHash, e: Election, e': Election, s: string)
    requires Inv(hash, e) && Inv(hash, e') && s in e.scopes && s in e'.scopes && s in e.history && s in e'.history
    requires e.history[s] <= e'.history[s] && |e'.history[s]| < |e.history[s]| + TERMS
    ensures e'.scopes[s].term == e.scopes[s].term <==> e'.history[s] == e.history[s]
    ensures e'.history[s] == e.history[s] ==> e'.scopes[s].leader == e.scopes[s].leader
  {
    TermIsLength(hash, e, s);
    TermIsLength(hash, e', s);
    SameTermSameHistory(e.history[s], e'.history[s]);
  }

  /** Within fewer than 2^64 steps, finding the term unchanged proves that leadership did not
      change in between, not even there and back. */
  lemma TermFences(hash: ScopeHash, self: NodeId, e: Election, steps: seq<(Step, Election)>, s: string)
    requires Inv(hash, e) && Run(hash, self, e, steps) && s in e.scopes && |steps| < TERMS
    ensures s in End(e, steps).scopes && s in End(e, steps).history
    ensures End(e, steps).scopes[s].term == e.scopes[s].term <==> End(e, steps).history[s] == e.history[s]
    ensures End(e, steps).scopes[s].term == e.scopes[s].term ==> End(e, steps).scopes[s].leader == e.scopes[s].leader
  {
    RunKeeps(hash, self, e, steps);
    TermsDecide(hash, e, End(e, steps), s);
  }

  /** One handling of a node failure: leadership is read at e0, the term at e1, and the term
      again at e2 before the decisions are recorded. */
  ghost predicate Commits(self: NodeId, s: string, e0: Election, e1: Election, e2: Election)
    requires s in e0.scopes && s in e1.scopes && s in e2.scopes
  {
    e0.scopes[s].leader == self && self != "" && e1.scopes[s].term == e2.scopes[s].term
  }

  /** Decisions are recorded under the leader that held when the term was read: by the leader
      exactly when this node led at that read, and under unbroken leadership since the first
      read exactly when leadership had not moved between the first two. */
  lemma CommitExact(hash: ScopeHash, self: NodeId, s: string, e0: Election, first: seq<(Step, Election)>, second: seq<(Step, Election)>)
    requires Inv(hash, e0) && s in e0.scopes && Run(hash, self, e0, first)
    requires Run(hash, self, End(e0, first), second) && |second| < TERMS
    ensures var e1, e2 := End(e0, first), End(End(e0, first), second);
            && s in e1.scopes && s in e2.scopes && s in e1.history && s in e2.history
            && (Commits(self, s, e0, e1, e2) <==> e0.scopes[s].leader == self != "" && e2.history[s] == e1.history[s])
            && (Commits(self, s, e0, e1, e2) ==>
                  && e2.history[s] == e1.history[s]
                  && (e2.scopes[s].leader == self <==> e1.scopes[s].leader == self)
                  && (e2.history[s] == e0.history[s] <==> e1.history[s] == e0.history[s]))
  {
    RunKeeps(hash, self, e0, first);
    TermFences(hash, self, End(e0, first), second, s);
  }

  /** Leadership that moves between the two first reads is not noticed: node "b" leads alone,
      "a" joins with a lower hash, and "b" still commits. */
  lemma CommitAfterLosingLead(hash: ScopeHash, a: NodeMeta)
    requires a.id == "a" && hash("s", "a") < hash("s", "b")
    ensures exists e0: Election, e1: Election ::
              && Inv(hash, e0) && "s" in e0.scopes && "s" in e1.scopes
              && Next(hash, "b", e0, Event(MemberEvent(MemberJoin, a)), e1)
              && Commits("b", "s", e0, e1, e1) && e1.scopes["s"].leader == "a"
  {
    var e0 := Election({"b"}, map["s" := Scope("b", 1)], map["s" := ["b"]]);
    var e1 := Election({"b", "a"}, map["s" := Scope("a", 2)], map["s" := ["b", "a"]]);
    assert ["b"] + ["a"] == ["b", "a"] && 1 % TERMS == 1 && 2 % TERMS == 2;
    assert IsLeaderOf(hash, "s", {"b"}, "b");
    assert ScopeInv(hash, e0, "s");
    assert {"b"} + {"a"} == {"b", "a"};
    assert IsLeaderOf(hash, "s", {"b", "a"}, "a");
    assert Recomputed(hash, e1.members, "s", Scope("b", 1), Scope("a", 2), ["b"], ["b", "a"]);
    assert Next(hash, "b", e0, Event(MemberEvent(MemberJoin, a)), e1);
  }

  class RingElection {
    const localId: NodeId
    const hash: ScopeHash
    var members: set<NodeId>
    var scopes: map<string, Scope>
    ghost var history: map<string, seq<NodeId>>

    ghost function View(): Election
      reads this
    {
      Election(members, scopes, history)
    }

    ghost predicate Valid()
      reads this
    {
      Inv(hash, View())
    }

    constructor (localId: NodeId, hash: ScopeHash)
      ensures Valid() && View() == Election({localId}, map[], map[]) && this.localId == localId && this.hash == hash
    {
      this.localId, this.hash := localId, hash;
      members, scopes, history := {localId}, map[], map[];
    }

    method EnsureScope(scope: string) returns (s: Scope)
      requires Valid()
      modifies this`scopes, this`history
      ensures Valid() && Next(hash, localId, old(View()), Ask(scope), View())
      ensures scope in scopes && s == scopes[scope]
    {
      if scope !in scopes {
        var leader := ComputeLeader(hash, scope, members);
        scopes, history := scopes[scope := Scope(leader, 1)], history[scope := [leader]];
      }
      s := scopes[scope];
      NextKeeps(hash, localId, old(View()), Ask(scope), View());
    }

    method Leader(scope: string) returns (leader: NodeId, ok: bool)
      requires Valid()
      modifies this`scopes, this`history
      ensures Valid() && Next(hash, localId, old(View()), Ask(scope), View())
      ensures IsLeaderOf(hash, scope, members, leader) && (ok <==> leader != "")
      ensures scope in scopes && scopes[scope].leader == leader
    {
      var s := EnsureScope(scope);
      assert ScopeInv(hash, View(), scope);
      leader, ok := s.leader, s.leader != "";
    }

    method IsLeader(scope: string) returns (lead: bool)
      requires Valid()
      modifies this`scopes, this`history
      ensures Valid() && Next(hash, localId, old(View()), Ask(scope), View()) && scope in scopes
      ensures lead <==> scopes[scope].leader == localId != ""
    {
      var leader, ok := Leader(scope);
      lead := ok && leader == localId;
    }

    method Term(scope: string) returns (term: nat)
      requires Valid()
      ensures term == if scope in scopes then |history[scope]| % TERMS else 0
    {
      if scope in scopes { TermIsLength(hash, View(), scope); }
      term := if scope in scopes then scopes[scope].term else 0;
    }

    /** Recomputes every known scope over the current members. */
    method Recompute()
      requires scopes.Keys == history.Keys
      modifies this`scopes, this`history
      ensures AllRecomputed(hash, old(scopes), old(history), View())
    {
      var todo, elected := scopes.Keys, scopes;
      ghost var h := history;
      while todo != {}
        invariant todo <= scopes.Keys
        invariant Redone(hash, scopes, history, Election(members, elected, h), todo)
        modifies {}
      {
        var s :| s in todo;
        var leader := ComputeLeader(hash, s, members);
        RedoneMore(hash, scopes, history, Election(members, elected, h), todo, s, leader);
        if leader != scopes[s].leader { h := h[s := h[s] + [leader]]; }
        elected := elected[s := Reelected(scopes[s], leader)];
        todo := todo - {s};
      }
      scopes, history := elected, h;
    }

    method OnMembershipChange(ev: MemberEvent)
      requires Valid()
      modifies this
      ensures Valid() && Next(hash, localId, old(View()), Event(ev), View())
    {
      members := MembersAfter(members, ev);
      Recompute();
      NextKeeps(hash, localId, old(View()), Event(ev), View());
    }

    method SetMembers(metas: seq<NodeMeta>)
      requires Valid()
      modifies this
      ensures Valid() && Next(hash, localId, old(View()), Replace(metas), View())
    {
      members := {localId};
      for i := 0 to |metas|
        invariant members == Ids(metas[..i]) + {localId} && scopes == old(scopes) && history == old(history)
      {
        assert metas[..i + 1] == metas[..i] + [metas[i]];
        members := members + {metas[i].id};
      }
      assert metas[..|metas|] == metas;
      Recompute();
      NextKeeps(hash, localId, old(View()), Replace(metas), View());
    }

    /** The leader there would be without the given node. */
    method LeaderExcluding(scope: string, exclude: NodeId) returns (leader: NodeId)
      ensures IsLeaderOf(hash, scope, members - {exclude}, leader)
    {
      leader := ComputeLeader(hash, scope, members - {exclude});
    }
  }

  /** The leader foreseen by LeaderExcluding is the one elected once the node has left. */
  lemma ForeseenLeader(hash: ScopeHash, self: NodeId, e: Election, ev: MemberEvent, e': Election, s: string, foreseen: NodeId)
    requires Inv(hash, e) && Next(hash, self, e, Event(ev), e') && s in e.scopes
    requires ev.kind == MemberLeave || ev.kind == MemberFailed
    requires DistinctOn(hash, s, e.members) && IsLeaderOf(hash, s, e.members - {ev.member.id}, foreseen)
    ensures s in e'.scopes && e'.scopes[s].leader == foreseen
  {
    assert ScopeStep(hash, e.scopes, e.history, e', s);
    LeaderUnique(hash, s, e'.members, foreseen, e'.scopes[s].leader);
  }

  /** A join moves a scope's leadership to the joiner or not at all. */
  lemma JoinMovesToJoiner(hash: ScopeHash, self: NodeId, e: Election, ev: MemberEvent, e': Election, s: string)
    requires Inv(hash, e) && Next(hash, self, e, Event(ev), e') && s in e.scopes && ev.kind == MemberJoin
    requires DistinctOn(hash, s, e'.members)
    ensures s in e'.scopes && s in e'.history
    ensures e'.scopes[s].leader != e.scopes[s].leader ==> e'.scopes[s].leader == ev.member.id
    ensures e'.scopes[s].leader == e.scopes[s].leader ==> e'.scopes[s] == e.scopes[s] && e'.history[s] == e.history[s]
  {
    assert ScopeInv(hash, e, s) && ScopeStep(hash, e.scopes, e.history, e', s);
    JoinExact(hash, s, e.members, ev.member.id, e.scopes[s].leader, e'.scopes[s].leader);
  }

  lemma BystanderLoss(hash: ScopeHash, members: set<NodeId>, r: NodeId, s: string, was: Scope, now: Scope, h: seq<NodeId>, h': seq<NodeId>)
    requires IsLeaderOf(hash, s, members, was.leader) && Recomputed(hash, members - {r}, s, was, now, h, h')
    requires DistinctOn(hash, s, members) && was.leader != r
    ensures now == was && h' == h
  {
    if members != {} {
      assert was.leader in members - {r};
      LeaderUnique(hash, s, members - {r}, was.leader, now.leader);
    }
  }

  /** The loss of a node that leads nothing changes no scope and no term. */
  lemma BystanderLossChangesNothing(hash: ScopeHash, self: NodeId, e: Election, ev: MemberEvent, e': Election)
    requires Inv(hash, e) && Next(hash, self, e, Event(ev), e')
    requires ev.kind == MemberLeave || ev.kind == MemberFailed
    requires forall s :: s in e.scopes ==> DistinctOn(hash, s, e.members) && e.scopes[s].leader != ev.member.id
    ensures e'.scopes == e.scopes && e'.history == e.history
  {
    forall s | s in e.scopes ensures e'.scopes[s] == e.scopes[s] && e'.history[s] == e.history[s] {
      assert ScopeInv(hash, e, s) && ScopeStep(hash, e.scopes, e.history, e', s);
      BystanderLoss(hash, e.members, ev.member.id, s, e.scopes[s], e'.scopes[s], e.history[s], e'.history[s]);
    }
  }
}
