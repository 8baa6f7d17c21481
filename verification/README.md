# westcoast in Dafny

westcoast is an actor runtime with a peer-to-peer cluster layer. This project models its
hardest parts and proves what they keep: routing on the ring overlay, consistent-hash
placement, the singleton handoff, ring election with term fencing, membership providers,
request and reply, mailboxes and the actor loop, process identifiers across restarts,
publish/subscribe, routers, monitors and the name registry.

`dafny verify dfyconfig.toml` checks everything.

## How the model is built

Code that updates fields or walks slices is modelled as classes and methods with loops; each
is proved against a function or predicate on values. What holds across goroutines or nodes is
modelled as a step system whose steps are the lock regions, channel operations and messages of
the code; the theorems there quantify over every run.

| files | part of the system |
|---|---|
| `RingMath`, `Ring`, `RingRouting`, `Forwarding` | ring overlay: construction, fingers, greedy routing, connections, multi-hop sends |
| `Placement` | replicas of a key on the ring, and their stability |
| `SingletonManager`, `SingletonProtocol`, `SingletonRuns`, `SingletonMoves`, `SingletonNetwork` | one node's singleton lifecycle; the handoff between nodes; runs that break one assumption; when an instance stays, stops and moves; nodes as objects |
| `Election` | ring election, terms, fencing of failure handling |
| `Membership`, `Providers` | what a provider knows of a node; the polling and the static provider |
| `Pid`, `AskTables`, `AskProtocol`, `AskDelivery`, `ReplyRouting` | process identifiers, ask tables, ask over all interleavings, which replies arrive, the way back of a reply |
| `Mailbox`, `ActorCore`, `ActorLoop` | mailbox on an array, supervision, the actor goroutine and its producers |
| `Generations` | PID generations through restarts |
| `TopicPattern`, `Trie`, `Broker` | topic patterns, the subscription trie on the heap, the broker |
| `Routers`, `LoneSends` | worker selection, fairness, recursion of send and dispatch; when a send with no other sender ends |
| `Monitors`, `NameRegistry` | monitor references; names of actors |
| `Basics`, `ClusterTypes` | shared notions; node identifiers, metadata and membership events |

### Where the code does less than one might expect

Each of these is shown by a lemma about a concrete state or a family of states. The lemmas
named `...Exact` or `...Exactly`, and `BatchIsDequeues`, give the exact condition.

- A pattern that ends in `+` is accepted and indexed but never recorded in the trie, so its
  subscribers get nothing: `Broker.PlusAtEndIsLost`, `Broker.ServedExactly`,
  `Broker.AllServedExactly`.
- A subscriber that subscribes again under the same key with another PID, as after a restart,
  is published to under the old PID until somebody unsubscribes: `Broker.ResubscriptionIsNotTold`,
  `Broker.StaleExactly`, `Broker.RebuildHeals`.
- A reply with the id of another request uses up the chance of the one it is sent to:
  `AskDelivery.MismatchIsLost`.
- The singleton can run twice when the previous leader is looked up wrongly, when a handoff
  gives up before the old instance has stopped, when two nodes take themselves for the leader,
  when leadership moves between the two election reads of a lock region or between the term
  check and the start of a completion, and when an answer goes to a node that only forwarded
  the request: `SingletonRuns.EveryAssumptionIsNeeded` and the runs it is made of, with
  `SingletonProtocol.StartExact` as the condition of one step. Stopping a manager does not
  abort an activation: `SingletonRuns.StopDoesNotAbort`.
- The fencing check compares terms read after the leadership check; leadership that moves
  between those two reads goes unnoticed: `Election.CommitAfterLosingLead`,
  `Election.CommitExact`.
- Hash ties make the elected leader depend on map order: `Election.AgreementExact`.
- Tag comparison takes a missing key for an empty tag: `Membership.TagsEqualExact`.
- A dropped membership event is not made up for: `Providers.DroppedDisagrees`,
  `Providers.DrainedExact`.
- A reply sent on a node whose own name is `__ask_reply@` plus the asker's name stays there:
  `ReplyRouting.ReplyStuck`, `ReplyRouting.ReplyLeavesExactly`.
- Keys of PIDs collide when a namespace or an actor contains a colon, a registration under a
  shared key revives a stale PID, and a second PID for an actor leaves the first valid across
  restarts: `Pid.KeyExact`, `Generations.SharedKeyRevivesStale`, `Generations.RevivedExact`,
  `Generations.SecondIssueKeepsFirst`, `Generations.SurvivesRestartExact`.
- A batch dequeue leaves the notify token unset in one case in which single dequeues set it:
  `Mailbox.BatchIsDequeues`.
- A send among others need not end where a chain of possible picks comes back to a router, and
  a send alone need not end where it can come to a trap, a set of running routers among which
  it can stay: `Routers.SendsEndExactly`, `LoneSends.LoneSendsEndExactly`,
  `LoneSends.RoundRobinEndsExactly`, `LoneSends.AloneIsDifferent`.

### Parameters

Hash functions are parameters, used only through the distinctness of the hashes in play.
Answers of the transport, of probes and discovery, handler results, lifecycle hooks, random
choices and map iteration order are arbitrary inputs.

## Model

| member | source | states |
|---|---|---|
| RingMath.FloorLog2 | src/actor/cluster/topology_ring.go:275-279 | the number of fingers: the k with 2^k <= n < 2^(k+1) |
| RingMath.RingDistance | src/actor/cluster/topology_ring.go:322-329 | clockwise distance lies in [0, n) and is zero exactly between equal indices |
| RingMath.FingerAt | src/actor/cluster/topology_ring.go:284-293 | every finger index is in range and is never the node itself |
| RingMath.FingersDiffer | src/actor/cluster/topology_ring.go:282-293 | fingers at different jumps are different nodes, so the `seen` test never drops one |
| RingMath.NextHopUnique | src/actor/cluster/topology_ring.go:106-144 | the greedy choice is unique: scanning order does not matter |
| RingMath.HopProgress | src/actor/cluster/topology_ring.go:99-144 | every hop strictly decreases the clockwise distance to the target |
| RingMath.HopRankDecreases | src/actor/cluster/topology_ring.go:99-144 | every hop lowers a rank that is at most floor(log2 n) + 2 |
| RingMath.HopRankBound | src/actor/cluster/topology_ring.go:267-295 | the rank of any distance below n is at most floor(log2 n) + 2 |
| Ring.SortByHashAscends | src/actor/cluster/topology_ring.go:236-251 | with distinct hashes sorting yields the same elements in strictly increasing hash order |
| Ring.RingTopology.RingUnique | src/actor/cluster/topology_ring.go:203-265 | all nodes that know the same member set hold the same ring: nodes, positions and index |
| Ring.RingTopology.BuildRingFromNodeSet | src/actor/cluster/topology_ring.go:227-265 | nodes in primary-hash order, all virtual positions in hash order, and an index inverse to the node list, whatever the map order |
| Ring.RingTopology.BuildRing | src/actor/cluster/topology_ring.go:205-217 | the ring over self and members, and none exactly when fewer than two distinct nodes are known |
| RingRouting.BuildFingers | src/actor/cluster/topology_ring.go:269-295 | the finger table is exactly the nodes 1, 2, 4, ... places ahead, none missing |
| RingRouting.ScanCandidates | src/actor/cluster/topology_ring.go:106-144 | both candidate loops together find the candidate of least clockwise distance |
| RingRouting.Route | src/actor/cluster/topology_ring.go:82-145 | succeeds exactly for a target in a ring of two or more, with the target itself within fanout and the closest finger or neighbour otherwise |
| RingRouting.ShouldConnect | src/actor/cluster/topology_ring.go:37-79 | exactly the neighbours and fingers, or everybody in a small cluster; at most 2*fanout + floor(log2 n) nodes |
| RingRouting.RouteUsesLinks | src/actor/cluster/topology_ring.go:81-145 | the next hop is a node self keeps a connection to, is not self, and is strictly closer in distance and in rank |
| Forwarding.ClusterNode.MemberList | src/actor/cluster/cluster.go:260-267 | self and all peers |
| Forwarding.ClusterNode.EnsureConnection | src/actor/cluster/cluster.go:499-524 | connects exactly to a known peer that answers the dial |
| Forwarding.ClusterNode.RemoveConnection | src/actor/cluster/cluster.go:526-533 | drops that connection only |
| Forwarding.ClusterNode.SendRemote | src/actor/cluster/cluster.go:191-258 | reaches the target directly or the ring's next hop; a failed write drops the connection; with working transport every other member can be sent to, and without any dial when the links of the topology are open |
| Forwarding.ClusterNode.Desired | src/actor/cluster/cluster.go:449-456 | the nodes to connect to are the links of the topology, all of them peers |
| Forwarding.ClusterNode.ReconcileConnections | src/actor/cluster/cluster.go:449-475 | connections outside the links are closed, and exactly the links without a connection are being dialled besides earlier dials |
| Forwarding.ClusterNode.DialDone | src/actor/cluster/cluster.go:477-497 | a successful dial adds its connection and a failed one nothing |
| Forwarding.ClusterNode.ConnectsToLinks | src/actor/cluster/cluster.go:449-497 | once its dials have succeeded a node is connected to exactly the links if and only if it was dialling nothing else before |
| Forwarding.ClusterNode.HandleMemberEvent | src/actor/cluster/cluster.go:423-437 | the peer table follows the event as in replay, connections to lost peers and outside the links are closed, and exactly the links still missing are dialled besides earlier dials |
| Forwarding.ForwardOnce | src/actor/cluster/inbound_handler.go:68-72 | a node that is not the target hands the envelope to a member of lower rank |
| Forwarding.HopDescends | src/actor/cluster/cluster.go:203-257 | a hop on any direct connection or along the ring lowers the rank |
| Forwarding.ForwardingBound | src/actor/cluster/inbound_handler.go:68-72 | every forwarding path over one member set visits no node twice and takes at most floor(log2 n) + 2 hops |
| Forwarding.Deliver | src/actor/cluster/inbound_handler.go:68-72 | repeated sending and dispatching delivers from any source to any target within the bound: from any open connections when dials succeed, and with no dial when every node keeps the links of the topology |
| Placement.SearchPosition | src/actor/cluster/topology_ring.go:162-168 | the binary search finds the least position at or after the hash |
| Placement.ClockwiseIsRotation | src/actor/cluster/topology_ring.go:162-174 | walking from that index with wrap-around is walking clockwise from the hash |
| Placement.WalkClockwise | src/actor/cluster/topology_ring.go:170-180 | the walk collects the first occurrences in clockwise order, cut to the wanted number |
| Placement.PreferenceByDistance | src/actor/cluster/topology_ring.go:159-183 | the preference list is in the order of the nodes' first positions clockwise from the key |
| Placement.ReplicasAreClosest | src/actor/cluster/topology_ring.go:151-183 | the replicas are the closest members, as many as asked for or as there are |
| Placement.Responsible | src/actor/cluster/topology_ring.go:151-181 | the min(max(replication, 1), members) members closest clockwise to the key, closest first, without repetition and no others |
| Placement.PreferenceIsPermutation | src/actor/cluster/topology_ring.go:151-181 | the preference list of a key holds every member exactly once |
| Placement.PositionsWithout | src/actor/cluster/topology_ring.go:227-238 | removing a node removes its positions from the ring and moves no other |
| Placement.RemovalDeletes | src/actor/cluster/topology_ring.go:151-181 | removing a node deletes it from every key's preference list and changes nothing else |
| Placement.SurvivorsStay | src/actor/cluster/topology_ring.go:151-181 | surviving replicas stay replicas in order, at most one node is added, and keys not on the removed node keep their replicas |
| SingletonManager.ManagersAreCautious | src/actor/cluster/singleton.go:260-577 | reconciliation and rebalancing start an instance only as leader with no prior instance, and hand over only as leader and without running |
| SingletonManager.SingletonState.DoReconcile | src/actor/cluster/singleton.go:489-521 | a running instance stays as it is, an activation without the lead is aborted, and an idle leader without a prior instance starts in the current term |
| SingletonManager.SingletonState.DoRebalance | src/actor/cluster/singleton.go:281-288 | an active node that does not lead deactivates under the current term with its timer set, and an idle leader beside a live owner hands over; nothing else changes |
| SingletonManager.SingletonState.DoCompleteActivation | src/actor/cluster/singleton.go:647-679 | starts exactly an entry still activating in the expected term, which is still the current one |
| SingletonManager.SingletonState.DoHandoffRequest | src/actor/cluster/singleton.go:702-747 | the node runs nothing afterwards, and says whether it stopped an instance |
| SingletonNetwork.Network.Manage | src/actor/cluster/singleton.go:470-577 | the node object, on the leadership and the term it has read, takes exactly the step of the protocol |
| SingletonNetwork.Network.Receive | src/actor/cluster/singleton.go:702-747 | a request stops the instance of its node and is answered to where it came from, as the protocol step does |
| SingletonNetwork.Network.Finish | src/actor/cluster/singleton.go:647-679 | the completion of the node object is the protocol step |
| SingletonNetwork.Network.Wind | src/actor/cluster/singleton.go:683-699 | deactivation timer and manager stop of the node object are the protocol steps |
| SingletonNetwork.Network.Perform | src/actor/cluster/singleton.go:470-771 | every step is carried out by the node objects |
| SingletonNetwork.Network.PerformAll | src/actor/cluster/singleton.go:470-771 | after every allowed run at most one of the node objects runs the singleton |
| SingletonProtocol.ActKeeps | src/actor/cluster/singleton.go:489-577 | acting on what was read keeps the invariant, whether it starts, launches a handoff or neither |
| SingletonProtocol.LeaderChangeKeeps | src/actor/cluster/singleton.go:485-489 | a leadership change at a node that has not read it leads keeps the invariant |
| SingletonProtocol.OpenCompleteKeeps | src/actor/cluster/singleton.go:647-662 | reading the current term in a completion keeps the invariant |
| SingletonProtocol.FinishKeeps | src/actor/cluster/singleton.go:662-679 | starting on that reading keeps the invariant |
| SingletonProtocol.DeliverResponseKeeps | src/actor/cluster/singleton.go:750-771 | an answer keeps the invariant when it went to the asker or meets no wait |
| SingletonProtocol.DeliverRequestKeeps | src/actor/cluster/singleton.go:702-747 | answering a handoff request, from whichever node it comes in, keeps the invariant |
| SingletonProtocol.StepKeeps | src/actor/cluster/singleton.go:470-771 | every allowed step of every lock region, goroutine, envelope and timer keeps the invariant |
| SingletonProtocol.SingletonAtMostOne | src/actor/cluster/singleton.go:470-771 | in every interleaving on any number of nodes that keeps the five assumptions, the singleton runs on at most one node |
| SingletonProtocol.StartExact | src/actor/cluster/singleton.go:489-679 | any step keeps the property if and only if whatever it starts, it starts alone |
| SingletonRuns.AssumptionsAreAllowed | src/actor/cluster/singleton.go:470-771 | the steps allowed in the theorem are those that keep all five assumptions |
| SingletonRuns.EveryAssumptionIsNeeded | src/actor/cluster/singleton.go:470-771 | for each assumption a run from one instance and no handoff keeps the other four and ends with two instances |
| SingletonRuns.WrongLookupDuplicates | src/actor/cluster/singleton.go:530-547 | a lookup that misses the runner, or takes it for failed, leads to two instances |
| SingletonRuns.EarlyTimeoutDuplicates | src/actor/cluster/singleton.go:600-643 | a handoff that gives up while the old instance runs leads to two instances |
| SingletonRuns.SplitLeadershipDuplicates | src/actor/cluster/singleton.go:600-679 | two nodes that lead in their own view are both answered by one runner, and both start |
| SingletonRuns.SplitReadsDuplicate | src/actor/cluster/singleton.go:276-279 | leadership that moves between the two election reads of a rebalancing leads to two instances, though never two nodes lead |
| SingletonRuns.LateStartDuplicates | src/actor/cluster/singleton.go:662-678 | leadership that moves between the term check and the start of a completion leads to two instances |
| SingletonRuns.MisdirectedAnswerDuplicates | src/actor/cluster/singleton.go:702-771 | a late request that comes in through a waiting node is answered to that node, which starts beside the running instance |
| SingletonRuns.StopDoesNotAbort | src/actor/cluster/singleton.go:223-240 | a stopped manager's pending activation still starts the instance |
| SingletonMoves.GivingUpExact | src/actor/cluster/singleton.go:281-284 | an active instance begins to be given up exactly in a rebalancing that has read another leader, under the term read, and otherwise stays as it is or stops |
| SingletonMoves.HaltsExact | src/actor/cluster/singleton.go:223-240 | a running instance stops exactly by a request, a stop of its manager, or its timer while it is being given up |
| SingletonMoves.Sticky | src/actor/cluster/singleton.go:462-500 | in every run, however leadership and terms go, an active instance stays unless its own node rebalances, is asked for it or stops |
| SingletonMoves.RebalanceGivesUp | src/actor/cluster/singleton.go:581-595 | after a rebalancing that finds another leader the instance has stopped at the latest when its timer finds the lock free, whatever happens until then |
| SingletonMoves.AbortIsFinal | src/actor/cluster/singleton.go:502-509 | a reconciliation that finds another leader aborts an activation, and in every run its handoff starts nothing before the node decides again |
| SingletonMoves.SupersededNeverStarts | src/actor/cluster/singleton.go:655-667 | in every run an activation whose term is over starts nothing before the node decides again |
| SingletonMoves.RebalanceMoves | src/actor/cluster/singleton.go:260-747 | from every state with one runner, an idle leader and both locks free, a run that keeps all assumptions moves the instance to the leader and changes nothing else for good |
| SingletonMoves.FailoverStarts | src/actor/cluster/singleton.go:530-547 | an idle leader that finds no prior instance starts in its current term, reconciling or rebalancing |
| SingletonMoves.UnreachableStarts | src/actor/cluster/singleton.go:621-628 | a peer that cannot be reached and runs nothing does not hold the handoff up |
| SingletonMoves.LaunchExact | src/actor/cluster/singleton.go:549-577 | exactly when a handoff begins, and with which term and peer |
| SingletonMoves.OwnerIsLeftAlone | src/actor/cluster/singleton.go:549-554 | a leader that finds a live owner without rebalancing changes nothing |
| Election.ComputeLeader | src/actor/cluster/election_ring.go:190-210 | a member of lowest hash, or none without members |
| Election.LeaderUnique | src/actor/cluster/election_ring.go:190-210 | with distinct hashes all nodes compute the same leader |
| Election.AgreementExact | src/actor/cluster/election_ring.go:189-210 | the leader is determined by the member set if and only if no tie stands at the lowest hash |
| Election.JoinExact | src/actor/cluster/election_ring.go:85-111 | after a join the leader is the joiner if its hash is lower, and the old leader otherwise |
| Election.RemovalExact | src/actor/cluster/election_ring.go:85-111 | the leader changes if and only if it is the leader that is removed |
| Election.NextKeeps | src/actor/cluster/election_ring.go:85-136 | every operation keeps stored leaders of lowest hash and terms equal to the number of leaders modulo 2^64 |
| Election.RunKeeps | src/actor/cluster/election_ring.go:85-166 | the same over every run, with leader histories that only grow |
| Election.MembersExact | src/actor/cluster/election_ring.go:85-122 | after every run a node is a member exactly if the last event or replacement that concerns it says so, or none does and it was one |
| Election.MembersFollowPeers | src/actor/cluster/election_ring.go:85-94 | an instance that starts alone has as members itself and the peers that the same events leave in the peer table |
| Election.InstancesAgree | src/actor/cluster/election_ring.go:9-15 | two instances with equal members store equal leaders |
| Election.JoinMovesToJoiner | src/actor/cluster/election_ring.go:85-111 | a join moves a scope's leadership to the joiner, with a new term, or leaves scope and term alone |
| Election.BystanderLossChangesNothing | src/actor/cluster/election_ring.go:85-111 | the loss of a node that leads no scope changes no leader and no term |
| Election.ForeseenLeader | src/actor/cluster/election_ring.go:144-156 | the leader computed without a node is the one elected once it has left |
| Election.TermFences | src/actor/cluster/election_ring.go:97-110 | within fewer than 2^64 steps the term is unchanged if and only if leadership never changed in between |
| Election.CommitExact | src/actor/cluster/supervision_cluster.go:84-122 | a handling commits exactly if this node led at the first read and the leaders did not change between the two term reads; it is then by the leader, and under unbroken leadership, exactly if leadership had not moved between the first two reads |
| Election.CommitAfterLosingLead | src/actor/cluster/supervision_cluster.go:86-90 | leadership lost between the leadership check and the term read is not noticed |
| Election.RingElection.EnsureScope | src/actor/cluster/election_ring.go:158-166 | a new scope starts in term 1 with the current leader; a known one is left alone |
| Election.RingElection.Leader | src/actor/cluster/election_ring.go:40-45 | the stored leader, a member of lowest hash |
| Election.RingElection.IsLeader | src/actor/cluster/election_ring.go:48-51 | true exactly when this node is the stored leader |
| Election.RingElection.Term | src/actor/cluster/election_ring.go:54-62 | the number of leaders so far modulo 2^64, and 0 for an unknown scope |
| Election.RingElection.Recompute | src/actor/cluster/election_ring.go:97-110 | every scope gets a leader over the new members; its term rises by one exactly when the leader differs |
| Election.RingElection.OnMembershipChange | src/actor/cluster/election_ring.go:85-111 | a membership event is one step that keeps the invariant |
| Election.RingElection.SetMembers | src/actor/cluster/election_ring.go:114-136 | replacing the members is one step that keeps the invariant |
| Election.RingElection.LeaderExcluding | src/actor/cluster/election_ring.go:146-156 | the lowest-hash member without the excluded node |
| Membership.TagsEqualExact | pkg/providerutil/poller.go:232-242 | the tag comparison is equality against every other tag set if and only if no tag is empty |
| Membership.AliveExact | pkg/providerutil/poller.go:181-221 | a node is alive if and only if it is known and its run of misses is short of the threshold, and the counter is that run |
| Membership.FailedExact | pkg/providerutil/poller.go:207-221 | Failed is emitted exactly at the threshold-th consecutive miss of a known node |
| Membership.JoinedExact | src/actor/cluster/provider_fixed.go:164-187 | Join is emitted exactly for a new node or one that answers after having failed |
| Membership.UpdatedExact | pkg/providerutil/poller.go:205-211 | an update is emitted exactly for other tags of a live node, where updates are taken over |
| Membership.SightingTells | pkg/providerutil/poller.go:183-211 | a sighting leaves the node alive, with the metadata shown or its own of the same tags |
| Membership.EventsTell | pkg/providerutil/poller.go:180-221 | joins and failures of a node alternate, updates come while it is up, and the last event gives its state and metadata |
| Membership.ReplayIsPerNode | src/actor/cluster/cluster.go:423-435 | a peer is in the table exactly when its own last event says so, with that event's metadata |
| Membership.ReplayExact | src/actor/cluster/cluster.go:423-435 | two event logs give the same peer table if and only if they agree on every node's last event |
| Membership.ReplayIsAlive | src/actor/cluster/cluster.go:423-435 | replaying all emitted events gives exactly the provider's live members with their metadata |
| Providers.TakeOk | src/actor/cluster/cluster.go:410-421 | the reader takes events in the order they were sent, none twice and none skipped |
| Providers.DrainedAgrees | src/actor/cluster/provider_fixed.go:204-210 | with no dropped event and the channel drained, the reader's peer table is the live membership |
| Providers.DrainedExact | src/actor/cluster/provider_fixed.go:204-210 | with the channel drained, the reader's peer table is the live membership if and only if for every node the last event accepted agrees with the last emitted |
| Providers.DroppedDisagrees | src/actor/cluster/provider_fixed.go:204-210 | a channel of one that is offered a join and a failure, and then drained, leaves the reader with a peer that is gone |
| Providers.ProgressStep | pkg/providerutil/poller.go:180-221 | looking at one more node changes that node's record and events only, whatever the order |
| Providers.SeenInExact | pkg/providerutil/poller.go:171-178 | a poll shows exactly the discovered nodes other than the polling one, each as listed last |
| Providers.AliveIsRecent | pkg/providerutil/poller.go:167-222 | in every run of polls a node is alive exactly if one of the last polls, as many as misses make it fail, showed it |
| Providers.Poller.Sight | pkg/providerutil/poller.go:181-205 | a seen node joins, returns, is updated, or has its misses reset |
| Providers.Poller.Miss | pkg/providerutil/poller.go:208-221 | a missed live node is counted, and fails at the threshold |
| Providers.Poller.CollectSeen | pkg/providerutil/poller.go:171-178 | exactly the discovered nodes other than self, each as listed last |
| Providers.Poller.DiffMembers | pkg/providerutil/poller.go:165-222 | members and events stay what the polls make them; alive are exactly the nodes shown by one of the last polls, so every node just discovered, with the tags it showed |
| Providers.Poller.constructor | pkg/providerutil/poller.go:34-44 | thresholds and capacities below one are replaced by the defaults |
| Providers.ObservedOnce | src/actor/cluster/provider_fixed.go:164-202 | one observation keeps members and events what the observations of every node make them |
| Providers.FixedProvider.constructor | src/actor/cluster/provider_fixed.go:49-62 | only a zero threshold is replaced by the default |
| Providers.FixedProvider.HandleProbeSuccess | src/actor/cluster/provider_fixed.go:164-187 | a successful probe is one sighting of that node |
| Providers.FixedProvider.HandleProbeFailure | src/actor/cluster/provider_fixed.go:189-202 | a failed probe is one miss of that node |
| Providers.FixedProvider.AddMember | src/actor/cluster/provider_fixed.go:245-257 | registering by hand joins an unknown node and ignores a known one, dead or alive |
| Pid.ReplyNamespaceRoundTrip | src/actor/cluster/remote_send.go:16-21 | the node is recovered from its reply namespace, which no other node shares |
| Pid.KeyInjective | src/actor/pid.go:30-32 | keys identify namespace and actor when namespaces contain no colon |
| Pid.KeyExact | src/actor/pid.go:30-32 | a key identifies its address if and only if neither namespace nor actor contains a colon |
| Pid.KeyCollides | src/actor/pid.go:30-32 | two addresses that share a key |
| Pid.AskIdInjective | src/actor/runtime.go:1173-1181 | request ids differ whenever their numbers do |
| Pid.ReplyKeyInjective | src/actor/runtime.go:1173-1181 | reply addresses of different requests have different keys |
| AskTables.InsertKeepsInverse | src/actor/runtime.go:1182-1192 | adding a request keeps the two tables mutually inverse |
| AskTables.CloseKeepsInverse | src/actor/runtime.go:1195-1207 | closing a request keeps them inverse |
| AskTables.ClaimKeepsInverse | src/actor/runtime.go:1247-1275 | claiming a reply keeps them inverse |
| AskTables.LookupExact | src/actor/runtime.go:1247-1275 | a reply address finds exactly its own open request, and nothing else finds it |
| AskTables.AskState.NewAskRequest | src/actor/runtime.go:1173-1193 | a fresh request id and reply address enter both tables |
| AskTables.AskState.CompleteAskRequest | src/actor/runtime.go:1195-1207 | leaves both tables, records the request, and never makes the records more than they were or 4096 |
| AskTables.AskState.ClaimReply | src/actor/runtime.go:1247-1275 | the pending entry is taken once; without one the record of a closed request is found |
| AskProtocol.ClaimedChannelEmpty | src/actor/runtime.go:1276-1294 | the channel a reply is about to enter is empty and never held one before |
| AskProtocol.StepKeeps | src/actor/runtime.go:1173-1294 | every step of askers and repliers keeps the invariant |
| AskProtocol.AskSafety | src/actor/runtime.go:1173-1294 | in every interleaving: tables inverse, at most one envelope in a channel and one delivered reply per request, the duplicate branch never taken, and answers that carry their own request id |
| AskDelivery.AskAwaits | src/actor/runtime.go:1173-1193 | a new request awaits its reply |
| AskDelivery.AwaitsOn | src/actor/runtime.go:1231-1244 | in every run it goes on waiting until its asker gives up or somebody replies to its address |
| AskDelivery.ReplyArrives | src/actor/runtime.go:1247-1290 | what is sent to the address of a waiting request is what its Ask returns, with one delivery counted, in every interleaving in which the asker does not give up |
| AskDelivery.MismatchIsLost | src/actor/runtime.go:1280-1286 | an envelope with the id of another request uses up the only chance: in no run does that Ask return a reply |
| AskDelivery.GivenUpIsLost | src/actor/runtime.go:1236-1244 | in no run does an Ask that has given up return a reply |
| AskDelivery.ResultsWereSent | src/actor/runtime.go:1247-1290 | every reply that an Ask returns was sent in that run to its own address, with that body |
| AskDelivery.LateReplyIsKnown | src/actor/runtime.go:1260-1269 | in every run a reply after the end of its Ask claims nothing and is recognised as late, until its record is evicted |
| AskDelivery.SecondReplyIsKnown | src/actor/runtime.go:1260-1274 | so is a second reply to one request, from the moment the first was taken |
| ReplyRouting.HandledOnlyAtHome | src/actor/runtime.go:1247-1258 | a node answers a reply address itself if and only if it issued it |
| ReplyRouting.ReplyLeavesExactly | src/actor/pid.go:37-57 | a reply leaves another node for its home if and only if that node is not named after the home's reply namespace; the envelope is addressed to the home |
| ReplyRouting.ReplyStuck | src/actor/pid.go:37-57 | the failing case |
| ReplyRouting.ReplyGoesHome | src/actor/cluster/inbound_handler.go:68-112 | for every node not named after the home's reply namespace, along every path the envelope is forwarded until home, dispatched there as a reply, and claims exactly the entry of its own request |
| Mailbox.DequeueTimesTakes | src/actor/mailbox.go:59-84 | n single dequeues take the first n messages in order |
| Mailbox.BatchIsDequeues | src/actor/mailbox.go:87-122 | a batch returns and leaves what as many single calls do; the notify token agrees except exactly when several messages emptied the queue without a token |
| Mailbox.HistoryTells | src/actor/mailbox.go:33-136 | after every history what was taken and what is queued is what was accepted, in order, within the capacity |
| Mailbox.AnswersExact | src/actor/mailbox.go:33-122 | the answer to every operation after every history: refused exactly when shut or when as many as the capacity are unread, and dequeues get the oldest unread, a batch as many as it asks for |
| Mailbox.TokenExact | src/actor/mailbox.go:45-52 | the notify token comes exactly with a message put into an empty mailbox or a dequeue that takes some and leaves some, and goes exactly when taken |
| Mailbox.Mailbox.constructor | src/actor/mailbox.go:16-30 | an empty mailbox, of capacity 16 if none is given |
| Mailbox.Mailbox.StorageBound | src/actor/mailbox.go:59-122 | the backing length never exceeds 2*max + 64 |
| Mailbox.Mailbox.Enqueue | src/actor/mailbox.go:33-53 | refines the bounded queue: accepted at the end, refused when closed or full |
| Mailbox.Mailbox.Compact | src/actor/mailbox.go:71-76 | moves the live part to the front without losing or reordering any of it |
| Mailbox.Mailbox.Dequeue | src/actor/mailbox.go:59-84 | refines taking the first message |
| Mailbox.Mailbox.DequeueBatch | src/actor/mailbox.go:87-122 | refines taking min(max(limit, 1), depth) messages |
| Mailbox.Mailbox.Depth | src/actor/mailbox.go:125-129 | the length of the queue |
| Mailbox.Mailbox.Close | src/actor/mailbox.go:132-136 | closes and keeps the queue |
| ActorCore.ActorInstance.Settle | src/actor/runtime.go:850-933 | state, revision, restarts and status after a handler result, and the decision: a restart exactly while fewer than maxRestarts (one, if negative) have been made, afterwards stop or escalation as configured |
| ActorCore.ActorInstance.SettleEach | src/actor/runtime.go:741-759 | a batch without receiver is settled message by message |
| ActorLoop.CallKeepsFold | src/actor/runtime.go:741-933 | a handler call, single or batched, keeps the state the fold of the log |
| ActorLoop.DequeuesKeep | src/actor/runtime.go:712-737 | dequeuing keeps order, wakeups and fold |
| ActorLoop.StepKeeps | src/actor/runtime.go:702-933 | every step of producers, consumer and reconfiguration keeps the invariant |
| ActorLoop.RunIsFold | src/actor/runtime.go:702-933 | in every run messages are handled in the order of acceptance, state and what each call is given are the fold of the calls, and restarts are the failures up to maxRestarts, or one if it is negative |
| ActorLoop.HandlerRunIsFold | src/actor/runtime.go:702-933 | in every run whose calls answer as a handler does, the state and what each call is given are the fold of the handler over the messages since the last reset |
| ActorLoop.NextResultExact | src/actor/runtime.go:741-933 | in every run the first maxRestarts failures put the initial state back and the actor runs on if its hook succeeds; every later one, or a failing hook, ends it with mailbox closed; a success is the new state |
| ActorLoop.ClosedAcceptsNothing | src/actor/runtime.go:829-842 | an actor that has ended accepts nothing in any run |
| ActorLoop.StopEnds | src/actor/runtime.go:711-716 | after a stop request a waiting actor exits and in every run accepts and handles nothing more |
| ActorLoop.TakesNext | src/actor/runtime.go:717-736 | a draining consumer takes the oldest message, or as many as its batch size, and waits when there are none |
| ActorLoop.HandsOver | src/actor/runtime.go:741-763 | a batch goes to its receiver at once, and otherwise message by message, with the current state |
| ActorLoop.CanFinish | src/actor/runtime.go:711-738 | from every reachable state of an actor that has not exited, the consumer can handle everything accepted |
| ActorLoop.NothingLeftBehind | src/actor/runtime.go:702-737 | no wakeup is lost; a consumer that waits without a token has handled everything accepted |
| Generations.InMemoryPIDResolver.BumpGeneration | src/actor/pid_resolver.go:84-97 | the generation rises by one in the entry, which is the PID returned, and the route is reachable |
| Generations.IssueStarts | src/actor/runtime.go:1513-1528 | issuing an actor's PID starts the count at generation 1 |
| Generations.CurrentKeeps | src/actor/runtime.go:895-901 | every step, also between the steps of a restart, keeps resolver, stored PID and restart count in agreement |
| Generations.GenerationCounts | src/actor/runtime.go:804-810 | in every run resolver and stored PID carry 1 plus the restarts begun since issue, with the exact lag while a restart is under way |
| Generations.RouteFollowsRestarts | src/actor/runtime.go:895-901 | in every run in which nobody else sets it, the route is restarting exactly between mark and new generation, and reachable otherwise |
| Generations.StaleNeverDelivered | src/actor/runtime.go:1579-1625 | a send begun with an older PID is not delivered, however the run goes on |
| Generations.DeliveredExact | src/actor/runtime.go:1579-1625 | a send is delivered if and only if its PID has the generation of the last completed restart, the route is not stopped, the gateway is up and the actor accepts |
| Generations.RestartRaises | src/actor/runtime.go:895-901 | an undisturbed restart raises the stored PID's entry and stores the new PID |
| Generations.SurvivesRestartExact | src/actor/runtime.go:895-901 | a PID that is delivered now is delivered after an actor's restart if and only if it has not the key of the stored PID |
| Generations.RevivedExact | src/actor/pid_resolver.go:49-53 | a stale PID becomes deliverable by a registration if and only if that one has its key and its generation |
| Generations.LocalRuntime.MarkRestarting | src/actor/runtime.go:895-897 | marking through the resolver object is the protocol step |
| Generations.LocalRuntime.BumpStored | src/actor/runtime.go:898-900 | bumping through the resolver object is the protocol step |
| Generations.LocalRuntime.Perform | src/actor/runtime.go:895-901 | every step of issue, restart, routing and removal is carried out on the resolver object |
| Generations.LocalRuntime.PerformAll | src/actor/runtime.go:804-810 | after every allowed run the resolver object and the stored PID carry 1 plus the restarts begun since issue |
| Generations.LocalRuntime.SendPID | src/actor/runtime.go:1579-1625 | each outcome of a local send exactly when its condition holds, and no delivery to a PID older than the last completed restart |
| Generations.SecondIssueKeepsFirst | src/actor/runtime.go:1513-1528 | a PID issued before another one stays valid across restarts |
| Generations.SharedKeyRevivesStale | src/actor/pid_resolver.go:49-53 | a PID that shares a key resets the generation, and a stale PID is delivered again |
| TopicPattern.SplitJoin | src/actor/pubsub_pattern.go:13-49 | splitting at dots loses nothing and leaves no dot in a segment |
| TopicPattern.JoinSplit | src/actor/pubsub_pattern.go:17-17 | joining segments without dots is undone by splitting |
| TopicPattern.ParsePatternExact | src/actor/pubsub_pattern.go:13-33 | patterns are exactly the joins of words and single wildcards, with `#` only at the end, that are not blank, and parse to those segments |
| TopicPattern.ParseTopicExact | src/actor/pubsub_pattern.go:35-49 | topics are exactly the joins of words that are not blank |
| TopicPattern.MatchesExact | src/actor/pubsub_trie.go:52-76 | matching by position equals matching segment by segment, where `#` takes whatever is left |
| Trie.SpellsIsPointwise | src/actor/pubsub_trie.go:68-70 | a trie path matches a topic exactly when its segments do, one for one |
| Trie.EntryIsPattern | src/actor/pubsub_trie.go:26-50 | a recorded entry matches a topic exactly when its pattern does under the `+` and `#` rules |
| Trie.HitStep | src/actor/pubsub_trie.go:55-71 | the recursion of match: tail subscribers here, exact ones at the end, else the literal and the star branch |
| Trie.AttachKeeps | src/actor/pubsub_trie.go:33-45 | adding an empty node keeps links and contents in order |
| Trie.NoteKeeps | src/actor/pubsub_trie.go:29-48 | recording a subscriber keeps links and contents in order |
| Trie.SubscriptionTrie.Descend | src/actor/pubsub_trie.go:33-45 | finds or creates the node one segment below, recording nothing |
| Trie.SubscriptionTrie.Insert | src/actor/pubsub_trie.go:26-50 | records exactly the entry of the pattern with this PID, and nothing for a final `+` |
| Trie.SubscriptionTrie.Walk | src/actor/pubsub_trie.go:55-71 | adds exactly the keys hit at or below the node, each with a PID held for one of its matching entries |
| Trie.SubscriptionTrie.Match | src/actor/pubsub_trie.go:52-78 | exactly the keys with a matching entry, each once, with a PID held for one of them |
| Broker.AddKeeps | src/actor/pubsub_broker.go:84-95 | a subscription keeps the indexes mutually inverse and adds one pair |
| Broker.DropKeeps | src/actor/pubsub_broker.go:135-148 | an unsubscription keeps them inverse, leaves no empty entry and takes one pair away |
| Broker.FirstIsAlone | src/actor/pubsub_broker.go:95 | the first-subscriber test holds exactly when the pattern was absent |
| Broker.NotesAlternate | src/actor/pubsub_broker.go:101-154 | consecutive callbacks about one pattern are of different kinds |
| Broker.EnrolledKeeps | src/actor/pubsub_broker.go:84-104 | a subscription keeps indexes and announcements and announces exactly a new pattern |
| Broker.ExpelledKeeps | src/actor/pubsub_broker.go:133-154 | an unsubscription keeps indexes and announcements |
| Broker.RunKeeps | src/actor/pubsub_broker.go:66-172 | after any run of commands the pairs are those last subscribed and the announced patterns those with a subscriber |
| Broker.ToldExact | src/actor/pubsub_broker.go:85-145 | in every run the index has the PID of each pair's last subscription, and the trie the first since the pair came up or the last before a rebuild |
| Broker.StaleExactly | src/actor/pubsub_broker.go:90-100 | a subscriber reached under its latest PID ceases to be so exactly by subscribing again with another PID of the same key |
| Broker.RebuildHeals | src/actor/pubsub_broker.go:128-145 | anybody's unsubscription brings every subscriber to its latest PID |
| Broker.ResubscriptionIsNotTold | src/actor/pubsub_broker.go:90-100 | an actor that subscribes again under its next generation goes on being published to under the old one |
| Broker.BuildTrie | src/actor/pubsub_broker.go:214-225 | in any order records exactly the entries of the index, with its PIDs |
| Broker.InsertAll | src/actor/pubsub_broker.go:221-223 | the entries of one pattern's subscribers are recorded |
| Broker.PubSubBroker.HandleSubscribe | src/actor/pubsub_broker.go:66-113 | refuses what is not an ask or not a pattern; otherwise the pair joins and the trie still answers for the index |
| Broker.PubSubBroker.HandleUnsubscribe | src/actor/pubsub_broker.go:115-172 | the pair leaves if it was there, and the rebuilt trie answers for the index |
| Broker.PubSubBroker.HandlePublish | src/actor/pubsub_broker.go:174-189 | the targets are exactly the subscribers of matching patterns that do not end in `+`, each once and under a PID the trie was told for one of them; only local publications are broadcast |
| Broker.ServedExactly | src/actor/pubsub_trie.go:33-39 | a subscription is served on every matching topic if and only if its pattern does not end in `+` |
| Broker.AllServedExactly | src/actor/pubsub_trie.go:33-39 | on a topic all matching subscribers are served if and only if each has a matching pattern that does not end in `+` |
| Broker.PlusAtEndIsLost | src/actor/pubsub_trie.go:33-39 | `a.+` matches `a.b` and its subscriber is not served |
| Routers.RoundRobinFair | src/actor/runtime.go:1031-1034 | any k consecutive counter values give each of n residues k/n turns, rounded down or up |
| Routers.PoolIsServedFairly | src/actor/runtime.go:1031-1034 | any k consecutive picks give each worker of the pool k/n messages, rounded down or up, until the counter wraps |
| Routers.NoPickExactly | src/actor/runtime.go:1026-1056 | nobody is picked exactly without workers, with an unknown strategy, or for a keyed router and a message without a key |
| Routers.RandomServesAll | src/actor/runtime.go:1035-1039 | every worker of a random router, and nobody else, can get every message |
| Routers.KeyedPicksAgree | src/actor/runtime.go:1040-1052 | messages of a keyed router go to the same worker exactly if their hashes agree modulo the pool, whatever the counter |
| Routers.OptionsExactly | src/actor/runtime.go:1026-1056 | the options of a router are exactly the workers picked at some value of its counter |
| Routers.PassExactly | src/actor/runtime.go:1058-1107 | a pass is exactly what a dispatch at a registered, running router with some counters does |
| Routers.ChainsEnd | src/actor/runtime.go:1058-1107 | under a rank of what can be picked no chain of passes is longer than the rank of its first actor |
| Routers.SendsEndExactly | src/actor/runtime.go:1058-1107 | sends from an actor end, whatever other senders do to the counters, if and only if no chain of passes from it comes back to an actor, and then after at most one actor more than there are routers |
| Routers.RankedExactly | src/actor/runtime.go:1058-1107 | a rank of what can be picked exists if and only if no chain of passes comes back to an actor |
| Routers.RankBoundsSends | src/actor/runtime.go:1058-1107 | under a rank every send, alone or among others, makes at most rank-many dispatches |
| LoneSends.TrapNeverEnds | src/actor/runtime.go:1058-1107 | a send that has come to a trap, with any counters and no other sender, has runs of every length |
| LoneSends.TrappedNeverEnds | src/actor/runtime.go:1058-1107 | from an actor that can come to a trap there are counters from which a send alone has no bound |
| LoneSends.WaitDrops | src/actor/runtime.go:1031-1034 | every other pick brings a round-robin router one turn closer to a given worker, also across the wrap of its counter |
| LoneSends.BudgetDrops | src/actor/runtime.go:1058-1107 | where there is no trap every dispatch of a send alone spends from a budget of turns and layers |
| LoneSends.LoneSendsEndExactly | src/actor/runtime.go:1058-1107 | a send with no other sender ends from all counters if and only if it can come to no trap; with a trap one table of counters already has no bound |
| LoneSends.RoundRobinEndsExactly | src/actor/runtime.go:1058-1107 | among round-robin routers that is so if and only if every actor it can come to can reach one that passes nothing on |
| LoneSends.AloneIsDifferent | src/actor/runtime.go:1031-1034 | a round-robin router that lists itself and an actor: alone its sends end, among others they need not |
| Routers.RouterRuntime.Normalise | src/actor/runtime.go:981-992 | empty and repeated workers are dropped, the first of each kept in order |
| Routers.RouterRuntime.ConfigureRouter | src/actor/runtime.go:972-1004 | refuses unknown actors and strategies; otherwise sets a pool without repetitions and counter zero |
| Routers.RouterRuntime.Select | src/actor/runtime.go:1026-1056 | picks by strategy and fails exactly when no pick is possible; only a round-robin counter moves |
| Routers.RouterRuntime.Dispatch | src/actor/runtime.go:1058-1072 | hands over to the picked worker, with the counter moved on, and returns its answer; a router without a pick answers that nobody was found |
| Routers.RouterRuntime.Send | src/actor/runtime.go:1079-1171 | every send that ends from the present counters is a run of picks from them, stops where nothing more is picked, is answered by what it meets there, and reaches that actor or none |
| Monitors.DrawnKeeps | src/actor/monitors.go:52 | drawing a reference, before the lock is taken, gives one never used before |
| Monitors.InsertedKeeps | src/actor/monitors.go:53-60 | a monitor enters both indexes under its drawn reference, whatever happened since it was drawn |
| Monitors.RemovedKeeps | src/actor/monitors.go:63-85 | cancelling takes a monitor out of both indexes, once |
| Monitors.DrainedKeeps | src/actor/monitors.go:88-98 | draining keeps both indexes in agreement and fires no reference twice |
| Monitors.DrainExact | src/actor/monitors.go:88-98 | a drain fires exactly the live monitors of the stopped actor and keeps all others |
| Monitors.MonitorsConserved | src/actor/monitors.go:51-123 | in every interleaving of draws, insertions, cancellations and drains each reference is drawn, live, cancelled or fired, exactly one of these, and fired at most once |
| Monitors.FatesExact | src/actor/monitors.go:51-123 | in every run the indexes, cancellations and messages tell of every reference what its history says: waiting, live for that entry, cancelled, or fired by the end of the actor it watches |
| Monitors.MonitorManager.DrawRef | src/actor/monitors.go:52-53 | the reference is nobody else's and never was |
| Monitors.MonitorManager.Enter | src/actor/monitors.go:54-60 | the monitor is in both indexes |
| Monitors.MonitorManager.Remove | src/actor/monitors.go:63-85 | cancels exactly a live reference and leaves no empty list |
| Monitors.MonitorManager.Splice | src/actor/monitors.go:74-80 | cuts out the entry of that reference |
| Monitors.MonitorManager.Drain | src/actor/monitors.go:88-98 | takes all monitors of the actor out of both indexes |
| Monitors.MonitorManager.NotifyMonitors | src/actor/monitors.go:114-123 | every watcher of the actor gets one DownMessage |
| NameRegistry.RegisteredKeeps | src/actor/registry.go:66-82 | registering keeps the indexes mutually inverse |
| NameRegistry.UnregisteredKeeps | src/actor/registry.go:91-106 | unregistering keeps them inverse and leaves no actor without a name |
| NameRegistry.ReleasedKeeps | src/actor/registry.go:108-126 | releasing an actor keeps them inverse and frees exactly its names |
| NameRegistry.UnregisterUndoes | src/actor/registry.go:66-106 | giving up a name just registered restores both indexes |
| NameRegistry.HoldersExact | src/actor/registry.go:66-126 | in every run both indexes say who holds a name: the first to ask for it since it was last given up, by name or with its actor |
| NameRegistry.NamedRegistry.Register | src/actor/registry.go:66-82 | refuses invalid and taken names; otherwise the name is the actor's |
| NameRegistry.NamedRegistry.Unregister | src/actor/registry.go:91-106 | returns and frees the name, if taken |
| NameRegistry.NamedRegistry.UnregisterByActor | src/actor/registry.go:108-126 | returns exactly the actor's entries and frees their names |

## Left out

- gRPC transport, protobuf, TLS, authentication, certificates and the join handshake: I/O and cryptography.
- Cloud and multicast discovery clients: their shared logic is the polling provider.
- CRDT-backed registry and publish/subscribe adapter, replicated daemons: wrappers of a library outside the repository.
- Codecs, metrics, event emission, outcome logs and dead letters: observability around the modelled decisions.
- Cron scheduling, timers, drain sequencing, DaemonSet reconciliation, tag matchers and node selection: easy members or wall-clock waits.
- Election watchers: bounded channels that drop events; they would add only easy members.
- Placed and unclustered singletons, discovery of running singletons from peers, and the state carried by a handoff: the protocol model has one clustered, unplaced singleton.
- The full-mesh topology: it routes in one hop.
- Guardrails, gateway modes beyond "gateway down", and PID interaction policies: single tests in front of the modelled sends.
- Routing rules by message type and the mailbox limits of workers behind a router: an arbitrary answer of the worker.
- SingletonProtocol.SingletonAtMostOne: assumes that at most one node takes itself for the leader, that the previous-leader lookup names a running peer, that a handoff gives up only after its peer has stopped, that a node's election answer does not change between its reads and the start they lead to, and that an answer returning to a forwarding node meets no wait there; each is needed, as `SingletonRuns.EveryAssumptionIsNeeded` shows. The lookup of the previous leader and the start that follows it are one step.
- RingRouting.Route: excludes the empty node name, which cluster construction refuses and which the code uses for "no hop"; hash ties are excluded.
- RingMath.FloorLog2: stands for the floating-point logarithm, whose rounding is not modelled.
- Forwarding.ClusterNode.SendRemote: deadlines and cancellation appear as failed dials and writes; two sends of one node are not interleaved.
- Mailbox.Mailbox.Append: the growth of the backing array is larger by any amount, not Go's policy.
- Trie.SubscriptionTrie.Match: a subscriber with several matching subscriptions under different PIDs is returned with one of those PIDs, which one depends on the walk.
- AskTables.AskState.NewAskRequest: the request counter does not wrap at 64 bits.
- AskTables.AskState.CompleteAskRequest: the record of closed requests has no size bound across replies, because claiming a reply inserts without evicting.
- Providers.Poller.DiffMembers: the count of dropped events does not wrap at 64 bits; members are values in a map, not records shared through pointers.
- Generations.GenerationCounts: generations do not wrap at 64 bits; the tracked actor is neither removed nor issued a second PID, and namespaces contain no colon.
- Monitors.MonitorManager.DrawRef: the reference counter does not wrap at 64 bits.
- Acknowledgements of broker commands are returned outcomes, and callbacks to the cluster are entries of a log; their transport is not modelled.
- Routers.SendsEndExactly: pools, strategies and the status of actors stay as they are during a send; other senders move the counters.
- Routers.RouterRuntime.Select: a hashed pick divides by the length of the pool, which the code first cuts to 32 bits; they differ for pools of 2^32 workers and more.
- Routers.RouterRuntime.Send: asks that the send ends from the present counters, without which the recursion of the code has no result; no other sender comes in between its dispatches.
- Routers.PoolIsServedFairly: stops at the wrap of the 64-bit counter, where the sequence of picks jumps unless the pool size divides 2^64.
