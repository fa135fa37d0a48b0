# Verification of the auction core

This project models the distributed auction of the auction core, the transport and the round loop that run it, the
coordination protocol around it, and the scheduler on top, and proves properties of that model. `dafny verify
dfyconfig.toml` checks all of it.

## What is modelled

**The auction round.** `Prices` and `Engine` hold the price table and the agent: lexicographic max-merge, the outbid
test, the best/second-best scan, the bid `v - w + epsilon`, the quiet count. Classes `PriceTable` and `AuctionAgent`
update their fields as the source does, and each method is proved equal to a function of the old state. `Auction` is
the round as a transition system in which any agent may tick at any time and any message ever sent may arrive any
number of times, in any order, or be dropped. Its invariants (provenance of entries, one slot per agent, local
slackness) hold after every run. `Optimality` derives from them, at the merged prices and without any agreement between
tables, the holders, epsilon-complementary slackness and the n * epsilon guarantee; `BidBound` derives the price ceiling
and the number of bids.

**The round loop.** `Transport` is the simulated transport with its queue in heap order; the random draws are a
parameter that decides loss and delay for every packet. `Rounds` describes a round as the history of states between
iterations of the loop; `Harness` and `EventLoop` are the loop itself over agent objects, down to `RunRound`, whose
result is tied to that history by `Explains`. `Refinement` shows that every history is a run of the transition system,
`Termination` that every history comes to rest, `Agreement` and `Propagation` what lossless networks add, and
`Guarantees` collects what a caller may rely on. `TickBounds` gives the number of iterations that is enough under any
loss, and `Convergence` the smaller one for lossless networks, which depends on the diameter. `Distances` and
`Topologies` are the breadth-first diameter and the topology generators. `Delays` says when packets arrive, to the tick,
and how fast news can travel at most.

**Coordination.** `Messages`, `Leases` and `Heartbeats` are the vocabulary, the lease book and the failure detector.
`Participation` gives every handler and every part of a tick as a function on a robot's state, and says when they raise;
class `CoordinationParticipant` is the object and is proved to follow those functions, whatever messages it is handed.
`FleetRuns` is the fleet with its network and hosts as a transition system with loss, duplication, reordering, injected
tasks and deaths; `Coordination` holds the per-robot steps of its invariants. `ExactlyOnce` says exactly when no task can
be executed twice, and `LonelyRobots` gives a run in which one is. `FleetRecords` says what the recorded past means.

What the handlers amount to is stated on the life of a robot, that is any sequence of messages, ticks and finished tasks:
`RobotLives` and `Knowledge` (what it knows, by what it heard), `Coordinators` (whose turn it is and what is framed),
`RoundHosting` (agents and relays), `Leaseholding` and `LeaseTimes` (work and leases), `Utterances` (what it sends).
`FleetLives` carries this to runs: a robot in a run is what its life has made of it.

`SystemSims` is the simulator loop: each move is one of the steps of a fleet, so every state of a simulation ends a run.
`RobotDays`, `Agendas` and `SimulatedDays` show what a tick of the loop makes of one robot; `Diaries` and `SimTiming`
derive when robots die, tasks arrive, executions end and the mission is complete.

**Scheduling.** `Dag` is Kahn's algorithm, the available tasks and the dependents; `CriticalPath` the longest chain and
the makespan lower bound; `AllocationState`, `RoundOffers`, `Eligibility` and `Allocator` the event-driven allocator.
The allocator relies on a contract of its round runner; `RoundOffers` proves that successful auction rounds fulfil it,
and that there is such a runner. `RowShifts` shows that a round does not see constants added to an agent's row, and
`RoundQuality` says how good the dispatches of one round are.

## Reading the model

- Prices, benefits, times and durations are reals. Identifiers are unbounded integers.
- `History` is the unique sequence of states of a round; `states(k)` is the state before iteration k.
- Dictionaries whose order matters carry it as a sequence (a row's tasks, the agents of a round, a node's neighbours).
- Exceptions are results: `RoundError`, `DiameterResult`, `DagResult`, `Refused`.
- A method that may raise returns whether it did (`raised`, or `failed` of the simulator), and says in which state it
  leaves the object. A tick that raises is no step of `FleetRuns`: a robot it stops is one that dies.
- The allocator's docstring promises a total benefit within n * epsilon for each round. That is so of the padded matrix.
  Of the real benefits it is so exactly when there is a task for every idle robot
  (`RoundQuality.RealBenefitIsGuaranteedIff`): an idle slot is worth 1 less than that robot's own least benefit, so with
  surplus robots only the gain over that floor is near optimal. With a single task left an auction cannot tell a robot
  that values it highly from one that does not, and there are auctions that miss by more than n * epsilon.
- The README of the repository promises convergence in O(diameter * n^2 * range / epsilon) iterations. For lossless
  static networks that is so: `Convergence` proves 1 + (2 n^2 (C + epsilon) / epsilon + 1) (diameter (1 + d) + q + d),
  rounded down, with C the range of an agent's benefits, d the longest delay and q the quiescence rounds. Where packets
  are lost or links change the diameter means nothing; `TickBounds` gives the bound that holds there.
- The second check of the consistency test, two claimants of one task, can never fire after the first; the model proves
  that branch dead. The comment in the harness calls it a separate failure mode.
- An agent that counts itself terminated and then learns something resumes at its next tick, not on receipt, although
  its documentation says that the message un-terminates it; the model follows the code. Delivery never touches the
  quiet count (`Rounds.DeliveryMarksChanges`), and the next tick resets it (`Rounds.ChangedAgentSpeaks`).

## Model

| member | source | states |
|---|---|---|
| Prices.JoinIsLeastUpperBound | auction_core/src/auction_core/auction/prices.py:44-59 | merging yields the least upper bound of the two tables: it loses nothing and invents nothing, whatever bound it is compared with |
| Prices.JoinAllIsLeastUpperBound | auction_core/src/auction_core/types.py:43-54 | a whole batch of tables merged one by one is the least upper bound of all of them |
| Prices.JoinOrderIsIrrelevant | auction_core/src/auction_core/types.py:43-54 | merging is associative, commutative and idempotent in effect: two batches with the same members, in any order and multiplicity, give the same table |
| Prices.PriceTable.Merge | auction_core/src/auction_core/auction/prices.py:44-59 | in-place merge ends in the join of the old table and the incoming one; unknown tasks are ignored and the result says whether anything changed |
| Prices.PriceTable.Bid | auction_core/src/auction_core/auction/prices.py:61-71 | a bid raises exactly one entry by the increment and names the bidder; the two asserted preconditions are those of the source |
| Engine.ScanIsRight | auction_core/src/auction_core/auction/engine.py:87-98 | the single pass finds the first task of maximal net value and the exact maximum over all the others |
| Engine.BidLeavesSlack | auction_core/src/auction_core/auction/engine.py:83-101 | after a bid the agent is the bidder of its task, every price is at least what it was, the price rose by at least epsilon, and its net value is epsilon below the best alternative: exactly, when there is one |
| Engine.HandleAllJoins | auction_core/src/auction_core/auction/engine.py:50-54 | handling a batch equals one merge of all foreign tables, and the dirty flag records exactly whether that changed anything |
| Engine.DeliveryOrderIsIrrelevant | auction_core/src/auction_core/types.py:43-54 | order and repetition of messages never change the state an agent ends in |
| Engine.AuctionAgent.constructor | auction_core/src/auction_core/auction/engine.py:30-46 | a new agent has the initial table over exactly its tasks, no assignment, and is dirty |
| Engine.AuctionAgent.HandleMessage | auction_core/src/auction_core/auction/engine.py:50-54 | the object follows the specified transition, ignoring its own echoes |
| Engine.AuctionAgent.Tick | auction_core/src/auction_core/auction/engine.py:58-73 | the object follows the specified iteration: bid if outbid, advance or reset the quiet count, broadcast unless terminated |
| Engine.AuctionAgent.IsOutbid | auction_core/src/auction_core/auction/engine.py:75-81 | true exactly when unassigned or no longer the bidder of the assigned task |
| Engine.AuctionAgent.ScanRow | auction_core/src/auction_core/auction/engine.py:87-98 | the loop over v, w and best_task computes the specified best task and second-best value |
| Engine.AuctionAgent.BidOnBest | auction_core/src/auction_core/auction/engine.py:83-101 | the object places the specified bid |
| Auction.DeliverKeepsKnown | auction_core/src/auction_core/auction/engine.py:50-54 | provenance survives any delivery: every entry naming a bidder is at most that bidder's own entry |
| Auction.TickKeepsKnown | auction_core/src/auction_core/auction/engine.py:58-73 | provenance survives any tick, including the broadcast it sends |
| Auction.DeliverKeepsAgent | auction_core/src/auction_core/auction/engine.py:50-54 | a delivered table never tells an agent anything new about its own bids, so one-slot and local slackness survive |
| Auction.TickKeepsAgent | auction_core/src/auction_core/auction/engine.py:75-101 | an agent bids only when no entry of its table names it, and afterwards exactly one does, within epsilon of its best |
| Auction.StepKeepsInvariant | auction_core/src/auction_core/auction/engine.py:50-101 | provenance, one-slot and local slackness are inductive over tick, deliver and drop |
| Auction.EveryRunKeepsInvariant | auction_core/src/auction_core/auction/engine.py:50-101 | they hold after every run, whatever was lost, delayed, repeated or reordered |
| Auction.StepGrows | auction_core/src/auction_core/auction/prices.py:44-71 | no step ever lowers an entry of any table |
| Optimality.HolderInvariant | auction_core/src/auction_core/validation/harness.py:115-121 | in every reachable state each positively priced task of the merged table names exactly one agent, which claims that task and has that very entry; every other task has price 0 and no bidder |
| Optimality.SlackAtMergedPrices | auction_core/src/auction_core/auction/engine.py:83-101 | epsilon-complementary slackness at merged prices in every reachable state, although agents bid on stale prices |
| Optimality.MergedIsUnique | auction_core/src/auction_core/validation/harness.py:115-121 | there is only one merged table |
| Optimality.ConsistentClaimsAreDistinct | auction_core/src/auction_core/validation/harness.py:137-147 | claims that pass the first check are pairwise distinct, so the second check is redundant |
| Optimality.SlackImpliesNearOptimal | auction_core/src/auction_core/types.py:77-79 | duality: slackness and free unassigned tasks put a total assignment within n * epsilon of every rival |
| Optimality.WithinNEpsilonOfOptimal | auction_core/src/auction_core/validation/harness.py:115-147 | any state satisfying the invariants whose claims pass the consistency check is within n * epsilon of every injective assignment |
| Optimality.ExactForIntegers | auction_core/src/auction_core/types.py:77-79 | with integer benefits and n * epsilon < 1 the claims attain the true maximum |
| Optimality.EveryConsistentRunIsNearOptimal | auction_core/src/auction_core/validation/harness.py:115-147 | for every run in which every agent ticked and the check passes: all assigned, injective, within n * epsilon of every rival; tables need not agree |
| Optimality.TickedAgentsAreAssigned | auction_core/src/auction_core/auction/engine.py:75-101 | an agent is assigned exactly when it has ticked |
| BidBound.BidOnTaskIsHeld | auction_core/src/auction_core/auction/engine.py:83-101 | whoever was heard of as a bidder, the task still has a holder: a positively priced task never becomes free |
| BidBound.FreeTasksRemain | auction_core/src/auction_core/auction/engine.py:83-101 | while some agent holds nothing, at least m - n + 1 tasks have never been bid on by anyone |
| BidBound.FewTasksAreBidOn | auction_core/src/auction_core/auction/engine.py:83-101 | never more tasks have been bid on than there are agents: each has a holder of its own |
| BidBound.StepKeepsCeiling | auction_core/src/auction_core/auction/engine.py:83-101 | prices stay at most spread + epsilon unless m = n and every agent holds its slot, where they stay at most twice that |
| BidBound.EveryRunKeepsCeiling | auction_core/src/auction_core/auction/engine.py:83-101 | the price ceiling holds after every run with m >= n |
| BidBound.BidsRaiseTotal | auction_core/src/auction_core/auction/prices.py:61-71 | every bid of an agent adds at least epsilon to the sum of its own prices |
| BidBound.BidsAreBounded | auction_core/src/auction_core/auction/engine.py:83-101 | no agent bids more than 2 n (C + epsilon) / epsilon times in any run, C being the spread of the benefits, however many tasks there are |
| Transport.PushKeepsSorted | auction_core/src/auction_core/validation/transport.py:119 | insertion keeps the queue in the order the heap pops it |
| Transport.EnqueueMembers | auction_core/src/auction_core/validation/transport.py:108-119 | after a broadcast the queue holds exactly what it held and one packet per neighbour whose packet is not lost |
| Transport.EnqueueKeepsSorted | auction_core/src/auction_core/validation/transport.py:113-119 | a broadcast keeps the queue in pop order |
| Transport.SimTransport.constructor | auction_core/src/auction_core/validation/transport.py:86-102 | a new transport has nothing in flight and nothing sent |
| Transport.SimTransport.Broadcast | auction_core/src/auction_core/validation/transport.py:104-119 | the object sends to the current neighbours: a packet delayed by d is queued for iteration now + 1 + d, or now + 1 if d is negative, and nothing else is new; lost packets are counted but not queued |
| Transport.SimTransport.DeliverDue | auction_core/src/auction_core/validation/transport.py:121-126 | pops exactly what is due: nothing due stays, nothing early leaves, order is kept |
| Delays.DeliveredOnTime | auction_core/src/auction_core/validation/transport.py:108-126 | in every history a packet sent in iteration k with delay d is delivered in iteration k + 1 + d, or k + 1 if d is negative, in no other, and nothing is delivered that was not sent so |
| Delays.SpeedLimit | auction_core/src/auction_core/validation/transport.py:108-126 | no news travels faster than the delays: an entry that names another agent as bidder was, as large or larger, in that agent's own table one plus the least delay iterations before |
| Rounds.QueueAfter | auction_core/src/auction_core/validation/harness.py:92-102 | after an iteration the queue holds exactly what was not yet due and what was just sent |
| Rounds.IterationGrows | auction_core/src/auction_core/validation/harness.py:92-102 | in an iteration a table takes in everything that was due for its agent |
| Rounds.ChangedAgentSpeaks | auction_core/src/auction_core/auction/engine.py:58-73 | an agent that was dirty or whose table changed resets its count and broadcasts that table |
| Rounds.DeliveryMarksChanges | auction_core/src/auction_core/auction/engine.py:50-54 | whatever is delivered, the assignment and the quiet count stay, and the agent is marked dirty exactly if its table changed |
| Rounds.QuietCountMeansNotOutbid | auction_core/src/auction_core/auction/engine.py:61-69 | a positive quiet count means that the agent still is the bidder of its task |
| Rounds.DeliveryCovers | auction_core/src/auction_core/validation/harness.py:92-99 | after delivery a table is at least its own and every due foreign one |
| Refinement.IterationRefines | auction_core/src/auction_core/validation/harness.py:86-105 | one iteration of the loop is a sequence of deliveries and ticks of the transition system |
| Refinement.RoundRefines | auction_core/src/auction_core/validation/harness.py:86-105 | every state of a round that starts with an empty queue is the end of a run, in which every agent ticked |
| Refinement.RoundInvariant | auction_core/src/auction_core/validation/harness.py:86-105 | the invariants hold throughout every round and after the first iteration everyone is assigned |
| Refinement.RoundCeiling | auction_core/src/auction_core/validation/harness.py:86-105 | the price ceiling holds throughout every round |
| Refinement.RoundTotal | auction_core/src/auction_core/validation/harness.py:86-105 | and the prices in an agent's table never add up to more than 2 n (C + epsilon) |
| Agreement.IterationKeepsLink | auction_core/src/auction_core/validation/harness.py:92-103 | along a lossless link the receiver knows the sender's table, or a packet with it is in flight, or the sender is about to speak: kept by every iteration |
| Agreement.AllLinksHold | auction_core/src/auction_core/validation/harness.py:92-103 | so it is in every state of every round over a lossless static topology |
| Agreement.QuietTablesAgree | auction_core/src/auction_core/validation/harness.py:103-104 | with nothing in flight all tables of a connected lossless round are equal |
| Agreement.QuietMeansAgreement | auction_core/src/auction_core/validation/harness.py:103-112 | at the break all tables equal the merged one, everyone is assigned, claims are consistent and distinct: for every quiescence window of at least 1 |
| Propagation.OneHop | auction_core/src/auction_core/validation/harness.py:40-42 | what an agent knows reaches a neighbour within 1 + d ticks although terminated agents are silent |
| Propagation.SpanIsProduct | auction_core/src/auction_core/validation/harness.py:52 | n hops take n * (1 + d) ticks |
| Propagation.TablesPropagate | auction_core/src/auction_core/validation/harness.py:40-42 | after n * (1 + d) ticks every agent within n hops knows at least what an agent knew |
| Propagation.DiameterBoundsHops | auction_core/src/auction_core/validation/harness.py:52 | the computed diameter bounds the hops between the agents of a round |
| Propagation.QuietStretch | auction_core/src/auction_core/auction/engine.py:65-69 | a quiet count of c means that the table has not changed for c ticks |
| Propagation.WindowOutlastsPropagation | auction_core/src/auction_core/validation/harness.py:40-54 | with the suggested lossless window an agent that counts itself terminated holds the merged table of diameter * (1 + d) ticks before |
| Termination.TotalIsBounded | auction_core/src/auction_core/auction/engine.py:83-101 | the sum of an agent's prices is bounded throughout every round |
| Termination.BidsEnd | auction_core/src/auction_core/auction/engine.py:75-101 | from some iteration on an agent bids no more |
| Termination.EntriesShrink | auction_core/src/auction_core/auction/prices.py:44-59 | without bids no entry appears that was not in a table or in flight before |
| Termination.ChangeUsesUpNews | auction_core/src/auction_core/auction/prices.py:44-59 | each change of a table uses up an entry that was news to its agent |
| Termination.NewsEnds | auction_core/src/auction_core/auction/prices.py:44-59 | once bids have run out, so do changes of tables |
| Termination.CountsFill | auction_core/src/auction_core/auction/engine.py:65-73 | once tables stand still, every agent counts itself terminated and falls silent |
| Termination.QueueDrains | auction_core/src/auction_core/validation/transport.py:121-130 | once everyone is silent the queue drains, however long the delays |
| Termination.EveryRoundComesToRest | auction_core/src/auction_core/validation/harness.py:86-105 | every round with m >= n reaches the exit condition under any loss and any finite delays |
| Harness.DeliverBatch | auction_core/src/auction_core/validation/harness.py:92-99 | agent objects take in the due packets in order; an unknown destination is reported exactly when there is one |
| Harness.TickTeam | auction_core/src/auction_core/validation/harness.py:100-102 | agent objects tick in order and their broadcasts reach the queue in that order |
| Harness.AbsorbSnapshot | auction_core/src/auction_core/validation/harness.py:118-120 | folding one snapshot into the merged prices takes the entry-wise maximum |
| Harness.MergedTableIsMerged | auction_core/src/auction_core/validation/harness.py:115-121 | folding all snapshots gives the entry-wise maximum over all agents |
| Harness.MergedPrices | auction_core/src/auction_core/validation/harness.py:115-121 | the loop over agent objects computes that fold |
| Harness.ConsistentAssignment | auction_core/src/auction_core/validation/harness.py:124-147 | returns all claims exactly when each claimed task names its claimant in the merged prices; otherwise it names the first agent, in dictionary order, whose claim they give to another bidder |
| EventLoop.TaskSetsAgree | auction_core/src/auction_core/validation/harness.py:72-75 | there is exactly one task set exactly when the agents have a common one |
| EventLoop.CheckInput | auction_core/src/auction_core/validation/harness.py:72-83 | accepts exactly a common task set with a task for each agent and no negative id, and otherwise reports the first requirement that fails |
| EventLoop.CreateTeam | auction_core/src/auction_core/validation/harness.py:81-83 | one fresh agent object per row, together in the initial state of the round |
| EventLoop.RunIteration | auction_core/src/auction_core/validation/harness.py:92-102 | one pass of the loop takes the objects to the next state of the history, unless a packet names a stranger |
| EventLoop.AllTerminated | auction_core/src/auction_core/validation/harness.py:103 | true exactly when every agent object counts itself terminated |
| EventLoop.RunLoop | auction_core/src/auction_core/validation/harness.py:85-112 | goes on until the first quiet state and then draws the conclusion, or reports why it stopped; every copy sent on the way is counted |
| EventLoop.ConclusionExplains | auction_core/src/auction_core/validation/harness.py:107-112 | a result that reports the final agents faithfully explains the round |
| EventLoop.RunRound | auction_core/src/auction_core/validation/harness.py:59-112 | rejects bad input for the reason that applies; otherwise its result is explained by the history of the round: the claims and merged prices at the first quiet state if they are consistent, the first agent with a conflicting claim if not, or the error the history shows; messages_sent is one per neighbour of every broadcast in the history |
| Guarantees.SuccessIsNearOptimal | auction_core/src/auction_core/validation/harness.py:107-147 | whatever the network did, a returned assignment gives every agent a task of its own and is within n * epsilon of every assignment |
| Guarantees.SuccessIsOptimalForIntegers | auction_core/src/auction_core/types.py:77-79 | with integer benefits and n * epsilon < 1 it is a best assignment |
| Guarantees.LosslessRoundsAreConsistent | auction_core/src/auction_core/validation/harness.py:107-147 | on a lossless static connected topology the round never ends in an inconsistent assignment |
| Guarantees.NothingGoesAstray | auction_core/src/auction_core/validation/harness.py:92-98 | if links stay within the round no packet ever names a stranger |
| Guarantees.EnoughTicksSuffice | auction_core/src/auction_core/validation/harness.py:87-91 | for every round there is a limit from which on it is never reported as not terminating |
| Guarantees.MoreTicksSameResult | auction_core/src/auction_core/validation/harness.py:85-112 | raising the limit never changes the outcome of a round that finished |
| Guarantees.ConsistentEndSucceeds | auction_core/src/auction_core/validation/harness.py:85-112 | a round whose first quiet state is consistent is never reported as failed |
| Guarantees.LosslessRoundsSucceed | auction_core/src/auction_core/validation/harness.py:59-112 | total correctness: with enough ticks a lossless static connected round with m >= n returns an assignment, and all agents agree on the prices it reports |
| Guarantees.RoundTopology | auction_core/src/auction_core/validation/transport.py:58-75 | a topology over the agents of a round keeps packets within it and connects them exactly when its diameter is defined |
| Guarantees.RoundsOverAcceptedTopologiesSucceed | auction_core/src/auction_core/validation/harness.py:59-112 | over any topology of the agents that diameter accepts, or that line, complete and random_connected build, a lossless round with enough ticks returns an assignment and agreed prices |
| Guarantees.RoundsOverCompleteTopologiesSucceed | auction_core/src/auction_core/validation/system_sim.py:75-80 | so it does over the complete topology, the one the simulators use by default |
| TickBounds.BidsAreFew | auction_core/src/auction_core/auction/prices.py:61-71 | all agents together place at most 2 n^2 (C + epsilon) / epsilon bids, however long a round lasts |
| TickBounds.EntryAppears | auction_core/src/auction_core/auction/prices.py:44-71 | an iteration brings no entry into any table or packet but those it found and those it bids |
| TickBounds.ChangesAreFew | auction_core/src/auction_core/auction/prices.py:44-59 | the iterations that change some table are at most n + 1 for each bid |
| TickBounds.StillStretchEndsQuiet | auction_core/src/auction_core/validation/harness.py:86-105 | after a stretch without a change, as long as the quiescence rounds and the longest delay, the exit condition holds |
| TickBounds.ExplicitTicksSuffice | auction_core/src/auction_core/validation/harness.py:87-91 | one explicit limit in n, C, epsilon, quiescence rounds and longest delay serves all rounds: whatever is lost and however links change, none is reported as not terminating |
| Convergence.SomebodyKnows | auction_core/src/auction_core/validation/harness.py:40-42 | of every entry in a table or in flight some agent knows one no smaller |
| Convergence.StillAfterPropagation | auction_core/src/auction_core/validation/harness.py:40-42 | on a lossless network, once nobody has bid for diameter * (1 + d) ticks, no table changes |
| Convergence.LosslessRoundsConverge | README.md:33 | a lossless round over a static topology is quiet within 1 + (2 n^2 (C + epsilon) / epsilon + 1) * (diameter * (1 + d) + quiescence rounds + d) iterations |
| Convergence.LosslessRoundsSucceedInTime | auction_core/src/auction_core/validation/harness.py:59-112 | with that many ticks it returns an assignment, and all agents agree on the prices it reports |
| Convergence.RoundsConvergeByDiameter | README.md:33 | so does a round over any closed topology of its agents, with the diameter that the transport computes |
| Distances.OnlyTheLayerExpands | auction_core/src/auction_core/validation/transport.py:64-72 | expanding the frontier alone reaches everything one hop further |
| Distances.ExploredNext | auction_core/src/auction_core/validation/transport.py:64-72 | one pass over the frontier keeps exact distances |
| Distances.BreadthFirst | auction_core/src/auction_core/validation/transport.py:61-72 | from one source exactly the reachable nodes are found, each with its least number of hops; a node that is no key is reported if one is reachable |
| Distances.ComputeDiameter | auction_core/src/auction_core/validation/transport.py:58-75 | returns max(1, longest shortest path) and fails exactly when some node does not reach another or a link leads out of the topology |
| Distances.DiameterIsLeast | auction_core/src/auction_core/validation/transport.py:58-75 | no smaller positive number of hops spans the topology from every source |
| Distances.DiameterIsBelowSize | auction_core/src/auction_core/validation/transport.py:32-33 | no topology has a larger diameter than a line of as many nodes |
| Topologies.Line | auction_core/src/auction_core/validation/transport.py:32-39 | a line is symmetric, closed and connected, with diameter n - 1 |
| Topologies.CompleteDiameter | auction_core/src/auction_core/validation/transport.py:27-29 | a complete topology is symmetric, closed and connected, with diameter 1 |
| Topologies.RandomConnected | auction_core/src/auction_core/validation/transport.py:42-55 | whatever the shuffle and the coins, the random topology is symmetric, closed and connected, and two nodes are linked exactly if they are consecutive in the shuffled order or their coin says so |
| Topologies.LinkInOrder | auction_core/src/auction_core/validation/transport.py:47-50 | exactly the consecutive ids of the order are linked |
| Messages.PrecedenceIsOrder | auction_core/src/auction_core/coordination/messages.py:40-44 | precedence is a strict order, total on round and coordinator |
| Messages.AdoptNext | auction_core/src/auction_core/coordination/participant.py:155-157 | hearing one more announcement keeps the adopted one that of the highest round heard, and there of the lowest coordinator |
| Messages.AdoptionIsUnique | auction_core/src/auction_core/coordination/messages.py:5-8 | replicas that heard the same announcements hold the same one, whatever the order and repetition |
| Leases.ClaimsConverge | auction_core/src/auction_core/coordination/participant.py:204-216 | whatever the order and repetition of renewals heard, the lease ends with the lowest claimant |
| Leases.ReplicasAgree | auction_core/src/auction_core/coordination/participant.py:211-216 | replicas that heard the same claimants agree on the holder |
| Leases.TaskLeases.Grant | auction_core/src/auction_core/liveness/lease.py:39-42 | files a lease of the given duration |
| Leases.TaskLeases.Renew | auction_core/src/auction_core/liveness/lease.py:44-51 | succeeds exactly for the holder; a stale holder cannot steal a lease back |
| Leases.TaskLeases.Release | auction_core/src/auction_core/liveness/lease.py:53-59 | removes the lease exactly for its holder |
| Leases.TaskLeases.Sweep | auction_core/src/auction_core/liveness/lease.py:61-66 | removes and returns exactly the expired leases |
| Heartbeats.AliveMeansHeardRecently | auction_core/src/auction_core/liveness/heartbeat.py:42-45 | whatever the order and repetition of heartbeats, a robot is alive exactly when some heartbeat is no older than the timeout |
| Heartbeats.HeartbeatMonitor.constructor | auction_core/src/auction_core/liveness/heartbeat.py:35-40 | the timeout is eta intervals and nobody has been seen |
| Heartbeats.HeartbeatMonitor.Record | auction_core/src/auction_core/liveness/heartbeat.py:42-45 | keeps the latest time per robot |
| Heartbeats.HeartbeatMonitor.Sweep | auction_core/src/auction_core/liveness/heartbeat.py:47-63 | reports exactly the robots whose state changed; the undiscovered are not dead |
| Participation.BenefitRowIsOver | auction_core/src/auction_core/coordination/participant.py:178-193 | whatever is announced, as long as some task is, the row is a dictionary over the announced tasks and idle slots |
| Participation.BenefitRowIsPadded | auction_core/src/auction_core/coordination/participant.py:178-193 | for a well-formed announcement it is the row the allocator would offer: idle slots 1 below the least benefit |
| Participation.TickedAgentIsOk | auction_core/src/auction_core/coordination/participant.py:245-254 | a hosted agent only ever claims a task or idle slot of the announcement it bids for |
| Participation.FramingIsWellFormed | auction_core/src/auction_core/coordination/participant.py:312-325 | a framed round has tasks, each once, none negative, and legal auction parameters |
| Participation.HandleKeepsWorkable | auction_core/src/auction_core/coordination/participant.py:129-222 | any message whatever, malformed ones included, leaves the robot with what its ticks need |
| Participation.HandleKeepsSane | auction_core/src/auction_core/coordination/participant.py:129-222 | as long as announcements are well formed, the highest round seen is the adopted one and the hosted agent belongs to it |
| Participation.LookForTasks | auction_core/src/auction_core/coordination/participant.py:344-350 | raises exactly when it is the robot's turn to frame a round and the tasks it knows are no DAG |
| Participation.TickKeepsSane | auction_core/src/auction_core/coordination/participant.py:226-327 | so it is after any tick |
| CoordinationParticipants.CoordinationParticipant.constructor | auction_core/src/auction_core/coordination/participant.py:54-91 | a new participant is in the start state |
| CoordinationParticipants.CoordinationParticipant.AddTask | auction_core/src/auction_core/coordination/participant.py:99-103 | learns a task, or notes it as unsupported |
| CoordinationParticipants.CoordinationParticipant.OnHeartbeat | auction_core/src/auction_core/coordination/participant.py:144-152 | records receipt, and the idle flag by the sender's stamp |
| CoordinationParticipants.CoordinationParticipant.OnAnnouncement | auction_core/src/auction_core/coordination/participant.py:154-176 | adopts a better announcement, well formed or not, with a fresh agent or a fresh relay, and ignores any other; raises exactly when the robot is to bid but there is no task or the parameters are bad, with the round open and the former agent or relay still in place |
| CoordinationParticipants.CoordinationParticipant.OnGossip | auction_core/src/auction_core/coordination/participant.py:195-202 | prices of the current round reach the agent or the relay, those of other rounds nothing |
| CoordinationParticipants.CoordinationParticipant.OnLeaseRenewal | auction_core/src/auction_core/coordination/participant.py:204-216 | the lease book follows the conflict rule |
| CoordinationParticipants.CoordinationParticipant.OnCompleted | auction_core/src/auction_core/coordination/participant.py:218-222 | the object follows the specified change: the completion is on record with the first completer, and the lease ends; what that means over whole lives is `Knowledge.CompletionsOnlyGrow`, `Knowledge.FirstCompleterStays` and `Leaseholding.HeardLease` |
| CoordinationParticipants.CoordinationParticipant.Handle | auction_core/src/auction_core/coordination/participant.py:129-142 | dispatches every message, whatever it says, to its handler; only an announcement can raise |
| CoordinationParticipants.CoordinationParticipant.Refresh | auction_core/src/auction_core/coordination/participant.py:228-238 | expired leases go, and with them work that someone else now holds |
| CoordinationParticipants.CoordinationParticipant.TickRound | auction_core/src/auction_core/coordination/participant.py:245-270 | the agent ticks and gossips, a finished auction is settled, or the relay passes on what it learned |
| CoordinationParticipants.CoordinationParticipant.TickHeartbeat | auction_core/src/auction_core/coordination/participant.py:272-292 | once per interval: heartbeat, own framing, lease renewal, all known completions |
| CoordinationParticipants.CoordinationParticipant.TickCoordinator | auction_core/src/auction_core/coordination/participant.py:306-327 | frames and adopts a round exactly when it is this robot's turn and there is something to frame (whose turn it is, by the heartbeats received, is `Coordinators.FramersAreLeast`); raises, changing nothing, exactly when it looks for tasks and those it knows are no DAG |
| CoordinationParticipants.CoordinationParticipant.Tick | auction_core/src/auction_core/coordination/participant.py:226-243 | the parts of a tick in their order; if the last one raises, the effects of the others stay but nothing is sent |
| CoordinationParticipants.CoordinationParticipant.TaskFinished | auction_core/src/auction_core/coordination/participant.py:117-125 | given that the task is the one executed, it is completed, released, added to the workload and announced, and the robot is where the task is; for a task the robot was never told of it raises after the first three updates |
| Coordination.WinIsReady | auction_core/src/auction_core/coordination/participant.py:252-258 | a task won is one whose prerequisites have really been finished |
| Coordination.FramingIsReady | auction_core/src/auction_core/coordination/participant.py:344-352 | a coordinator only frames tasks whose prerequisites have really been finished |
| Coordination.HandleKeepsSafe | auction_core/src/auction_core/coordination/participant.py:129-222 | handling a truthful message keeps a robot's beliefs true |
| Coordination.TickKeepsSafe | auction_core/src/auction_core/coordination/participant.py:226-327 | a tick keeps a robot's beliefs true and everything it sends is true |
| Coordination.TickAnnounces | auction_core/src/auction_core/coordination/participant.py:272-327 | a tick repeats the announcement held, or frames exactly one round numbered above everything the framer has seen |
| Coordination.TickAndHost | auction_core/src/auction_core/coordination/participant.py:232-259 | through aborts and overwriting dispatches the host's record stays what the robot executes |
| FleetRuns.NewKeysAreFresh | auction_core/src/auction_core/coordination/participant.py:317-319 | a framing beyond everything its framer has seen has a round and coordinator nobody used |
| FleetRuns.FinishIsExpected | auction_core/src/auction_core/coordination/participant.py:119 | the robot's own check on a finished task never fails |
| FleetRuns.StepKeepsInvariant | auction_core/src/auction_core/validation/system_sim.py:91-160 | precedence safety, host agreement and announcement soundness are inductive over receive, inject, tick, finish, kill and lose |
| FleetRuns.Execute | auction_core/src/auction_core/validation/system_sim.py:91-160 | every run ends in a state that satisfies all of them |
| FleetRuns.FinishedByHosts | auction_core/src/auction_core/validation/system_sim.py:144-150 | a task is on record as finished exactly when some host finished it in the run |
| FleetRuns.PrerequisitesFinishFirst | auction_core/src/auction_core/coordination/participant.py:117-125 | in every run each prerequisite of a finished task was finished earlier, whatever was lost and whoever died |
| FleetRuns.ExecutedTasksAreReady | auction_core/src/auction_core/coordination/participant.py:232-259 | whatever a robot executes, dead or alive, all prerequisites have been finished in the run |
| FleetRuns.HostsAgreeInEveryRun | auction_core/src/auction_core/validation/system_sim.py:119-153 | in every run a live robot and its host agree on what is executed |
| FleetRuns.AnnouncementsAreDetermined | auction_core/src/auction_core/coordination/participant.py:317-326 | in every run round and coordinator determine the announcement |
| FleetRuns.AdoptedIsLatest | auction_core/src/auction_core/coordination/participant.py:154-158 | in every run the adopted announcement is the precedence maximum of all received or framed, and the highest round seen is its round, or 0 |
| FleetRuns.SameHearingSameAnnouncement | auction_core/src/auction_core/coordination/messages.py:5-8 | robots that heard the same announcements hold the same one |
| ExactlyOnce.GuardedRunsFinishOnce | auction_core/src/auction_core/coordination/participant.py:255-258 | a run whose dispatches are all exclusive, that is of tasks neither finished nor under way at another host, finishes no task twice |
| ExactlyOnce.UnguardedFinishesTwice | auction_core/src/auction_core/coordination/participant.py:255-258 | after any other dispatch some task is finished twice as soon as the hosts concerned finish |
| ExactlyOnce.OnceIffGuarded | auction_core/src/auction_core/coordination/participant.py:255-258 | for every run: hosts that finish what they are at can nowhere finish a task twice exactly when all its dispatches are exclusive |
| ExactlyOnce.HostsAreLive | auction_core/src/auction_core/validation/system_sim.py:99-103 | only the hosts of live robots work |
| LonelyRobots.FirstTick | auction_core/src/auction_core/coordination/participant.py:306-327 | a robot that has heard of nobody frames a round for itself and bids in it |
| LonelyRobots.ThirdTick | auction_core/src/auction_core/coordination/participant.py:245-259 | its auction over, it takes on the task: it cannot know better |
| LonelyRobots.TickAtWork | auction_core/src/auction_core/coordination/participant.py:272-292 | while it executes the task it renews its lease and goes on |
| LonelyRobots.TasksMayBeExecutedTwice | auction_core/src/auction_core/coordination/participant.py:255-258 | a concrete run of two robots that tick in turn, once per unit of time, and never hear of each other: both finish the same task, when its duration has passed |
| SystemSims.MoveKeepsSim | auction_core/src/auction_core/validation/system_sim.py:91-163 | every move of the simulator keeps: its state ends a run of the fleet, its record of what runs is the hosts', a task is finished exactly if it has an execution on record, prerequisites were executed before the start |
| SystemSims.HearingNeverRaises | auction_core/src/auction_core/validation/system_sim.py:114-117 | no announcement that was sent makes a robot raise |
| SystemSims.Die | auction_core/src/auction_core/validation/system_sim.py:99-103 | a kill that is due and new is the Kill step, any other nothing |
| SystemSims.TickOne | auction_core/src/auction_core/validation/system_sim.py:119-142 | a live robot's tick is the TickRobot step, the host drops aborted work and takes on dispatched work (which ends when it should by `SimTiming.ExecutionsAreTimed`); a tick that raises stops the simulation |
| SystemSims.Report | auction_core/src/auction_core/validation/system_sim.py:144-153 | an execution that is due is the Finish step and goes on record |
| SystemSims.ReactAll | auction_core/src/auction_core/validation/system_sim.py:97-153 | events are reacted to one after the other, each by its move |
| SystemSims.SimTick | auction_core/src/auction_core/validation/system_sim.py:97-153 | kills, injections that are due, deliveries, turns of all robots, then the executions under way by then: these moves in this order and nothing else |
| SystemSims.Run | auction_core/src/auction_core/validation/system_sim.py:91-163 | the states of the simulation are those of the loaded mission and of one tick after the other; it stops at the first tick at which something raises or all live robots think the mission complete, and reports the time of that tick |
| SystemSims.SimulationsAreRuns | auction_core/src/auction_core/validation/system_sim.py:91-163 | every state of every simulation ends a run of the fleet, so what holds in every run holds here |
| SystemSims.SimulatedHostsAgree | auction_core/src/auction_core/validation/system_sim.py:119-153 | after every tick the simulator's record of what a live robot executes is what the robot executes: the check in task_finished never fails |
| SystemSims.SimulatedAdoption | auction_core/src/auction_core/coordination/participant.py:154-158 | after every tick the announcement a robot holds is the precedence maximum of what it received or framed, and the highest round it has seen is that one, or 0 |
| SystemSims.SimulatedOrder | auction_core/src/auction_core/validation/system_sim.py:144-153 | each prerequisite of an execution on record was executed earlier in the record and by the time it started |
| SystemSims.MissionTimeIsReal | auction_core/src/auction_core/validation/system_sim.py:155-160 | a reported mission time means that every task known to a live robot has been executed by then |
| RobotLives.LifeIsNoted | auction_core/src/auction_core/coordination/participant.py:93-125 | over any sequence of messages, ticks and finished tasks, position, workload, tasks, completions, idle flags and times last heard change by what each act adds to them and nothing else |
| Knowledge.CompletionsOnlyGrow | auction_core/src/auction_core/coordination/messages.py:3-9 | completions are a grow-only set: after any acts a robot knows to be complete what it knew before and exactly the tasks whose completion it heard or reported, whatever the order and repetition |
| Knowledge.FirstCompleterStays | auction_core/src/auction_core/coordination/participant.py:218-222 | who is on record as completer: the robot itself if it reported the task, else whoever was on record, else the first heard of |
| Knowledge.TasksOnlyGrow | auction_core/src/auction_core/coordination/participant.py:99-103 | a robot knows exactly the tasks it was told of; collaborative ones are noted as unsupported |
| Knowledge.AliveIsHeard | auction_core/src/auction_core/coordination/participant.py:300-301 | at its turn a robot holds another one alive exactly if it received a heartbeat of it no longer than the timeout ago |
| Knowledge.FlagsAreLatest | auction_core/src/auction_core/coordination/participant.py:148-152 | whatever the order of delivery, the idle flag noted of a robot is that of its heartbeat with the latest stamp |
| Coordinators.TurnIsTheLeasts | auction_core/src/auction_core/coordination/participant.py:303-304 | it is a robot's turn exactly if it has received no heartbeat within the timeout from one of a lower id |
| Coordinators.SameViewOneTurn | auction_core/src/auction_core/coordination/messages.py:5-8 | of robots with the same view, themselves and whom they have heard from within the timeout, exactly the one of the least id has its turn, so no two of them have |
| Coordinators.FramersAreLeast | auction_core/src/auction_core/coordination/participant.py:306-327 | a tick announces a round beyond those seen exactly if no lower id was heard within the timeout, the round held is over, and an available task and an idle robot are known |
| Coordinators.IdleIsHeard | auction_core/src/auction_core/coordination/participant.py:354-362 | another robot counts as idle exactly if it was heard from within the timeout and last said so, the robot itself exactly if it neither executes nor bids |
| Coordinators.FramingNames | auction_core/src/auction_core/coordination/participant.py:312-325 | a framing names exactly the known tasks that are neither complete nor leased and whose prerequisites are complete, and exactly the idle robots, each once and in order, with a slot for each surplus robot |
| RoundHosting.TalkReachesAgent | auction_core/src/auction_core/coordination/participant.py:195-202 | the hosted agent takes in everything said in its round, in any number of messages, and nothing else |
| RoundHosting.TalkReachesRelay | auction_core/src/auction_core/coordination/participant.py:195-202 | the relay holds the least upper bound of all that was said in the round, and is dirty exactly after news |
| RoundHosting.RelayEchoesNews | auction_core/src/auction_core/coordination/participant.py:260-269 | a relay passes that on in its next tick exactly if it was news |
| RoundHosting.AdoptionStartsAfresh | auction_core/src/auction_core/coordination/participant.py:154-176 | adopting a round starts a new agent that knows nothing of prices, or a new relay, and the round is open from now on |
| RoundHosting.AdoptedAgentBidsWorth | auction_core/src/auction_core/coordination/participant.py:178-193 | the new agent bids what the tasks are worth to the robot, 0 for those it does not know, and for idle slots exactly 1 less than for the least of them |
| RoundHosting.ActKeepsHosting | auction_core/src/auction_core/coordination/participant.py:154-270 | whatever happens, short of an announcement that raises, a robot hosts an agent only for the round held and only if it takes part, and relays only if it does not |
| RoundHosting.OpenSinceAdoption | auction_core/src/auction_core/coordination/participant.py:159-162 | the timeout of the round held counts from the act in which it was adopted |
| Leaseholding.TickWork | auction_core/src/auction_core/coordination/participant.py:226-259 | in a tick work whose unexpired lease is another's is aborted, a task won is taken on and dispatched, and afterwards no other robot holds the work in hand |
| Leaseholding.TicksKeepPace | auction_core/src/auction_core/coordination/participant.py:272-292 | a tick sends a heartbeat exactly if none went out within the interval, with all it should say |
| Leaseholding.CompletionsSpread | auction_core/src/auction_core/coordination/participant.py:284-291 | anti-entropy: whoever receives what a robot sends with a heartbeat knows every completion the robot knew |
| Leaseholding.HeardLease | auction_core/src/auction_core/coordination/participant.py:204-222 | what any message does to a lease: of the holder and a claimant the lower id has it, a completion ends it, other messages do nothing |
| Leaseholding.LowestClaimHolds | auction_core/src/auction_core/coordination/participant.py:211-216 | so whatever is heard in whatever order, short of a completion, a lease is that of the lowest claimant |
| LeaseTimes.ActOnLease | auction_core/src/auction_core/coordination/participant.py:204-292 | an act leaves a lease as it was, unless a tick finds it expired, or has it run for a lease duration from a sign of its holder |
| LeaseTimes.LeasesRunFromSigns | auction_core/src/auction_core/liveness/lease.py:39-66 | every lease a robot knows ends a lease duration after a claim of its holder, or a tick of the robot itself, and no tick since came after its end |
| LeaseTimes.SilentHoldersLose | auction_core/src/auction_core/validation/system_sim.py:10-12 | recovery by expiry: whose claim to a task was not heard for a lease duration does not hold it after a tick |
| Utterances.TickSays | auction_core/src/auction_core/coordination/participant.py:226-327 | everything a tick sends and nothing else: when due the heartbeat with idle flag, lease, own framing and all completions; the claim to what was won; what the robot has to say in the round; the round it frames |
| Utterances.FinishSays | auction_core/src/auction_core/coordination/participant.py:117-125 | a robot that knows the task it has finished reports it, and sends nothing else |
| FleetRecords.NetIsWhatWasSent | auction_core/src/auction_core/validation/system_sim.py:114-123 | in every run the messages under way are those some step sent and none has lost since |
| FleetRecords.HeardIsWhatWasReceived | auction_core/src/auction_core/coordination/participant.py:154-158 | in every run a robot is on record to have heard exactly the announcements it received or sent |
| FleetRecords.FramedIsWhatWasAnnounced | auction_core/src/auction_core/coordination/participant.py:317-327 | in every run the framings on record are those some step announced |
| FleetRecords.DeadIsWhoWasKilled | auction_core/src/auction_core/validation/system_sim.py:99-103 | in every run the dead are those some step has killed |
| FleetLives.RobotsLive | auction_core/src/auction_core/validation/system_sim.py:91-160 | in every run a robot is what its own messages, ticks and finished tasks have made of it, so what holds of lives holds in runs |
| FleetLives.CompletionsInRuns | auction_core/src/auction_core/coordination/messages.py:3-9 | in every run a robot knows exactly those tasks to be complete whose completion it received or its host reported, at whatever step |
| FleetLives.CompletionsStay | auction_core/src/auction_core/coordination/messages.py:3-9 | and from that step on it always does |
| FleetLives.FramersInRuns | auction_core/src/auction_core/coordination/participant.py:306-327 | in every run a tick frames a round exactly if no lower id was heard within the timeout, the round held is over, and there is something to frame |
| FleetLives.OneFramerPerView | auction_core/src/auction_core/coordination/messages.py:5-8 | in every run only the least robot of a view frames a round |
| RobotDays.MovesMeet | auction_core/src/auction_core/validation/system_sim.py:97-153 | nothing changes a robot, its execution and its record in the simulator but the events about it |
| Agendas.AgendaMeets | auction_core/src/auction_core/validation/system_sim.py:99-142 | a tick makes of a robot: dead if a kill is due, else a robot that has heard the injected tasks, then its mail in order, then had one turn |
| SimTiming.DayPasses | auction_core/src/auction_core/validation/system_sim.py:97-153 | what a tick of a simulation makes of each robot, unless something raises: a due kill ends it and its work; otherwise it hears its news, has its turn, begins what is dispatched or drops what is aborted, and reports work that is due |
| SimTiming.KillsAreOnTime | auction_core/src/auction_core/validation/system_sim.py:99-103 | the dead are exactly the robots whose kill was due by the last tick |
| SimTiming.InjectionsAreOnTime | auction_core/src/auction_core/validation/system_sim.py:105-112 | of injections listed by time exactly those due by the last tick have been made |
| SimTiming.ExecutionsAreTimed | auction_core/src/auction_core/validation/system_sim.py:130-153 | every execution, under way or on record, was begun in some tick by the robot it is filed under and ends as much later as this robot needs for the task; those on record are over by the last tick, and those under way are not |
| SimTiming.WorkIsReportedOnTime | auction_core/src/auction_core/validation/system_sim.py:144-150 | an execution whose robot lives and is not given other work is under way, and not on record, up to the first tick that is not before its end, and on record after it |
| SimTiming.SimulatedKnowledge | auction_core/src/auction_core/validation/system_sim.py:105-117 | in every simulation a robot knows exactly the tasks of the initial mission and those it was told of while alive, and as complete exactly those it learned of |
| SimTiming.CompleteWhenAllHaveLearned | auction_core/src/auction_core/validation/system_sim.py:155-160 | the mission counts as complete exactly when some robot is alive and each that is has learned that every task it was told of is complete |
| Diaries.BegunWhenDispatched | auction_core/src/auction_core/validation/system_sim.py:130-139 | what a turn dispatches is begun at once, ends as much later as the robot needs for it, and is under way or, if it is over at once, on record after the tick |
| Diaries.ReportedOnTime | auction_core/src/auction_core/validation/system_sim.py:144-150 | the same of one robot's days, with its record exactly: one entry more |
| Diaries.DroppedWhenAborted | auction_core/src/auction_core/validation/system_sim.py:124-125 | work a turn aborts without dispatching other work never goes on record |
| Diaries.DroppedWhenKilled | auction_core/src/auction_core/validation/system_sim.py:99-102 | what a killed robot was at never goes on record |
| Dag.PrerequisiteHasFewerAncestors | auction_core/src/auction_core/scheduling/dag.py:51-62 | in a DAG a prerequisite has strictly fewer ancestors |
| Dag.OrderedMeansAcyclic | auction_core/src/auction_core/scheduling/dag.py:28-42 | an order with every task after its prerequisites exists only for acyclic dependencies |
| Dag.FrontierLasts | auction_core/src/auction_core/scheduling/dag.py:32-42 | with acyclic dependencies the frontier is never empty early |
| Dag.ReleaseDependents | auction_core/src/auction_core/scheduling/dag.py:35-39 | in-degrees count the prerequisites not yet ordered, and the frontier lists exactly the free tasks |
| Dag.TopologicalOrder | auction_core/src/auction_core/scheduling/dag.py:28-42 | an order is found exactly when the dependencies are acyclic; it is a duplicate-free permutation with each task after its prerequisites |
| Dag.MakeDag | auction_core/src/auction_core/scheduling/dag.py:20-26 | construction succeeds exactly for closed acyclic dependencies and names the first reason otherwise |
| Dag.SomethingIsAvailable | auction_core/src/auction_core/scheduling/dag.py:44-49 | in a DAG some task is available until all are complete |
| Dag.Dependents | auction_core/src/auction_core/scheduling/dag.py:51-62 | exactly the tasks that require the given one, directly or not |
| CriticalPath.CriticalLengthIsLongestChain | auction_core/src/auction_core/scheduling/cpm.py:14-27 | the critical length is the total duration of a longest dependency chain |
| CriticalPath.FinishOf | auction_core/src/auction_core/scheduling/cpm.py:18-25 | the memoised recursion returns the earliest finish and only remembers correct ones |
| CriticalPath.CriticalPathLength | auction_core/src/auction_core/scheduling/cpm.py:14-27 | the computed length is the specified one |
| CriticalPath.FinishIsEarliest | auction_core/src/auction_core/scheduling/cpm.py:14-27 | no feasible schedule finishes a task before its earliest finish |
| CriticalPath.LoadOfOne | auction_core/src/auction_core/scheduling/cpm.py:35-39 | disjoint intervals until some time take no longer than that |
| CriticalPath.LowerBoundIsSound | auction_core/src/auction_core/scheduling/cpm.py:30-39 | no feasible schedule on that many robots ends before the lower bound |
| CriticalPath.LowerBoundIsLargest | auction_core/src/auction_core/scheduling/cpm.py:30-39 | the bound times the robots is at least the sum of the durations, the bound at least each duration and each chain of dependencies, and one of the three is attained |
| CriticalPath.MakespanLowerBound | auction_core/src/auction_core/scheduling/cpm.py:30-39 | so is what the method computes, stated on the tasks: no smaller number bounds all three |
| CriticalPath.EnoughRobotsMeetBound | auction_core/src/auction_core/scheduling/cpm.py:30-39 | the bound is tight: with a robot for every task some feasible schedule ends by it |
| CriticalPath.OneRobotMeetsBound | auction_core/src/auction_core/scheduling/cpm.py:30-39 | and with one robot some feasible schedule always ends by it |
| AllocationState.DispatchKeepsSound | auction_core/src/auction_core/allocator/repeated_rounds.py:82-97 | starting an available task on an idle robot keeps the plan feasible, each task once, starts in order |
| AllocationState.CompleteKeepsSound | auction_core/src/auction_core/allocator/repeated_rounds.py:110-117 | completing the job that ends first keeps all of it, and time never goes back |
| RoundOffers.PadRow | auction_core/src/auction_core/allocator/repeated_rounds.py:130-136 | padding adds idle slots worth exactly 1 less than the least benefit, which some task has, and changes nothing else |
| RoundOffers.SlotsAreWorthLess | auction_core/src/auction_core/allocator/repeated_rounds.py:15-17 | idle slots are priced strictly below every real task |
| RoundOffers.OfferIsAccepted | auction_core/src/auction_core/allocator/repeated_rounds.py:126-136 | the padded offer meets everything a round requires of its input |
| RoundOffers.RoundDispatchesAll | auction_core/src/auction_core/allocator/repeated_rounds.py:15-17 | a total injective assignment of the offer declines no real task while robots are left: exactly min(idle, available) tasks are won |
| RoundOffers.AuctionsSettle | auction_core/src/auction_core/validation/harness.py:107-147 | a successful auction round is a total injective assignment of its input |
| RoundOffers.AuctionsAreNearBest | auction_core/src/auction_core/validation/harness.py:107-147 | nor is any assignment of that input better by more than n * epsilon |
| RoundOffers.AuctionRunnerIsReliable | auction_core/src/auction_core/allocator/repeated_rounds.py:79 | a runner that plays auction rounds honours the contract the allocator relies on: total, injective, within n * epsilon of every rival |
| RoundOffers.AuctionExists | auction_core/src/auction_core/validation/harness.py:59-112 | on accepted input some auction round succeeds |
| RoundOffers.ReliableRunnerExists | auction_core/src/auction_core/allocator/repeated_rounds.py:79 | so there is a runner that plays an auction round each time and honours that contract |
| RowShifts.TickShifts | auction_core/src/auction_core/auction/engine.py:75-101 | a constant added to an agent's whole row changes nothing about its ticks: neither the task it bids on nor the increment |
| RowShifts.HistoryShifts | auction_core/src/auction_core/validation/harness.py:85-105 | nor anything about a round: with such constants in any rows every state is the same |
| RowShifts.AuctionsShift | auction_core/src/auction_core/validation/harness.py:59-112 | so auctions on both inputs have the same results |
| RoundQuality.PaddedTotal | auction_core/src/auction_core/allocator/repeated_rounds.py:126-136 | the total of an assignment of the padded matrix is every robot's floor plus what the dispatches gain beyond it |
| RoundQuality.DispatchIsNearBest | auction_core/src/auction_core/allocator/repeated_rounds.py:8-10 | with a task for every idle robot the dispatches of a round are within n * epsilon of any others in real benefit |
| RoundQuality.SurplusGainIsNearBest | auction_core/src/auction_core/allocator/repeated_rounds.py:8-10 | with surplus robots they are within n * epsilon of any others in gain over an idle slot |
| RoundQuality.LevelOfferAllowsAny | auction_core/src/auction_core/allocator/repeated_rounds.py:130-136 | with surplus robots that value all tasks alike, as always with one task left, any choice of winners honours the runner's contract |
| RoundQuality.LevelAuctionsIgnoreBenefits | auction_core/src/auction_core/allocator/repeated_rounds.py:126-136 | where every robot values all tasks alike, auctions on the padded matrix have the same results whatever those values are |
| RoundQuality.SurplusMayMissTheBest | auction_core/src/auction_core/allocator/repeated_rounds.py:8-10 | with surplus robots that value all tasks alike, whatever an auction returned it would have returned for other values too, for which its dispatches are worse than others by more than n * epsilon |
| RoundQuality.RealBenefitIsGuaranteedIff | auction_core/src/auction_core/allocator/repeated_rounds.py:8-10 | auctions of these tasks to these robots are within n * epsilon in real benefit, for all benefits and networks, exactly when there is a task for every idle robot |
| Eligibility.SchedulableIsDag | auction_core/src/auction_core/allocator/repeated_rounds.py:61-62 | what is neither collaborative nor dependent on anything collaborative forms a DAG again |
| Eligibility.SplitCollaborative | auction_core/src/auction_core/allocator/repeated_rounds.py:49-53 | exactly the collaborative tasks are set aside |
| Eligibility.MarkAllBlocked | auction_core/src/auction_core/allocator/repeated_rounds.py:54-60 | everything that depends on a collaborative task is marked with it; dependencies that are no DAG are refused if they are looked at |
| Allocator.DispatchWinners | auction_core/src/auction_core/allocator/repeated_rounds.py:82-97 | exactly the robots that won a real task start it: now, for travel plus duration; the schedule gains exactly these entries |
| Allocator.WorldExists | auction_core/src/auction_core/allocator/repeated_rounds.py:72-79 | for any benefits and travel times there is a runner with which every result about allocations applies |
| Allocator.PlayRound | auction_core/src/auction_core/allocator/repeated_rounds.py:77-97 | each round offers the waiting tasks to the idle robots, starts for each winner the task the runner gave it, and dispatches exactly min(idle robots, available tasks) |
| Allocator.NeverStuck | auction_core/src/auction_core/allocator/repeated_rounds.py:101-107 | with a DAG and a robot the no-progress branch is unreachable |
| Allocator.RunRounds | auction_core/src/auction_core/allocator/repeated_rounds.py:72-117 | the main loop ends, and with at least one robot it has completed every task; every property of logs that rounds keep holds of its log of rounds |
| Allocator.LogsAreKept | auction_core/src/auction_core/allocator/repeated_rounds.py:77-97 | every round that is played continues the log: it was played in the state the earlier ones led to, and what it starts is all that is new |
| Allocator.StartsAreDispatches | auction_core/src/auction_core/allocator/repeated_rounds.py:82-97 | what a round starts is exactly the real part of the runner's assignment, each robot with its task |
| Allocator.EntriesAreWon | auction_core/src/auction_core/allocator/repeated_rounds.py:82-96 | an entry is in the schedule exactly if its robot won the task in some logged round; it starts at the time of that round and ends after travel and duration |
| Allocator.EntriesStartOnEvents | auction_core/src/auction_core/allocator/repeated_rounds.py:109-113 | every task is started at time 0 or at the moment another one ends |
| Allocator.RoundsAreNearBest | auction_core/src/auction_core/allocator/repeated_rounds.py:8-10 | each round of an allocation dispatches within n * epsilon of any other dispatches: in benefit if there is a task for every idle robot, in gain over an idle slot otherwise |
| Allocator.Classify | auction_core/src/auction_core/allocator/repeated_rounds.py:47-62 | sorts out what cannot be scheduled; refuses exactly dependencies that are no DAG |
| Allocator.Allocate | auction_core/src/auction_core/allocator/repeated_rounds.py:43-124 | every schedulable task is scheduled exactly once, feasibly and in order of start; every other task is in unallocated with a reason that holds; refused exactly when the dependencies are no DAG; the schedule is exactly what the winners of the logged rounds started, rounds and messages are those of the log |
| Allocator.AllocationMeetsLowerBound | auction_core/src/auction_core/scheduling/cpm.py:30-39 | the makespan of every allocation is at least the lower bound |

## Left out

- Floating-point rounding: prices, benefits and times are reals.
- Random numbers: the shuffle, the coins and the fate of every packet are parameters; the probabilistic window for lossy networks is not modelled.
- Benefit model and geometry: benefits, travel times and execution times are arbitrary parameters (travel and durations not negative), evaluated at the tick at which a row is frozen.
- `hungarian.py`: optimality is stated against every injective assignment instead.
- Iteration order of sets: neighbours come in a given order; loops over other dictionaries pick in any order where the result does not depend on it.
- Transport object shared between rounds: the near-optimality, propagation and termination results are about rounds that start with an empty queue; the agreement results are not restricted in this way.
- SystemSims.Run: robots are values of the type that specifies `CoordinationParticipant`, not objects, and any message sent may arrive at any robot of the simulation at any tick, which covers every topology, delay and loss; the event log and `messages_sent` of the result are not kept, executions that end in the same tick go on record in any order, and the look-up of a dispatched task in the simulator's own list is taken to find it.
- CoordinationParticipants.CoordinationParticipant.TickHeartbeat: completions are reported in any order.
- Liveness in real time: `LeaseTimes.SilentHoldersLose` and `Knowledge.AliveIsHeard` say when a lease and a robot count as gone; how long it takes until a lost task is executed again is not stated.
- Exactly-once execution: not guaranteed by the protocol, as `LonelyRobots` shows by a run; `ExactlyOnce` states exactly when it is safe. That every task is executed at least once, given time and delivery, is not stated.
- Core auction guarantees for gossip of two coordinators that used one round number: only one framing per round is covered.
- ROS nodes, launch files, message conversion, mission loading, experiments and analysis.
