/**
 The event-driven allocator: auction rounds over the available tasks of a DAG,
 dispatch of the winners, and time that advances to the next completion.
 Benefits, travel times and the round runner are parameters.
 */
module Allocator {
  import opened Types
  import opened Dag
  import opened CriticalPath
  import opened Sums
  import opened Sets
  import opened IdOrder
  import opened AllocationState
  import opened RoundOffers
  import opened RoundQuality
  import opened EventLoop
  import opened Guarantees
  import opened Eligibility

  /** The progress that satisfies what every step keeps. */
  ghost function SoundStates(tasks: Tasks, robots: set<AgentId>): iset<Progress> {
    iset p | Sound(tasks, robots, p)
  }

  // ------------------------------------------------------ dispatching the winners

  /** Available tasks that nobody works on yet. */
  function Startable(tasks: Tasks, p: Progress): set<TaskId> {
    set t | t in Available(tasks, p.completed) && t !in Active(p.running)
  }

  /** What these robots won can still be dispatched to them. */
  ghost predicate Dispatchable(tasks: Tasks, robots: set<AgentId>, p: Progress,
                               assignment: map<AgentId, Option<TaskId>>, todo: set<AgentId>)
  {
    && todo <= assignment.Keys
    && (forall a | a in todo && a in Winners(assignment) ::
          && a in robots && a !in p.running
          && assignment[a].value in Startable(tasks, p))
    && (forall a, b {:trigger Differ(assignment, a, b)} | a in todo && b in todo && a != b :: Differ(assignment, a, b))
  }

  lemma DispatchOneKeepsDispatchable(tasks: Tasks, robots: set<AgentId>, p: Progress,
                                     assignment: map<AgentId, Option<TaskId>>, todo: set<AgentId>, a: AgentId,
                                     finish: real)
    requires Dispatchable(tasks, robots, p, assignment, todo) && a in todo && a in Winners(assignment)
    requires Active(Dispatch(p, a, assignment[a].value, finish).running) == Active(p.running) + {assignment[a].value}
    ensures Dispatchable(tasks, robots, Dispatch(p, a, assignment[a].value, finish), assignment, todo - {a})
  {
    forall b | b in todo - {a} && b in Winners(assignment) ensures assignment[b].value != assignment[a].value {
      assert Differ(assignment, b, a);
    }
  }

  /** Robot `a` starts task `t` now: it travels there, then works. */
  function SlotOf(tasks: Tasks, now: real, travel: (AgentId, TaskId) -> real, a: AgentId, t: TaskId): ScheduledTask
    requires t in tasks
  {
    ScheduledTask(t, a, now, now + travel(a, t) + tasks[t].duration)
  }

  /** What the winners among `done` start. */
  function StartsOf(tasks: Tasks, now: real, assignment: map<AgentId, Option<TaskId>>,
                    travel: (AgentId, TaskId) -> real, done: set<AgentId>): set<ScheduledTask>
  {
    set a | a in done && a in Winners(assignment) && assignment[a].value in tasks ::
      SlotOf(tasks, now, travel, a, assignment[a].value)
  }

  lemma StartsJoin(tasks: Tasks, now: real, assignment: map<AgentId, Option<TaskId>>, travel: (AgentId, TaskId) -> real,
                   done: set<AgentId>, more: set<AgentId>)
    ensures StartsOf(tasks, now, assignment, travel, done + more)
            == StartsOf(tasks, now, assignment, travel, done) + StartsOf(tasks, now, assignment, travel, more)
  {
  }

  /** Robot `a` runs what it won. */
  ghost predicate RunsWon(tasks: Tasks, now: real, assignment: map<AgentId, Option<TaskId>>,
                          travel: (AgentId, TaskId) -> real, a: AgentId, job: Job)
    requires a in Winners(assignment)
  {
    var t := assignment[a].value;
    t in tasks && job == Job(t, SlotOf(tasks, now, travel, a, t).finish)
  }

  /** The progress after the agents in `done` have started what they won: nothing else is new. */
  ghost predicate Dispatched(tasks: Tasks, p: Progress, p': Progress, assignment: map<AgentId, Option<TaskId>>,
                             travel: (AgentId, TaskId) -> real, done: set<AgentId>)
  {
    && p'.now == p.now && p'.completed == p.completed
    && p'.running.Keys == p.running.Keys + (Winners(assignment) * done)
    && (forall a | a in p.running :: p'.running[a] == p.running[a])
    && (forall a | a in Winners(assignment) * done :: RunsWon(tasks, p.now, assignment, travel, a, p'.running[a]))
    && Elements(p'.schedule) == Elements(p.schedule) + StartsOf(tasks, p.now, assignment, travel, done)
  }

  lemma DispatchOneIsDispatched(tasks: Tasks, p: Progress, assignment: map<AgentId, Option<TaskId>>,
                                travel: (AgentId, TaskId) -> real, a: AgentId, finish: real)
    requires a in Winners(assignment) && assignment[a].value in tasks && a !in p.running
    requires finish == p.now + travel(a, assignment[a].value) + tasks[assignment[a].value].duration
    ensures Dispatched(tasks, p, Dispatch(p, a, assignment[a].value, finish), assignment, travel, {a})
  {
    var e := SlotOf(tasks, p.now, travel, a, assignment[a].value);
    ElementsMore(p.schedule, e);
    assert StartsOf(tasks, p.now, assignment, travel, {a}) == {e};
  }

  lemma NothingIsDispatched(tasks: Tasks, p: Progress, assignment: map<AgentId, Option<TaskId>>,
                            travel: (AgentId, TaskId) -> real, a: AgentId)
    requires a !in Winners(assignment)
    ensures Dispatched(tasks, p, p, assignment, travel, {a})
  {
    assert StartsOf(tasks, p.now, assignment, travel, {a}) == {};
  }

  /** An agent starts what it won; idle slots are skipped. */
  method DispatchAgent(tasks: Tasks, ghost robots: set<AgentId>, p: Progress, assignment: map<AgentId, Option<TaskId>>,
                       ghost todo: set<AgentId>, a: AgentId, travel: (AgentId, TaskId) -> real)
    returns (p': Progress)
    requires Sound(tasks, robots, p) && NonNegativeDurations(tasks)
    requires Dispatchable(tasks, robots, p, assignment, todo) && a in todo
    requires a in Winners(assignment) ==> travel(a, assignment[a].value) >= 0.0
    ensures Sound(tasks, robots, p') && Dispatchable(tasks, robots, p', assignment, todo - {a})
    ensures Dispatched(tasks, p, p', assignment, travel, {a})
  {
    p' := p;
    if assignment[a].Some? && assignment[a].value >= 0 {
      var t := assignment[a].value;
      assert a in Winners(assignment);
      var finish := p.now + travel(a, t) + tasks[t].duration;
      DispatchKeepsSound(tasks, robots, p, a, t, finish);
      DispatchOneKeepsDispatchable(tasks, robots, p, assignment, todo, a, finish);
      DispatchOneIsDispatched(tasks, p, assignment, travel, a, finish);
      p' := Dispatch(p, a, t, finish);
    } else {
      NothingIsDispatched(tasks, p, assignment, travel, a);
    }
  }

  lemma DispatchedNext(tasks: Tasks, p: Progress, q: Progress, q': Progress, assignment: map<AgentId, Option<TaskId>>,
                       travel: (AgentId, TaskId) -> real, done: set<AgentId>, a: AgentId)
    requires a !in done && Dispatched(tasks, p, q, assignment, travel, done)
             && Dispatched(tasks, q, q', assignment, travel, {a})
    ensures Dispatched(tasks, p, q', assignment, travel, done + {a})
  {
    StartsJoin(tasks, p.now, assignment, travel, done, {a});
    forall b | b in Winners(assignment) * (done + {a})
      ensures RunsWon(tasks, p.now, assignment, travel, b, q'.running[b])
    {
      if b in done {
        assert b in Winners(assignment) * done;
      } else {
        assert b in Winners(assignment) * {a};
      }
    }
  }

  /** Each winner starts its task. */
  method DispatchWinners(tasks: Tasks, ghost robots: set<AgentId>, p: Progress,
                         assignment: map<AgentId, Option<TaskId>>, travel: (AgentId, TaskId) -> real)
    returns (p': Progress)
    requires Sound(tasks, robots, p) && NonNegativeDurations(tasks)
    requires forall a, t :: travel(a, t) >= 0.0
    requires Dispatchable(tasks, robots, p, assignment, assignment.Keys)
    ensures Sound(tasks, robots, p') && Dispatched(tasks, p, p', assignment, travel, assignment.Keys)
  {
    p' := p;
    var todo := assignment.Keys;
    while todo != {}
      invariant todo <= assignment.Keys && Sound(tasks, robots, p')
      invariant Dispatchable(tasks, robots, p', assignment, todo)
      invariant Dispatched(tasks, p, p', assignment, travel, assignment.Keys - todo)
    {
      var a :| a in todo;
      ghost var before := p';
      p' := DispatchAgent(tasks, robots, p', assignment, todo, a, travel);
      DispatchedNext(tasks, p, before, p', assignment, travel, assignment.Keys - todo, a);
      assert assignment.Keys - todo + {a} == assignment.Keys - (todo - {a});
      todo := todo - {a};
    }
    assert assignment.Keys - {} == assignment.Keys;
  }

  // ------------------------------------------------------ one round

  /** The benefit model and the travel times as they are at the given round, the round runner and its parameters. */
  datatype World = World(benefit: (nat, AgentId, TaskId) -> real, travel: (nat, AgentId, TaskId) -> real,
                         run: Runner, config: RoundConfig)
  {
    ghost predicate Valid() {
      (forall k, a, t :: travel(k, a, t) >= 0.0) && Reliable(run, config)
    }

    function BenefitAt(k: nat): (AgentId, TaskId) -> real {
      (a, t) => benefit(k, a, t)
    }

    function TravelAt(k: nat): (AgentId, TaskId) -> real {
      (a, t) => travel(k, a, t)
    }
  }

  /** With any benefits and travel times there is a world whose rounds are auctions. */
  lemma WorldExists(benefit: (nat, AgentId, TaskId) -> real, travel: (nat, AgentId, TaskId) -> real,
                    config: RoundConfig)
    returns (world: World)
    requires forall k, a, t :: travel(k, a, t) >= 0.0
    ensures world.Valid() && world.benefit == benefit && world.travel == travel && world.config == config
  {
    var run := ReliableRunnerExists(config);
    world := World(benefit, travel, run, config);
  }

  function IdleRobots(robots: seq<AgentId>, running: map<AgentId, Job>): (idle: seq<AgentId>)
    ensures forall r :: r in idle <==> r in robots && r !in running
  {
    if robots == [] then []
    else
      var rest, last := IdleRobots(robots[..|robots| - 1], running), robots[|robots| - 1];
      assert robots == robots[..|robots| - 1] + [last];
      if last in running then rest else rest + [last]
  }

  lemma {:induction false} IdleRobotsAreDistinct(robots: seq<AgentId>, running: map<AgentId, Job>)
    requires NoDuplicates(robots)
    ensures NoDuplicates(IdleRobots(robots, running))
  {
    if robots != [] {
      IdleRobotsAreDistinct(robots[..|robots| - 1], running);
    }
  }

  /** The tasks offered next, in increasing order. */
  function Waiting(tasks: Tasks, p: Progress): seq<TaskId> {
    SortedIds(Startable(tasks, p))
  }

  lemma SettledIsDispatchable(tasks: Tasks, robots: seq<AgentId>, p: Progress, assignment: map<AgentId, Option<TaskId>>)
    requires Sound(tasks, Elements(robots), p) && forall t | t in tasks :: t >= 0
    requires var idle, available := IdleRobots(robots, p.running), Waiting(tasks, p);
             Settles(Elements(idle), Offered(available, Deficit(idle, available)), assignment)
    ensures Dispatchable(tasks, Elements(robots), p, assignment, assignment.Keys)
  {
    var idle, available := IdleRobots(robots, p.running), Waiting(tasks, p);
    SortedIsSorted(Startable(tasks, p));
    forall a | a in Winners(assignment)
      ensures a in Elements(robots) && a !in p.running
      ensures assignment[a].value in Startable(tasks, p)
    {
      assert a in Elements(idle);
      assert assignment[a].value in Offered(available, Deficit(idle, available));
      assert assignment[a].value in available;
    }
  }

  /** A round of the allocation: the progress it starts from, what is offered, and how the runner settles it. */
  datatype Played = Played(before: Progress, rows: map<AgentId, Row>, result: RoundResult)

  /** Round k offers the waiting tasks to the idle robots at their benefits, and the runner settles it. */
  ghost predicate IsOfferPlayed(idle: seq<AgentId>, available: seq<TaskId>, world: World, k: nat,
                                rows: map<AgentId, Row>, result: RoundResult)
  {
    && idle != [] && available != []
    && IsOffer(idle, available, world.BenefitAt(k), rows)
    && result == world.run(k, idle, rows)
  }

  ghost predicate IsPlayed(tasks: Tasks, robots: seq<AgentId>, world: World, k: nat, round: Played) {
    IsOfferPlayed(IdleRobots(robots, round.before.running), Waiting(tasks, round.before), world, k, round.rows,
                  round.result)
  }

  /** Round k is played from `p` and leads to `p'`: each winner has started what it won. */
  ghost predicate PlaysOn(tasks: Tasks, robots: seq<AgentId>, world: World, k: nat, p: Progress, p': Progress,
                          messages: nat, round: Played)
  {
    && IsPlayed(tasks, robots, world, k, round) && round.before == p && messages == round.result.messagesSent
    && Dispatched(tasks, p, p', round.result.assignment, world.TravelAt(k), round.result.assignment.Keys)
  }

  /** The runner honours its contract on every offer. */
  lemma RunnerHonours(idle: seq<AgentId>, available: seq<TaskId>, world: World, k: nat, rows: map<AgentId, Row>)
    requires world.Valid() && IsSupply(idle, available) && IsOffer(idle, available, world.BenefitAt(k), rows)
    ensures Honours(OfferedInstance(idle, available, rows, world.config), world.run(k, idle, rows))
    ensures rows.Keys == Elements(idle)
  {
    OfferIsAccepted(idle, available, world.BenefitAt(k), rows);
    RowsAreIdle(idle, available, world.BenefitAt(k), rows);
  }

  /** Offer the waiting tasks to the idle robots and let the runner settle who gets what. */
  method RunOffer(idle: seq<AgentId>, available: seq<TaskId>, world: World, k: nat)
    returns (result: RoundResult, ghost rows: map<AgentId, Row>)
    requires world.Valid() && IsSupply(idle, available)
    ensures IsOfferPlayed(idle, available, world, k, rows, result)
    ensures Settles(Elements(idle), Offered(available, Deficit(idle, available)), result.assignment)
  {
    var offer := RoundBenefits(idle, available, world.BenefitAt(k));
    RunnerHonours(idle, available, world, k, offer);
    result, rows := world.run(k, idle, offer), offer;
  }

  lemma WinnersJoin(tasks: Tasks, p: Progress, p': Progress, idle: seq<AgentId>,
                    assignment: map<AgentId, Option<TaskId>>, travel: (AgentId, TaskId) -> real)
    requires Dispatched(tasks, p, p', assignment, travel, assignment.Keys)
    requires forall r | r in idle :: r !in p.running
    requires assignment.Keys == Elements(idle)
    ensures p'.running.Keys - p.running.Keys == Winners(assignment)
  {
  }

  // ------------------------------------------------------ the log of the rounds

  /** What round k starts. */
  function StartedIn(tasks: Tasks, world: World, k: nat, round: Played): set<ScheduledTask> {
    StartsOf(tasks, round.before.now, round.result.assignment, world.TravelAt(k), round.result.assignment.Keys)
  }

  /** What the rounds of the log start, in all. */
  function Started(tasks: Tasks, world: World, log: seq<Played>): set<ScheduledTask> {
    if log == [] then {}
    else
      var n := |log| - 1;
      Started(tasks, world, log[..n]) + StartedIn(tasks, world, n, log[n])
  }

  /** How many messages the rounds of the log took. */
  function Sent(log: seq<Played>): nat {
    if log == [] then 0 else Sent(log[..|log| - 1]) + log[|log| - 1].result.messagesSent
  }

  /** After these earlier rounds this one was played, in the state they led to. */
  ghost predicate FollowsUp(tasks: Tasks, robots: seq<AgentId>, world: World, earlier: seq<Played>, round: Played) {
    && IsPlayed(tasks, robots, world, |earlier|, round)
    && Elements(round.before.schedule) == Started(tasks, world, earlier)
  }

  ghost function Following(tasks: Tasks, robots: seq<AgentId>, world: World): (seq<Played>, Played) -> bool {
    (earlier, round) => FollowsUp(tasks, robots, world, earlier, round)
  }

  /** Each element of `s` follows from the elements before it. */
  ghost predicate Throughout<T(!new)>(s: seq<T>, follows: (seq<T>, T) -> bool) {
    forall k {:trigger follows(s[..k], s[k])} | 0 <= k < |s| :: follows(s[..k], s[k])
  }

  lemma ThroughoutGrows<T(!new)>(s: seq<T>, follows: (seq<T>, T) -> bool, x: T)
    requires Throughout(s, follows) && follows(s, x)
    ensures Throughout(s + [x], follows)
  {
    forall k | 0 <= k < |s + [x]| ensures follows((s + [x])[..k], (s + [x])[k]) {
      assert (s + [x])[..k] == s[..k];
      assert k < |s| ==> follows(s[..k], s[k]);
    }
  }

  /**
   The log accounts for the schedule and the messages: every round was played in
   the state the earlier ones led to, and the schedule is exactly what they started.
   */
  ghost predicate IsLog(tasks: Tasks, robots: seq<AgentId>, world: World, log: seq<Played>,
                        schedule: seq<ScheduledTask>, messages: nat)
  {
    && Throughout(log, Following(tasks, robots, world))
    && Elements(schedule) == Started(tasks, world, log)
    && messages == Sent(log)
  }

  /**
   A property of logs, together with the schedule and the number of messages they
   account for. The loop below is proved for every such property and, below that,
   every relation that covers `PlaysOn`: what they say does not matter there.
   */
  type LogProperty = (seq<Played>, seq<ScheduledTask>, nat) -> bool

  ghost function BeingLog(tasks: Tasks, robots: seq<AgentId>, world: World): LogProperty {
    (log, schedule, messages: nat) => IsLog(tasks, robots, world, log, schedule, messages)
  }

  /** How one round leads from progress to progress, and how many messages it takes. */
  type RoundRelation = (nat, Progress, Progress, nat, Played) -> bool

  ghost function Playing(tasks: Tasks, robots: seq<AgentId>, world: World): RoundRelation {
    (k: nat, p, p', sent: nat, round) => PlaysOn(tasks, robots, world, k, p, p', sent, round)
  }

  /** Every round that can be played is of this kind. */
  ghost predicate Covers(tasks: Tasks, robots: seq<AgentId>, world: World, plays: RoundRelation) {
    forall k: nat, p, p', sent: nat, round {:trigger plays(k, p, p', sent, round)}
      | PlaysOn(tasks, robots, world, k, p, p', sent, round) :: plays(k, p, p', sent, round)
  }

  /** Every round of this kind keeps the property. */
  ghost predicate Keeps(plays: RoundRelation, keeps: LogProperty) {
    forall log: seq<Played>, p: Progress, p': Progress, messages: nat, sent: nat, round: Played
      {:trigger keeps(log, p.schedule, messages), plays(|log|, p, p', sent, round)}
      | keeps(log, p.schedule, messages) && plays(|log|, p, p', sent, round)
      :: keeps(log + [round], p'.schedule, messages + sent)
  }

  /** Every round was played in a sound state. */
  ghost predicate SoundThroughout(tasks: Tasks, robots: seq<AgentId>, log: seq<Played>) {
    forall round {:trigger Sound(tasks, Elements(robots), round.before)} | round in log ::
      Sound(tasks, Elements(robots), round.before)
  }

  lemma SoundThroughoutNext(tasks: Tasks, robots: seq<AgentId>, log: seq<Played>, round: Played)
    requires SoundThroughout(tasks, robots, log) && Sound(tasks, Elements(robots), round.before)
    ensures SoundThroughout(tasks, robots, log + [round])
  {
  }

  lemma LogNext(tasks: Tasks, robots: seq<AgentId>, world: World, log: seq<Played>, p: Progress, p': Progress,
                messages: nat, sent: nat, round: Played)
    requires IsLog(tasks, robots, world, log, p.schedule, messages)
             && PlaysOn(tasks, robots, world, |log|, p, p', sent, round)
    ensures IsLog(tasks, robots, world, log + [round], p'.schedule, messages + sent)
  {
    assert Following(tasks, robots, world)(log, round);
    ThroughoutGrows(log, Following(tasks, robots, world), round);
    assert (log + [round])[..|log|] == log;
  }

  /** Being a log is such a property, and it holds at the start. */
  lemma LogsAreKept(tasks: Tasks, robots: seq<AgentId>, world: World)
    ensures Keeps(Playing(tasks, robots, world), BeingLog(tasks, robots, world))
    ensures BeingLog(tasks, robots, world)([], [], 0)
  {
    forall log: seq<Played>, p: Progress, p': Progress, messages: nat, sent: nat, round: Played
      | BeingLog(tasks, robots, world)(log, p.schedule, messages)
        && Playing(tasks, robots, world)(|log|, p, p', sent, round)
      ensures BeingLog(tasks, robots, world)(log + [round], p'.schedule, messages + sent)
    {
      LogNext(tasks, robots, world, log, p, p', messages, sent, round);
    }
  }

  lemma RoundIsCovered(tasks: Tasks, robots: seq<AgentId>, world: World, plays: RoundRelation, k: nat, p: Progress,
                       p': Progress, sent: nat, round: Played)
    requires Covers(tasks, robots, world, plays) && PlaysOn(tasks, robots, world, k, p, p', sent, round)
    ensures plays(k, p, p', sent, round)
  {
  }

  /**
   One round: the idle robots bid for the waiting tasks, each winner starts the
   task it won, and as many tasks are dispatched as there are idle robots or
   waiting tasks, whichever is less. The relation `plays` may be `Playing`, that
   is `PlaysOn` itself.
   */
  method PlayRound(tasks: Tasks, robots: seq<AgentId>, p: Progress, world: World, k: nat, ghost plays: RoundRelation)
    returns (p': Progress, sent: nat, ghost round: Played)
    requires Sound(tasks, Elements(robots), p) && NonNegativeDurations(tasks) && world.Valid()
    requires NoDuplicates(robots) && (forall r | r in robots :: r >= 0) && forall t | t in tasks :: t >= 0
    requires IdleRobots(robots, p.running) != [] && Waiting(tasks, p) != [] && Covers(tasks, robots, world, plays)
    ensures p' in SoundStates(tasks, Elements(robots)) && plays(k, p, p', sent, round) && round.before == p
    ensures p'.completed == p.completed
    ensures var idle, available := |IdleRobots(robots, p.running)|, |Waiting(tasks, p)|;
            |p'.running.Keys - p.running.Keys| == (if idle <= available then idle else available) > 0
    ensures p.running.Keys <= p'.running.Keys <= Elements(robots) && p'.running != map[]
  {
    var idle, available := IdleRobots(robots, p.running), Waiting(tasks, p);
    SortedIsSorted(Startable(tasks, p));
    IdleRobotsAreDistinct(robots, p.running);
    var result;
    ghost var rows;
    result, rows := RunOffer(idle, available, world, k);
    round, sent := Played(p, rows, result), result.messagesSent;
    SettledIsDispatchable(tasks, robots, p, result.assignment);
    RoundDispatchesAll(idle, available, result.assignment);
    p' := DispatchWinners(tasks, Elements(robots), p, result.assignment, world.TravelAt(k));
    WinnersJoin(tasks, p, p', idle, result.assignment, world.TravelAt(k));
    RoundIsCovered(tasks, robots, world, plays, k, p, p', sent, round);
  }

  // ------------------------------------------------------ how good each round is

  /** Which robot starts which task in a round. */
  function Dispatches(result: RoundResult): map<AgentId, TaskId> {
    RealPart(Chosen(result))
  }

  /** The dispatches of a round are exactly what its winners start. */
  lemma StartsAreDispatches(tasks: Tasks, world: World, k: nat, round: Played, e: ScheduledTask)
    requires Dispatches(round.result).Values <= tasks.Keys
    ensures e in StartedIn(tasks, world, k, round)
            <==> e.robot in Dispatches(round.result)
                 && e == SlotOf(tasks, round.before.now, world.TravelAt(k), e.robot, Dispatches(round.result)[e.robot])
  {
    var assignment := round.result.assignment;
    forall a | a in Dispatches(round.result)
      ensures a in Winners(assignment) && assignment[a] == Some(Dispatches(round.result)[a])
    {
    }
  }

  lemma StartedAtSomeTime(tasks: Tasks, world: World, log: seq<Played>, e: ScheduledTask)
    ensures e in Started(tasks, world, log) <==> exists k: nat :: k < |log| && e in StartedIn(tasks, world, k, log[k])
  {
    if log != [] {
      var n := |log| - 1;
      StartedAtSomeTime(tasks, world, log[..n], e);
      if e in Started(tasks, world, log[..n]) {
        var k: nat :| k < n && e in StartedIn(tasks, world, k, log[..n][k]);
        assert log[..n][k] == log[k];
      }
      forall k: nat | k < n ensures log[..n][k] == log[k] {
      }
    }
  }

  /** Nobody wins a task that was not offered. */
  lemma RoundWinsTasks(tasks: Tasks, robots: seq<AgentId>, world: World, k: nat, round: Played)
    requires ValidMission(tasks, robots, world) && IsPlayed(tasks, robots, world, k, round)
    ensures Dispatches(round.result).Values <= tasks.Keys
  {
    var idle, available := IdleRobots(robots, round.before.running), Waiting(tasks, round.before);
    RoundHasSupply(tasks, robots, world, k, round);
    RunnerHonours(idle, available, world, k, round.rows);
    SortedIsSorted(Startable(tasks, round.before));
    SettledAreOffered(Elements(idle), available, Deficit(idle, available), round.result);
  }

  lemma SettledAreOffered(robots: set<AgentId>, available: seq<TaskId>, deficit: nat, result: RoundResult)
    requires Settles(robots, Offered(available, deficit), result.assignment)
    ensures Dispatches(result).Values <= Elements(available)
  {
    forall a | a in Dispatches(result) ensures Dispatches(result)[a] in Elements(available) {
      assert result.assignment[a].value in Offered(available, deficit);
    }
  }

  /** A task is started at the beginning, or at the moment another one ends. */
  lemma EntriesStartOnEvents(tasks: Tasks, robots: seq<AgentId>, world: World, log: seq<Played>,
                             schedule: seq<ScheduledTask>, messages: nat, e: ScheduledTask)
    requires ValidMission(tasks, robots, world) && IsLog(tasks, robots, world, log, schedule, messages)
    requires SoundThroughout(tasks, robots, log) && e in schedule
    ensures e.start == 0.0 || exists d :: d in schedule && d.finish == e.start
  {
    EntriesAreWon(tasks, robots, world, log, schedule, messages, e);
    var k: nat :| k < |log| && StartsInRound(tasks, world, k, log[k], e);
    assert Following(tasks, robots, world)(log[..k], log[k]);
    assert Sound(tasks, Elements(robots), log[k].before);
    if e.start != 0.0 {
      var d :| d in log[k].before.schedule && d.finish == e.start;
      assert d in Elements(log[k].before.schedule);
      StartedEarlier(tasks, world, log, k, d);
      assert d in Elements(schedule);
    }
  }

  lemma StartedEarlier(tasks: Tasks, world: World, log: seq<Played>, k: nat, e: ScheduledTask)
    requires k <= |log| && e in Started(tasks, world, log[..k])
    ensures e in Started(tasks, world, log)
  {
    StartedAtSomeTime(tasks, world, log[..k], e);
    StartedAtSomeTime(tasks, world, log, e);
    var j: nat :| j < k && e in StartedIn(tasks, world, j, log[..k][j]);
    assert log[..k][j] == log[j];
  }

  /** In round k the robot wins the task, starts it at once, travels there and works on it. */
  ghost predicate StartsInRound(tasks: Tasks, world: World, k: nat, round: Played, e: ScheduledTask) {
    && e.robot in Dispatches(round.result) && e.task == Dispatches(round.result)[e.robot] && e.task in tasks
    && e.start == round.before.now
    && e.finish == e.start + world.TravelAt(k)(e.robot, e.task) + tasks[e.task].duration
  }

  /** The schedule is what was won: each entry in the round it was won in, at its time, and for as long as it takes. */
  lemma EntriesAreWon(tasks: Tasks, robots: seq<AgentId>, world: World, log: seq<Played>, schedule: seq<ScheduledTask>,
                      messages: nat, e: ScheduledTask)
    requires ValidMission(tasks, robots, world) && IsLog(tasks, robots, world, log, schedule, messages)
    ensures e in schedule <==> exists k: nat :: k < |log| && StartsInRound(tasks, world, k, log[k], e)
  {
    StartedAtSomeTime(tasks, world, log, e);
    assert e in schedule <==> e in Elements(schedule);
    forall k: nat | k < |log|
      ensures e in StartedIn(tasks, world, k, log[k]) <==> StartsInRound(tasks, world, k, log[k], e)
    {
      assert Following(tasks, robots, world)(log[..k], log[k]);
      RoundWinsTasks(tasks, robots, world, k, log[k]);
      StartsAreDispatches(tasks, world, k, log[k], e);
    }
  }

  lemma RoundHasSupply(tasks: Tasks, robots: seq<AgentId>, world: World, k: nat, round: Played)
    requires ValidMission(tasks, robots, world) && IsPlayed(tasks, robots, world, k, round)
    ensures IsSupply(IdleRobots(robots, round.before.running), Waiting(tasks, round.before))
  {
    SortedIsSorted(Startable(tasks, round.before));
    IdleRobotsAreDistinct(robots, round.before.running);
  }

  /**
   Every round of an allocation: with a task for every idle robot its dispatches
   are within n * epsilon of any others in benefit, otherwise in gain over an idle slot.
   */
  lemma RoundsAreNearBest(tasks: Tasks, robots: seq<AgentId>, world: World, log: seq<Played>, k: nat,
                          g: map<AgentId, TaskId>)
    requires ValidMission(tasks, robots, world) && Throughout(log, Following(tasks, robots, world)) && k < |log|
    requires IsDispatch(IdleRobots(robots, log[k].before.running), Waiting(tasks, log[k].before), g)
    ensures var idle, available := IdleRobots(robots, log[k].before.running), Waiting(tasks, log[k].before);
            available != []
            && if |idle| <= |available| then
                 RealTotal(world.BenefitAt(k), Dispatches(log[k].result))
                 >= RealTotal(world.BenefitAt(k), g) - Times(|idle|, world.config.epsilon)
               else
                 GainTotal(world.BenefitAt(k), available, Dispatches(log[k].result))
                 >= GainTotal(world.BenefitAt(k), available, g) - Times(|idle|, world.config.epsilon)
  {
    var round := log[k];
    var idle, available := IdleRobots(robots, round.before.running), Waiting(tasks, round.before);
    assert Following(tasks, robots, world)(log[..k], round);
    RoundHasSupply(tasks, robots, world, k, round);
    RunnerHonours(idle, available, world, k, round.rows);
    if |idle| <= |available| {
      DispatchIsNearBest(idle, available, world.BenefitAt(k), round.rows, world.config, round.result, g);
    } else {
      SurplusGainIsNearBest(idle, available, world.BenefitAt(k), round.rows, world.config, round.result, g);
    }
  }

  // ------------------------------------------------------ time advance

  /** The running robot whose job ends first. */
  method FirstToFinish(running: map<AgentId, Job>) returns (r: AgentId)
    requires running != map[]
    ensures r in running && forall a | a in running :: running[r].finish <= running[a].finish
  {
    r :| r in running;
    var todo := running.Keys - {r};
    while todo != {}
      invariant todo <= running.Keys && r in running
      invariant forall a | a in running.Keys - todo :: running[r].finish <= running[a].finish
    {
      var a :| a in todo;
      if running[a].finish < running[r].finish {
        r := a;
      }
      todo := todo - {a};
    }
  }

  // ------------------------------------------------------ the main loop

  predicate SomeoneWorks(running: map<AgentId, Job>) {
    exists r :: r in running && running[r].task >= 0
  }

  /** Whoever runs works on a real task. */
  lemma RunnersWork(tasks: Tasks, robots: set<AgentId>, p: Progress)
    requires p in SoundStates(tasks, robots) && p.running != map[] && forall t | t in tasks :: t >= 0
    ensures SomeoneWorks(p.running) && Sound(tasks, robots, p)
  {
    var r := Pick(p.running.Keys);
    assert RunningOk(PlanOf(p.schedule), p.now, r, p.running[r]);
  }

  /** With a DAG and a robot the allocation never gets stuck. */
  lemma NeverStuck(tasks: Tasks, robots: seq<AgentId>, p: Progress)
    requires IsDag(tasks) && Sound(tasks, Elements(robots), p)
    requires robots != [] && !(tasks.Keys <= p.completed) && p.running == map[]
    ensures IdleRobots(robots, p.running) != [] && Waiting(tasks, p) != []
  {
    assert robots[0] in IdleRobots(robots, p.running);
    SomethingIsAvailable(tasks, p.completed);
    var t := Pick(Available(tasks, p.completed));
    SortedIsSorted(Startable(tasks, p));
    assert t in Waiting(tasks, p);
  }

  /** A round leaves fewer robots idle. */
  lemma FewerIdle(robots: set<AgentId>, before: set<AgentId>, after: set<AgentId>)
    requires before <= after <= robots && |after - before| > 0
    ensures |robots - after| < |robots - before|
  {
    Partition(robots - before, robots - after, after - before);
  }

  /** A completion leaves fewer tasks. */
  lemma FewerTasks(tasks: set<TaskId>, completed: set<TaskId>, t: TaskId)
    requires t in tasks - completed
    ensures |tasks - (completed + {t})| < |tasks - completed|
  {
    Partition(tasks - completed, tasks - (completed + {t}), {t});
  }

  lemma CompletedCount(tasks: Tasks, completed: set<TaskId>)
    requires completed <= tasks.Keys
    ensures |completed| < |tasks| <==> !(tasks.Keys <= completed)
  {
    assert |tasks| == |tasks.Keys|;
    SubsetCardinality(completed, tasks.Keys);
    if tasks.Keys <= completed {
      assert tasks.Keys == completed;
    }
  }

  /** Advance to the next completion. */
  method AdvanceTime(tasks: Tasks, ghost robots: set<AgentId>, p: Progress) returns (p': Progress)
    requires Sound(tasks, robots, p) && p.running != map[]
    ensures Sound(tasks, robots, p') && p'.now >= p.now && p'.schedule == p.schedule
    ensures |tasks.Keys - p'.completed| < |tasks.Keys - p.completed|
  {
    var r := FirstToFinish(p.running);
    CompleteKeepsSound(tasks, robots, p, r);
    assert RunningOk(PlanOf(p.schedule), p.now, r, p.running[r]);
    FewerTasks(tasks.Keys, p.completed, p.running[r].task);
    p' := Complete(p, r);
  }

  ghost predicate ValidMission(tasks: Tasks, robots: seq<AgentId>, world: World) {
    && IsDag(tasks) && NonNegativeDurations(tasks) && (forall t | t in tasks :: t >= 0)
    && NoDuplicates(robots) && (forall r | r in robots :: r >= 0)
    && world.Valid()
  }

  /** What the loop makes smaller: first the tasks to do, then the idle robots. */
  ghost predicate Advances(tasks: Tasks, robots: set<AgentId>, p: Progress, p': Progress) {
    || |tasks.Keys - p'.completed| < |tasks.Keys - p.completed|
    || (p'.completed == p.completed && |robots - p'.running.Keys| < |robots - p.running.Keys|)
  }

  /** Play the next round and log it. */
  method PlayNext(tasks: Tasks, robots: seq<AgentId>, p: Progress, world: World, rounds: nat, messages: nat,
                  ghost log: seq<Played>, ghost plays: RoundRelation, ghost keeps: LogProperty)
    returns (p': Progress, messages': nat, ghost log': seq<Played>)
    requires ValidMission(tasks, robots, world) && Sound(tasks, Elements(robots), p)
    requires Waiting(tasks, p) != [] && IdleRobots(robots, p.running) != []
    requires Covers(tasks, robots, world, plays) && Keeps(plays, keeps) && keeps(log, p.schedule, messages)
    requires rounds == |log| && SoundThroughout(tasks, robots, log)
    ensures p' in SoundStates(tasks, Elements(robots)) && Advances(tasks, Elements(robots), p, p')
            && p'.running != map[]
    ensures keeps(log', p'.schedule, messages') && |log'| == rounds + 1
    ensures SoundThroughout(tasks, robots, log')
  {
    var sent;
    ghost var round;
    p', sent, round := PlayRound(tasks, robots, p, world, rounds, plays);
    messages', log' := messages + sent, log + [round];
    assert keeps(log', p'.schedule, messages');
    SoundThroughoutNext(tasks, robots, log, round);
    FewerIdle(Elements(robots), p.running.Keys, p'.running.Keys);
  }

  lemma StuckMeansNoRobots(tasks: Tasks, robots: seq<AgentId>, p: Progress)
    requires IsDag(tasks) && Sound(tasks, Elements(robots), p) && !(tasks.Keys <= p.completed) && p.running == map[]
    requires !(Waiting(tasks, p) != [] && IdleRobots(robots, p.running) != [])
    ensures robots == []
  {
    if robots != [] {
      NeverStuck(tasks, robots, p);
    }
  }

  lemma SoundStart(tasks: Tasks, robots: set<AgentId>)
    ensures Sound(tasks, robots, Progress(0.0, map[], {}, []))
  {
  }

  /**
   Rounds and completions until every task is done. With at least one robot
   that is always reached; without robots nothing is ever scheduled. Whatever
   property of logs every round keeps holds of the log at the end.
   */
  method RunRounds(tasks: Tasks, robots: seq<AgentId>, world: World, ghost plays: RoundRelation,
                   ghost keeps: LogProperty)
    returns (p: Progress, rounds: nat, messages: nat, ghost log: seq<Played>)
    requires ValidMission(tasks, robots, world) && Covers(tasks, robots, world, plays)
    requires Keeps(plays, keeps) && keeps([], [], 0)
    ensures Sound(tasks, Elements(robots), p)
    ensures robots != [] ==> tasks.Keys <= p.completed
    ensures tasks.Keys <= p.completed || p.running == map[]
    ensures keeps(log, p.schedule, messages) && rounds == |log| && SoundThroughout(tasks, robots, log)
  {
    p, rounds, messages, log := Progress(0.0, map[], {}, []), 0, 0, [];
    SoundStart(tasks, Elements(robots));
    CompletedCount(tasks, p.completed);
    while |p.completed| < |tasks|
      invariant Sound(tasks, Elements(robots), p)
      invariant |p.completed| < |tasks| <==> !(tasks.Keys <= p.completed)
      invariant keeps(log, p.schedule, messages) && rounds == |log|
      invariant SoundThroughout(tasks, robots, log)
      decreases |tasks.Keys - p.completed|, |Elements(robots) - p.running.Keys|
    {
      if Waiting(tasks, p) != [] && IdleRobots(robots, p.running) != [] {
        p, messages, log := PlayNext(tasks, robots, p, world, rounds, messages, log, plays, keeps);
        RunnersWork(tasks, Elements(robots), p);
        rounds := rounds + 1;
        CompletedCount(tasks, p.completed);
        if SomeoneWorks(p.running) {
          continue;
        }
      }
      if p.running == map[] {
        StuckMeansNoRobots(tasks, robots, p);
        return;
      }
      p := AdvanceTime(tasks, Elements(robots), p);
      CompletedCount(tasks, p.completed);
    }
  }

  // ------------------------------------------------------ the result

  datatype Allocation =
    | Allocated(schedule: seq<ScheduledTask>, makespan: real, rounds: nat, totalMessages: nat,
                unallocated: map<TaskId, Reason>)
    | Refused

  /** Python's `max(finish, default=0.0)`. */
  ghost predicate IsMakespan(schedule: seq<ScheduledTask>, makespan: real) {
    && (schedule == [] ==> makespan == 0.0)
    && (forall e | e in schedule :: e.finish <= makespan)
    && (schedule != [] ==> exists e :: e in schedule && e.finish == makespan)
  }

  method Makespan(schedule: seq<ScheduledTask>) returns (makespan: real)
    ensures IsMakespan(schedule, makespan)
  {
    makespan := 0.0;
    for i := 0 to |schedule|
      invariant IsMakespan(schedule[..i], makespan)
    {
      assert schedule[..i + 1] == schedule[..i] + [schedule[i]];
      if i == 0 || schedule[i].finish > makespan {
        makespan := schedule[i].finish;
        assert schedule[i] in schedule[..i + 1];
      } else {
        var e :| e in schedule[..i] && e.finish == makespan;
        assert e in schedule[..i + 1];
      }
    }
    assert schedule[..|schedule|] == schedule;
  }

  lemma {:induction false} PlannedSlot(schedule: seq<ScheduledTask>, t: TaskId)
    requires t in PlanOf(schedule)
    ensures exists e :: e in schedule && e.task == t && PlanOf(schedule)[t] == Slot(e.robot, e.start, e.finish)
    decreases |schedule|
  {
    var init, last := schedule[..|schedule| - 1], schedule[|schedule| - 1];
    assert schedule == init + [last];
    if last.task == t {
      assert last in schedule;
    } else {
      PlannedSlot(init, t);
    }
  }

  lemma MakespanEndsPlan(tasks: Tasks, robots: set<AgentId>, schedule: seq<ScheduledTask>, makespan: real)
    requires IsMakespan(schedule, makespan) && Feasible(tasks, robots, PlanOf(schedule)) && NonNegativeDurations(tasks)
    ensures EndsBy(PlanOf(schedule), makespan)
  {
    var plan := PlanOf(schedule);
    forall t | t in plan ensures 0.0 <= plan[t].finish <= makespan {
      PlannedSlot(schedule, t);
      assert FitsSlot(tasks[t], robots, plan[t]);
    }
    if schedule != [] {
      PlanKeys(schedule, schedule[0].task);
    }
  }

  /** Without robots nothing is ever planned. */
  lemma PlansNeedRobots(tasks: Tasks, robots: set<AgentId>, p: Progress)
    requires Sound(tasks, robots, p)
    ensures p.schedule != [] || p.completed != {} ==> robots != {}
  {
    var plan := PlanOf(p.schedule);
    if p.schedule != [] {
      PlanKeys(p.schedule, p.schedule[0].task);
    }
    if plan.Keys != {} {
      var t := Pick(plan.Keys);
      assert PlannedOk(tasks, robots, plan, p.completed, t);
    }
  }

  /** A complete allocation of what can be scheduled at all, and why the rest cannot. */
  ghost predicate IsAllocation(all: Tasks, robots: seq<AgentId>, r: Allocation)
    requires r.Allocated? && IsDag(all)
  {
    var tasks := Restrict(all, Schedulable(all));
    && r.unallocated.Keys == all.Keys - Schedulable(all)
    && (forall t | t in r.unallocated :: JustReason(all, t, r.unallocated[t]))
    && Feasible(tasks, Elements(robots), PlanOf(r.schedule))
    && InOrder(r.schedule)
    && IsMakespan(r.schedule, r.makespan)
  }

  lemma MarkedComplement(tasks: Tasks, marked: map<TaskId, Reason>)
    requires MarksBlocked(tasks, Collaborative(tasks), marked)
    ensures marked.Keys == tasks.Keys - Schedulable(tasks)
  {
  }

  /** The tasks left over are listed by the schedulable part of the dictionary. */
  lemma SchedulableList(list: seq<Task>, supported: seq<Task>, marked: map<TaskId, Reason>)
    requires DistinctIds(list) && DistinctIds(supported)
    requires forall task :: task in supported <==> task in list && !task.Collaborative()
    requires MarksBlocked(ById(list), Collaborative(ById(list)), marked)
    ensures ById(Without(supported, marked.Keys)) == Restrict(ById(list), Schedulable(ById(list)))
  {
    var all, left := ById(list), Without(supported, marked.Keys);
    ByIdListsTasks(list);
    WithoutLists(supported, marked.Keys);
    ByIdListsTasks(left);
    MarkedComplement(all, marked);
    var sub := Restrict(all, Schedulable(all));
    forall task ensures task in left <==> task.id in sub && sub[task.id] == task {
      if task in left {
        assert task in list;
      }
      if task.id in sub && sub[task.id] == task {
        assert task in list && task.id !in Collaborative(all);
      }
    }
    ListedTasksAreUnique(left, ById(left), sub);
  }

  /** No allocation beats the makespan lower bound. */
  lemma AllocationMeetsLowerBound(all: Tasks, robots: seq<AgentId>, r: Allocation)
    requires IsDag(all) && NonNegativeDurations(all) && robots != []
    requires r.Allocated? && IsAllocation(all, robots, r)
    ensures IsDag(Restrict(all, Schedulable(all))) && |Elements(robots)| > 0
    ensures LowerBound(Restrict(all, Schedulable(all)), |Elements(robots)|) <= r.makespan
  {
    var tasks := Restrict(all, Schedulable(all));
    SchedulableIsDag(all);
    assert robots[0] in Elements(robots);
    MakespanEndsPlan(tasks, Elements(robots), r.schedule, r.makespan);
    LowerBoundIsSound(tasks, Elements(robots), PlanOf(r.schedule), r.makespan);
  }

  ghost predicate ValidInput(robots: seq<AgentId>, list: seq<Task>, world: World) {
    && DistinctIds(list) && (forall task | task in list :: task.id >= 0 && task.duration >= 0.0)
    && NoDuplicates(robots) && (forall r | r in robots :: r >= 0)
    && world.Valid()
  }

  lemma MissionIsValid(robots: seq<AgentId>, list: seq<Task>, world: World)
    requires ValidInput(robots, list, world) && IsDag(ById(list))
    ensures ValidMission(Restrict(ById(list), Schedulable(ById(list))), robots, world)
  {
    ByIdListsTasks(list);
    SchedulableIsDag(ById(list));
    forall t | t in ById(list) ensures t >= 0 && ById(list)[t].duration >= 0.0 {
      assert ById(list)[t] in list;
    }
  }

  /** Without collaborative tasks everything can be scheduled. */
  lemma NothingBlocked(tasks: Tasks)
    requires Collaborative(tasks) == {}
    ensures Restrict(tasks, Schedulable(tasks)) == tasks
  {
  }

  /** Sort out what cannot be scheduled; nothing is sorted out of cyclic dependencies. */
  method Classify(list: seq<Task>) returns (ok: bool, tasks: Tasks, unallocated: map<TaskId, Reason>)
    requires DistinctIds(list)
    ensures ok <==> IsDag(ById(list))
    ensures ok ==> tasks == Restrict(ById(list), Schedulable(ById(list)))
    ensures ok ==> MarksBlocked(ById(list), Collaborative(ById(list)), unallocated)
  {
    var supported;
    unallocated, supported := SplitCollaborative(list);
    ok, unallocated := MarkAllBlocked(list, unallocated);
    tasks := map[];
    if !ok {
      return;
    }
    SchedulableList(list, supported, unallocated);
    var schedulable := Without(supported, unallocated.Keys);
    var dag := MakeDag(schedulable);
    if Collaborative(ById(list)) == {} {
      NothingBlocked(ById(list));
    }
    if IsDag(ById(list)) {
      SchedulableIsDag(ById(list));
    }
    if !dag.Valid? {
      ok := false;
      return;
    }
    tasks := dag.tasks;
  }

  /** The log accounts for the rounds, the messages and every entry of the schedule. */
  ghost predicate Accounts(tasks: Tasks, robots: seq<AgentId>, world: World, log: seq<Played>, r: Allocation)
    requires r.Allocated?
  {
    && IsLog(tasks, robots, world, log, r.schedule, r.totalMessages)
    && SoundThroughout(tasks, robots, log) && r.rounds == |log|
  }

  /**
   Allocate a whole mission. The dependencies are refused exactly when they are
   no DAG; otherwise every schedulable task is scheduled exactly once, feasibly,
   and every other task is reported with its reason.
   */
  method Allocate(robots: seq<AgentId>, list: seq<Task>, world: World) returns (r: Allocation, ghost log: seq<Played>)
    requires ValidInput(robots, list, world)
    ensures r.Refused? <==> !IsDag(ById(list))
    ensures r.Allocated? && robots != [] ==> IsAllocation(ById(list), robots, r)
    ensures r.Allocated? ==> Accounts(Restrict(ById(list), Schedulable(ById(list))), robots, world, log, r)
    ensures r.Allocated? && robots == [] ==>
              r.schedule == [] && r.makespan == 0.0 && r.unallocated.Keys == ById(list).Keys
  {
    var ok, tasks, unallocated := Classify(list);
    if !ok {
      return Refused, [];
    }
    MissionIsValid(robots, list, world);
    var p, rounds, messages;
    LogsAreKept(tasks, robots, world);
    p, rounds, messages, log :=
      RunRounds(tasks, robots, world, Playing(tasks, robots, world), BeingLog(tasks, robots, world));
    MarkedComplement(ById(list), unallocated);
    if tasks.Keys <= p.completed {
      SoundEndIsFeasible(tasks, Elements(robots), p);
    } else {
      unallocated := SetDefaults(unallocated, tasks.Keys - p.completed, NoProgress);
    }
    if robots == [] {
      PlansNeedRobots(tasks, Elements(robots), p);
      assert tasks.Keys == Schedulable(ById(list));
      assert unallocated.Keys == ById(list).Keys;
    }
    var makespan := Makespan(p.schedule);
    r := Allocated(p.schedule, makespan, rounds, messages, unallocated);
  }
}
