/**
 What is on a tick's agenda for one robot: its kills, the tasks injected, the
 messages that arrive for it, one turn, and the end of what its host executes.
 */
module Agendas {
  import opened Types
  import opened Messages
  import opened Participation
  import opened RobotLives
  import opened SystemSims
  import opened RobotDays

  /** A kill of `r` is due. */
  ghost predicate KilledBy(killAt: seq<(AgentId, real)>, r: AgentId, now: real) {
    exists k :: 0 <= k < |killAt| && killAt[k].0 == r && killAt[k].1 <= now
  }

  /** What arrives for `r`, in order. */
  function Mail(due: seq<(AgentId, Message)>, r: AgentId): seq<Message> {
    if due == [] then []
    else
      var rest, last := Mail(due[..|due| - 1], r), due[|due| - 1];
      if last.0 == r then rest + [last.1] else rest
  }

  /** What every live robot is told of the injections `from` to `upto`. */
  function Taught(inject: seq<(real, Task)>, from: nat, upto: nat, now: real): seq<Message>
    requires from <= upto <= |inject|
  {
    seq(upto - from, k requires 0 <= k < upto - from => TaskInjected(inject[from + k].1, now))
  }

  function HeardAll(messages: seq<Message>, now: real, benefit: TaskId -> real): seq<Act> {
    seq(|messages|, k requires 0 <= k < |messages| => Act.Hears(messages[k], now, benefit))
  }

  // ------------------------------------------------------ own events

  lemma {:induction false} OwnAppend(a: seq<Event>, b: seq<Event>, r: AgentId)
    ensures Own(a + b, r) == Own(a, r) + Own(b, r)
    decreases |b|
  {
    if b == [] {
      assert a + b == a;
    } else {
      OwnAppend(a, b[..|b| - 1], r);
      assert (a + b)[..|a + b| - 1] == a + b[..|b| - 1];
    }
  }

  /** One event for each robot in `order`. */
  ghost predicate OneEach(events: seq<Event>, order: seq<AgentId>) {
    |events| == |order| && forall k | 0 <= k < |order| :: events[k].robot == order[k]
  }

  lemma {:induction false} OwnOfEach(events: seq<Event>, order: seq<AgentId>, r: AgentId, k: nat)
    requires OneEach(events, order) && NoDuplicates(order)
    requires k < |order| ==> order[k] == r
    requires k >= |order| ==> r !in order
    ensures Own(events, r) == if k < |order| then [events[k]] else []
    decreases |order|
  {
    if order != [] {
      var rest, init := events[..|events| - 1], order[..|order| - 1];
      if k == |init| {
        assert r !in init;
        OwnOfEach(rest, init, r, k);
      } else {
        assert order[|init|] != r;
        OwnOfEach(rest, init, r, if k < |init| then k else |init|);
      }
    }
  }

  /** The event tells robot `r` this. */
  ghost predicate Tells(e: Event, m: Message, r: AgentId, now: real) {
    e.robot == r && ((e.Learns? && m == TaskInjected(e.task, now)) || (e.Hears? && m == e.message))
  }

  ghost predicate AllTell(events: seq<Event>, messages: seq<Message>, r: AgentId, now: real) {
    |events| == |messages| && forall k | 0 <= k < |events| :: Tells(events[k], messages[k], r, now)
  }

  /** Each robot is told of each injection once. */
  lemma {:induction false} OwnInjections(inject: seq<(real, Task)>, order: seq<AgentId>, from: nat, upto: nat,
                                         r: AgentId, now: real)
    requires from <= upto <= |inject| && NoDuplicates(order) && r in order
    ensures AllTell(Own(Injections(inject, order, from, upto), r), Taught(inject, from, upto, now), r, now)
    decreases upto - from
  {
    if from < upto {
      var task := inject[upto - 1].1;
      var before, lessons := Injections(inject, order, from, upto - 1), Lessons(order, task);
      OwnInjections(inject, order, from, upto - 1, r, now);
      OwnAppend(before, lessons, r);
      OwnLesson(order, task, r, now);
      TellBoth(Own(before, r), Own(lessons, r), Taught(inject, from, upto - 1, now), [TaskInjected(task, now)], r, now);
      assert Taught(inject, from, upto, now) == Taught(inject, from, upto - 1, now) + [TaskInjected(task, now)];
    }
  }

  lemma OwnLesson(order: seq<AgentId>, task: Task, r: AgentId, now: real)
    requires NoDuplicates(order) && r in order
    ensures AllTell(Own(Lessons(order, task), r), [TaskInjected(task, now)], r, now)
  {
    var k: nat :| k < |order| && order[k] == r;
    OwnOfEach(Lessons(order, task), order, r, k);
  }

  lemma TellBoth(a: seq<Event>, b: seq<Event>, m: seq<Message>, n: seq<Message>, r: AgentId, now: real)
    requires AllTell(a, m, r, now) && AllTell(b, n, r, now)
    ensures AllTell(a + b, m + n, r, now)
  {
  }

  lemma {:induction false} OwnDeliveries(due: seq<(AgentId, Message)>, r: AgentId, now: real)
    ensures AllTell(Own(Deliveries(due), r), Mail(due, r), r, now)
    decreases |due|
  {
    if due != [] {
      var rest := due[..|due| - 1];
      OwnDeliveries(rest, r, now);
      assert Deliveries(due)[..|due| - 1] == Deliveries(rest);
    }
  }

  // ------------------------------------------------------ what they make of the robot

  lemma {:induction false} MetAppend(c: Settings, scenario: Scenario, x: Standing, now: real, i: nat, a: seq<Event>,
                                     b: seq<Event>)
    requires Workable(x.p)
    ensures MetAll(c, scenario, x, now, i, a + b)
            == MetAll(c, scenario, MetAll(c, scenario, x, now, i, a), now, i, b)
    decreases |b|
  {
    if b == [] {
      assert a + b == a;
    } else {
      MetAppend(c, scenario, x, now, i, a, b[..|b| - 1]);
      assert (a + b)[..|a + b| - 1] == a + b[..|b| - 1];
    }
  }

  /** The dead robot. */
  function Killed(x: Standing): Standing {
    x.(dead := true, work := None)
  }

  lemma {:induction false} KillsMeet(c: Settings, scenario: Scenario, x: Standing, now: real, i: nat,
                                     killAt: seq<(AgentId, real)>)
    requires Workable(x.p)
    ensures MetAll(c, scenario, x, now, i, Own(Deaths(killAt), c.id))
            == if !x.dead && KilledBy(killAt, c.id, now) then Killed(x) else x
    decreases |killAt|
  {
    if killAt != [] {
      var rest, last := killAt[..|killAt| - 1], killAt[|killAt| - 1];
      KillsMeet(c, scenario, x, now, i, rest);
      assert Deaths(killAt)[..|killAt| - 1] == Deaths(rest);
      KilledByMore(rest, last, c.id, now);
      assert rest + [last] == killAt;
    }
  }

  lemma KilledByMore(killAt: seq<(AgentId, real)>, last: (AgentId, real), r: AgentId, now: real)
    ensures KilledBy(killAt + [last], r, now) <==> KilledBy(killAt, r, now) || (last.0 == r && last.1 <= now)
  {
    var more := killAt + [last];
    if KilledBy(killAt, r, now) {
      var k :| 0 <= k < |killAt| && killAt[k].0 == r && killAt[k].1 <= now;
      assert more[k] == killAt[k];
    }
    if last.0 == r && last.1 <= now {
      assert more[|killAt|] == last;
    }
  }

  lemma {:induction false} DeadStay(c: Settings, scenario: Scenario, x: Standing, now: real, i: nat, events: seq<Event>)
    requires Workable(x.p) && x.dead && x.work.None?
    ensures MetAll(c, scenario, x, now, i, events) == x
    decreases |events|
  {
    if events != [] {
      DeadStay(c, scenario, x, now, i, events[..|events| - 1]);
    }
  }

  /** A live robot takes in what it is told. */
  lemma {:induction false} TalkMeets(c: Settings, scenario: Scenario, x: Standing, now: real, i: nat,
                                     events: seq<Event>, messages: seq<Message>)
    requires Workable(x.p) && !x.dead && AllTell(events, messages, c.id, now)
    ensures MetAll(c, scenario, x, now, i, events)
            == x.(p := Lived(c, x.p, HeardAll(messages, now, scenario.benefit(c.id, i))))
    decreases |events|
  {
    if events != [] {
      var benefit := scenario.benefit(c.id, i);
      var rest := messages[..|messages| - 1];
      TalkMeets(c, scenario, x, now, i, events[..|events| - 1], rest);
      assert Tells(events[|events| - 1], messages[|messages| - 1], c.id, now);
      assert HeardAll(messages, now, benefit)[..|messages| - 1] == HeardAll(rest, now, benefit);
    }
  }

  // ------------------------------------------------------ the agenda of a tick

  /** What the robot is told in a tick: the tasks injected meanwhile, then its mail. */
  function News(scenario: Scenario, sim: Sim, now: real, i: nat, r: AgentId, upto: nat): seq<Message>
    requires sim.injected <= upto <= |scenario.inject|
  {
    Taught(scenario.inject, sim.injected, upto, now) + Mail(scenario.arrivals(i, sim.s.net), r)
  }

  /** The robot once it has been told. */
  ghost function Informed(c: Settings, scenario: Scenario, x: Standing, now: real, i: nat,
                          messages: seq<Message>): (y: Standing)
    requires Workable(x.p)
    ensures Workable(y.p)
  {
    x.(p := Lived(c, x.p, HeardAll(messages, now, scenario.benefit(c.id, i))))
  }

  lemma OwnTurn(order: seq<AgentId>, r: AgentId)
    requires NoDuplicates(order) && r in order
    ensures Own(Turns(order), r) == [Event.Ticks(r)]
  {
    var k: nat :| k < |order| && order[k] == r;
    OwnOfEach(Turns(order), order, r, k);
  }

  /** The news, as events. */
  function Tidings(scenario: Scenario, order: seq<AgentId>, sim: Sim, now: real, i: nat): seq<Event>
    requires sim.injected <= |scenario.inject|
  {
    Injections(scenario.inject, order, sim.injected, InjectedBy(scenario.inject, sim.injected, now))
    + Deliveries(scenario.arrivals(i, sim.s.net))
  }

  lemma OwnTidings(scenario: Scenario, order: seq<AgentId>, sim: Sim, now: real, i: nat, r: AgentId)
    requires sim.injected <= |scenario.inject| && NoDuplicates(order) && r in order
    ensures AllTell(Own(Tidings(scenario, order, sim, now, i), r),
                    News(scenario, sim, now, i, r, InjectedBy(scenario.inject, sim.injected, now)), r, now)
  {
    var upto := InjectedBy(scenario.inject, sim.injected, now);
    OwnInjections(scenario.inject, order, sim.injected, upto, r, now);
    OwnDeliveries(scenario.arrivals(i, sim.s.net), r, now);
    OwnAppend(Injections(scenario.inject, order, sim.injected, upto), Deliveries(scenario.arrivals(i, sim.s.net)), r);
  }

  lemma OwnAgenda(scenario: Scenario, order: seq<AgentId>, sim: Sim, now: real, i: nat, r: AgentId)
    requires sim.injected <= |scenario.inject| && NoDuplicates(order) && r in order
    ensures Own(Agenda(scenario, order, sim, now, i), r)
            == Own(Deaths(scenario.killAt), r) + Own(Tidings(scenario, order, sim, now, i), r) + [Event.Ticks(r)]
  {
    var deaths, tidings := Deaths(scenario.killAt), Tidings(scenario, order, sim, now, i);
    OwnAppend(deaths, tidings, r);
    OwnAppend(deaths + tidings, Turns(order), r);
    OwnTurn(order, r);
    var injections := Injections(scenario.inject, order, sim.injected, InjectedBy(scenario.inject, sim.injected, now));
    assert deaths + (injections + Deliveries(scenario.arrivals(i, sim.s.net)))
        == deaths + injections + Deliveries(scenario.arrivals(i, sim.s.net));
  }

  /** What the agenda makes of a robot: death, or news and its turn. */
  lemma AgendaMeets(c: Settings, scenario: Scenario, x: Standing, now: real, i: nat, order: seq<AgentId>, sim: Sim)
    requires sim.injected <= |scenario.inject| && NoDuplicates(order) && c.id in order
    requires Workable(x.p) && (x.dead ==> x.work.None?)
    ensures MetAll(c, scenario, x, now, i, Own(Agenda(scenario, order, sim, now, i), c.id))
            == if x.dead || KilledBy(scenario.killAt, c.id, now) then Killed(x)
               else MetTurn(c, scenario,
                            Informed(c, scenario, x, now, i,
                                     News(scenario, sim, now, i, c.id, InjectedBy(scenario.inject, sim.injected, now))),
                            now, i)
  {
    var deaths := Own(Deaths(scenario.killAt), c.id);
    var tidings := Own(Tidings(scenario, order, sim, now, i), c.id);
    OwnAgenda(scenario, order, sim, now, i, c.id);
    OwnTidings(scenario, order, sim, now, i, c.id);
    KillsMeet(c, scenario, x, now, i, scenario.killAt);
    MeetInTurn(c, scenario, x, now, i, deaths, tidings);
    var y := MetAll(c, scenario, x, now, i, deaths);
    if y.dead {
      DeadStay(c, scenario, y, now, i, tidings);
    } else {
      TalkMeets(c, scenario, y, now, i, tidings,
                News(scenario, sim, now, i, c.id, InjectedBy(scenario.inject, sim.injected, now)));
    }
  }

  lemma MeetInTurn(c: Settings, scenario: Scenario, x: Standing, now: real, i: nat, deaths: seq<Event>,
                   tidings: seq<Event>)
    requires Workable(x.p)
    ensures MetAll(c, scenario, x, now, i, deaths + tidings + [Event.Ticks(c.id)])
            == Met(c, scenario, MetAll(c, scenario, MetAll(c, scenario, x, now, i, deaths), now, i, tidings), now, i,
                   Event.Ticks(c.id))
  {
    MetAppend(c, scenario, x, now, i, deaths, tidings);
    OneMoreOwn(c, scenario, x, now, i, deaths + tidings, Event.Ticks(c.id));
  }
}
