/**
 The coordination state machine as an object: its monitor, its lease book, and
 the auction agent or relay of the current round.
 */
module CoordinationParticipants {
  import opened Types
  import opened Prices
  import opened Engine
  import opened Dag
  import opened Messages
  import opened Leases
  import opened Heartbeats
  import opened Participation

  class CoordinationParticipant {
    const settings: Settings
    const monitor: HeartbeatMonitor
    const leaseBook: TaskLeases
    var position: Position
    var workload: real
    var tasks: Tasks
    var unsupported: set<TaskId>
    var completed: map<TaskId, AgentId>
    var executing: Option<TaskId>
    var idleFlags: map<AgentId, Flag>
    var announcement: Option<RoundAnnouncement>
    var roundOpenedAt: real
    var agent: AuctionAgent?
    var relay: PriceTable?
    var relayDirty: bool
    var maxRoundSeen: int
    var lastHeartbeat: Option<real>
    var dispatches: seq<TaskId>
    var aborts: seq<TaskId>

    ghost function Repr(): set<object>
      reads this
    {
      {this, monitor, leaseBook}
      + (if agent != null then {agent, agent.prices} else {})
      + (if relay != null then {relay} else {})
    }

    /** The parts do not overlap and follow the settings. */
    ghost predicate Assembled()
      reads this, Repr()
    {
      && settings.id >= 0 && monitor.timeout == settings.timeout
      && leaseBook.duration == settings.leaseDuration && leaseBook.Valid()
      && (agent != null ==> agent.id == settings.id && agent.prices != relay)
    }

    ghost predicate Valid()
      reads this, Repr()
    {
      Assembled() && Workable(State()) && (agent != null ==> agent.Valid())
    }

    function HostedState(): Option<Hosted>
      reads this, agent, if agent != null then {agent.prices} else {}
    {
      if agent == null then None else Some(Hosted(agent.row, agent.config, agent.State()))
    }

    function RelayState(): Option<Table>
      reads this, relay
    {
      if relay == null then None else Some(relay.entries)
    }

    function State(): Participant
      reads this, Repr()
    {
      Participant(position, workload, tasks, unsupported, completed, executing, idleFlags, announcement, roundOpenedAt,
                  HostedState(), RelayState(), relayDirty, maxRoundSeen, lastHeartbeat, dispatches, aborts,
                  monitor.lastSeen, leaseBook.leases)
    }

    /** The agent and the relay are the ones of before. */
    twostate predicate SameParts()
      reads this
    {
      agent == old(agent) && relay == old(relay)
    }

    /** The agent and the relay are the ones of before, if any. */
    twostate predicate NoNewParts()
      reads this
    {
      (agent == null || agent == old(agent)) && relay == old(relay)
    }

    /** The agent and the relay are the ones of before, or new objects, if any. */
    twostate predicate OnlyNewParts()
      reads this
    {
      && (agent == null || agent == old(agent) || (fresh(agent) && fresh(agent.prices)))
      && (relay == null || relay == old(relay) || fresh(relay))
    }

    constructor (settings: Settings, interval: real, eta: int)
      requires settings.id >= 0 && interval > 0.0 && eta >= 1 && settings.timeout == eta as real * interval
               && settings.leaseDuration > 0.0
      ensures Valid() && fresh(Repr()) && this.settings == settings
      ensures State() == Start(settings)
      ensures position == settings.position && workload == settings.workload
      ensures tasks == map[] && completed == map[] && executing == None && announcement == None
      ensures agent == null && relay == null
    {
      this.settings := settings;
      position, workload := settings.position, settings.workload;
      monitor := new HeartbeatMonitor(interval, eta);
      leaseBook := new TaskLeases(settings.leaseDuration);
      tasks, unsupported, completed, executing := map[], {}, map[], None;
      idleFlags, announcement, roundOpenedAt := map[], None, 0.0;
      agent, relay, relayDirty, maxRoundSeen, lastHeartbeat := null, null, false, 0, None;
      dispatches, aborts := [], [];
    }

    // ---------------------------------------------------- messages

    method AddTask(task: Task)
      requires Valid()
      modifies this
      ensures Valid() && SameParts()
      ensures State() == Participation.AddTask(old(State()), task)
    {
      if task.Collaborative() {
        unsupported := unsupported + {task.id};
      } else {
        tasks := tasks[task.id := task];
      }
    }

    method OnHeartbeat(sender: AgentId, stamp: real, idle: bool, now: real)
      requires Valid()
      modifies this, monitor
      ensures Valid() && SameParts()
      ensures State() == Participation.OnHeartbeat(settings.id, old(State()), sender, stamp, idle, now)
    {
      if sender == settings.id {
        return;
      }
      monitor.Record(sender, now);
      if sender !in idleFlags || stamp > idleFlags[sender].stamp {
        idleFlags := idleFlags[sender := Flag(stamp, idle)];
      }
    }

    /** Host a fresh agent for the round. */
    method Host(a: RoundAnnouncement, benefit: TaskId -> real)
      requires Assembled() && Biddable(a)
      modifies this`agent, this`relay
      ensures Assembled() && agent != null && agent.Valid() && fresh(agent) && fresh(agent.prices) && relay == null
      ensures State() == BidInRound(old(State()), a, benefit)
    {
      BenefitRowIsOver(tasks, a, benefit);
      agent := new AuctionAgent(settings.id, BenefitRow(tasks, a, benefit), RoundTasks(a),
                                RoundConfig(a.epsilon, a.quiescenceRounds));
      relay := null;
    }

    /** Relay the prices of a round this robot does not bid in. */
    method Follow(a: RoundAnnouncement)
      requires Assembled()
      modifies this`agent, this`relay, this`relayDirty
      ensures Assembled() && agent == null && relay != null && fresh(relay)
      ensures State() == RelayRound(old(State()), a)
    {
      agent := null;
      relay := new PriceTable(RoundTasks(a));
      relayDirty := false;
    }

    method Open(a: RoundAnnouncement, now: real)
      requires Assembled()
      modifies this`announcement, this`maxRoundSeen, this`roundOpenedAt
      ensures Assembled() && State() == OpenRound(old(State()), a, now)
    {
      announcement := Some(a);
      maxRoundSeen := if a.roundId > maxRoundSeen then a.roundId else maxRoundSeen;
      roundOpenedAt := now;
    }

    /**
     Adopt an announcement unless a better one is held; it raises if there is nothing to
     bid on or the parameters are bad.
     */
    method OnAnnouncement(a: RoundAnnouncement, now: real, benefit: TaskId -> real) returns (raised: bool)
      requires Valid()
      modifies this
      ensures Valid() && OnlyNewParts()
      ensures State() == Participation.OnAnnouncement(settings.id, old(State()), a, now, benefit)
      ensures raised <==> AnnouncementRaises(settings.id, old(State()), a)
    {
      AdoptKeepsWorkable(settings.id, State(), a, now, benefit);
      if announcement != None && !announcement.value.Precedes(a) {
        return false;
      }
      Open(a, now);
      if settings.id in a.participants {
        if a.taskIds == [] || a.epsilon <= 0.0 || a.quiescenceRounds < 1 {
          return true;
        }
        Host(a, benefit);
      } else {
        Follow(a);
      }
      return false;
    }

    method OnGossip(roundId: int, inner: PriceTableMessage)
      requires Valid()
      modifies Repr()
      ensures Valid() && SameParts()
      ensures State() == Participation.OnGossip(settings.id, old(State()), roundId, inner)
    {
      GossipKeepsWorkable(settings.id, State(), roundId, inner);
      if announcement == None || roundId != announcement.value.roundId {
        return;
      }
      if agent != null {
        agent.HandleMessage(inner);
      } else if relay != null {
        Absorb(inner.entries);
      }
    }

    /** The relay takes in prices, and remembers whether they were news. */
    method Absorb(entries: Table)
      requires Valid() && agent == null && relay != null
      modifies this`relayDirty, relay
      ensures Assembled() && SameParts()
      ensures State() == RelayPrices(old(State()), entries)
    {
      var changed := relay.Merge(entries);
      if changed {
        relayDirty := true;
      }
    }

    method OnLeaseRenewal(t: TaskId, holder: AgentId, now: real)
      requires Valid()
      modifies leaseBook
      ensures Valid() && SameParts()
      ensures State() == Participation.OnLeaseRenewal(settings, old(State()), t, holder, now)
    {
      var current := Holder(leaseBook.leases, t);
      if current == None {
        var lease := leaseBook.Grant(t, holder, now);
      } else if current.value == holder {
        var ok := leaseBook.Renew(t, holder, now);
      } else if holder < current.value {
        var ok := leaseBook.Release(t, current.value);
        var lease := leaseBook.Grant(t, holder, now);
      }
    }

    method OnCompleted(t: TaskId, completer: AgentId)
      requires Valid()
      modifies this`completed, leaseBook
      ensures Valid() && SameParts()
      ensures State() == Participation.OnCompleted(old(State()), t, completer)
    {
      if t !in completed {
        completed := completed[t := completer];
      }
      var holder := Holder(leaseBook.leases, t);
      if holder != None {
        var ok := leaseBook.Release(t, holder.value);
      }
    }

    /** Every message goes to its handler, whatever it says. */
    method Handle(m: Message, now: real, benefit: TaskId -> real) returns (raised: bool)
      requires Valid()
      modifies Repr()
      ensures Valid() && OnlyNewParts()
      ensures State() == HandleMessage(settings, old(State()), m, now, benefit)
      ensures raised <==> m.Announce? && AnnouncementRaises(settings.id, old(State()), m.announcement)
    {
      raised := false;
      match m {
        case Heartbeat(sender, stamp, idle) => OnHeartbeat(sender, stamp, idle, now);
        case Announce(a) => raised := OnAnnouncement(a, now, benefit);
        case RoundGossip(roundId, inner) => OnGossip(roundId, inner);
        case LeaseRenewal(t, holder, stamp) => OnLeaseRenewal(t, holder, now);
        case TaskCompleted(t, completer, stamp) => OnCompleted(t, completer);
        case TaskInjected(task, stamp) => AddTask(task);
      }
    }

    // ---------------------------------------------------- tick

    /** Note the time, and drop leases that expired. */
    method Expire(now: real)
      requires Assembled()
      modifies monitor, leaseBook
      ensures Assembled()
      ensures State() == old(State()).(seen := Recorded(old(monitor.lastSeen), settings.id, now),
                                       leases := Swept(old(leaseBook.leases), now))
    {
      monitor.Record(settings.id, now);
      var update := monitor.Sweep(now);
      var expired := leaseBook.Sweep(now);
    }

    /** Expired leases go, and with them work that someone else now holds. */
    method Refresh(now: real)
      requires Valid()
      modifies this`aborts, this`executing, monitor, leaseBook
      ensures Valid() && SameParts()
      ensures State() == Participation.Refresh(settings, old(State()), now)
    {
      RefreshKeepsWorkable(settings, State(), now);
      Expire(now);
      if executing != None {
        var holder := Holder(leaseBook.leases, executing.value);
        if holder != None && holder.value != settings.id {
          aborts := aborts + [executing.value];
          executing := None;
        }
      }
    }

    /** The auction is over: take on the task won, unless it is known to be done. */
    method Settle(won: Option<TaskId>, now: real) returns (out: seq<Message>)
      requires Assembled()
      modifies this`agent, this`executing, this`dispatches, leaseBook
      ensures Assembled() && agent == null && relay == old(relay)
      ensures Reaction(State(), Elements(out)) == Participation.Settle(settings, old(State()), won, now)
    {
      agent := null;
      out := [];
      if won != None && won.value >= 0 && won.value !in completed {
        TakeOn(won.value, now);
        out := [LeaseRenewal(won.value, settings.id, now)];
      }
    }

    /** Lease the task and have the host execute it. */
    method TakeOn(t: TaskId, now: real)
      requires Assembled()
      modifies this`executing, this`dispatches, leaseBook
      ensures Assembled() && SameParts()
      ensures var p := old(State());
              State() == p.(leases := Granted(p.leases, settings.leaseDuration, t, settings.id, now),
                            executing := Some(t), dispatches := p.dispatches + [t])
    {
      var lease := leaseBook.Grant(t, settings.id, now);
      executing := Some(t);
      dispatches := dispatches + [t];
    }

    method TickAgent(now: real) returns (out: seq<Message>)
      requires Valid() && agent != null
      modifies Repr()
      ensures Valid() && NoNewParts()
      ensures Reaction(State(), Elements(out)) == Participation.TickAgent(settings, old(State()), now)
    {
      TickAgentKeepsWorkable(settings, State(), now);
      var roundId := announcement.value.roundId;
      var messages := agent.Tick();
      if messages != [] {
        out := [RoundGossip(roundId, messages[0])];
      } else {
        out := Settle(agent.assignment, now);
      }
    }

    method TickRound(now: real) returns (out: seq<Message>)
      requires Valid()
      modifies Repr()
      ensures Valid() && NoNewParts()
      ensures Reaction(State(), Elements(out)) == Participation.TickRound(settings, old(State()), now)
    {
      if agent != null {
        out := TickAgent(now);
      } else if relay != null && relayDirty {
        relayDirty := false;
        out := [RoundGossip(announcement.value.roundId, PriceTableMessage(settings.id, relay.entries))];
      } else {
        out := [];
      }
    }

    /** One report per completion known, in no particular order. */
    method ReportCompletions(now: real) returns (out: seq<Message>)
      ensures Elements(out) == set t | t in completed :: TaskCompleted(t, completed[t], now)
    {
      out := [];
      var todo := completed.Keys;
      while todo != {}
        invariant todo <= completed.Keys
        invariant Elements(out) == set t | t in completed && t !in todo :: TaskCompleted(t, completed[t], now)
      {
        var t :| t in todo;
        todo := todo - {t};
        ghost var before := out;
        out := out + [TaskCompleted(t, completed[t], now)];
        assert Elements(out) == Elements(before) + {TaskCompleted(t, completed[t], now)};
      }
    }

    /** Renew the lease on what this robot executes. */
    method RenewOwn(now: real) returns (out: seq<Message>)
      requires Assembled()
      modifies leaseBook
      ensures Assembled()
      ensures Elements(out) == if executing.Some? then {LeaseRenewal(executing.value, settings.id, now)} else {}
      ensures leaseBook.leases
              == if executing.Some?
                 then Renewed(old(leaseBook.leases), settings.leaseDuration, executing.value, settings.id, now)
                 else old(leaseBook.leases)
    {
      out := [];
      if executing != None {
        var ok := leaseBook.Renew(executing.value, settings.id, now);
        out := [LeaseRenewal(executing.value, settings.id, now)];
      }
    }

    /** The heartbeat itself, and the robot's own framing while it is the latest known. */
    method Beat(now: real) returns (out: seq<Message>)
      ensures Elements(out) == {Heartbeat(settings.id, now, executing.None? && agent == null)}
                               + if announcement.Some? && announcement.value.coordinator == settings.id
                                 then {Announce(announcement.value)} else {}
    {
      out := [Heartbeat(settings.id, now, executing == None && agent == null)];
      if announcement != None && announcement.value.coordinator == settings.id {
        out := out + [Announce(announcement.value)];
      }
    }

    method SendHeartbeat(now: real) returns (out: seq<Message>)
      requires Assembled()
      modifies this`lastHeartbeat, leaseBook
      ensures Assembled()
      ensures Reaction(State(), Elements(out)) == Participation.SendHeartbeat(settings, old(State()), now)
    {
      lastHeartbeat := Some(now);
      var beat := Beat(now);
      var renewal := RenewOwn(now);
      var done := ReportCompletions(now);
      ElementsJoin(beat, renewal);
      ElementsJoin(beat + renewal, done);
      out := beat + renewal + done;
    }

    method TickHeartbeat(now: real) returns (out: seq<Message>)
      requires Valid()
      modifies this`lastHeartbeat, leaseBook
      ensures Valid() && SameParts()
      ensures Reaction(State(), Elements(out)) == Participation.TickHeartbeat(settings, old(State()), now)
    {
      TickHeartbeatKeepsWorkable(settings, State(), now);
      if lastHeartbeat != None && now - lastHeartbeat.value < settings.heartbeatInterval {
        return [];
      }
      out := SendHeartbeat(now);
    }

    /** Frame a round if it is this robot's turn, and adopt it; tasks that are no DAG make it raise. */
    method TickCoordinator(now: real, benefit: TaskId -> real) returns (raised: bool, out: seq<Message>)
      requires Valid()
      modifies this
      ensures Valid() && OnlyNewParts()
      ensures raised <==> LookingRaises(settings, old(State()), now)
      ensures raised ==> State() == old(State()) && out == []
      ensures !raised ==>
                Reaction(State(), Elements(out)) == Participation.TickCoordinator(settings, old(State()), now, benefit)
    {
      out := [];
      var frames;
      raised, frames := LookAround(now, benefit);
      if frames {
        out := FrameRound(now, benefit);
      }
    }

    /** Whether it is this robot's turn, and looking at its tasks does not raise. */
    method LookAround(now: real, ghost benefit: TaskId -> real) returns (raised: bool, frames: bool)
      requires Valid()
      ensures raised <==> LookingRaises(settings, State(), now)
      ensures frames <==> !raised && Frames(settings, State(), now)
      ensures !raised && !frames ==>
                Participation.TickCoordinator(settings, State(), now, benefit)
                  == Reaction(State(), Elements<Message>([]))
    {
      raised := LookForTasks(settings, State(), now);
      frames := !raised && Frames(settings, State(), now);
    }

    /** Frame a round over the available tasks and the idle robots, and adopt it. */
    method FrameRound(now: real, benefit: TaskId -> real) returns (out: seq<Message>)
      requires Valid() && Frames(settings, State(), now) && !LookingRaises(settings, State(), now)
      modifies this
      ensures Valid() && OnlyNewParts()
      ensures Reaction(State(), Elements(out)) == Participation.TickCoordinator(settings, old(State()), now, benefit)
    {
      FramingTurn(settings, State(), now, benefit);
      var a := Framing(settings, State(), now);
      var refused := OnAnnouncement(a, now, benefit);
      out := [Announce(a)];
    }

    /** The parts of a tick before the coordinator's: no new objects. */
    method TickOwn(now: real) returns (out: seq<Message>)
      requires Valid()
      modifies Repr()
      ensures Valid() && NoNewParts()
      ensures Reaction(State(), Elements(out)) == Participation.TickOwn(settings, old(State()), now)
    {
      Refresh(now);
      var round := TickRound(now);
      var beat := TickHeartbeat(now);
      ElementsJoin(round, beat);
      out := round + beat;
    }

    /** All parts in their order; if the coordinator's raises, what the others would send is lost. */
    method Tick(now: real, benefit: TaskId -> real) returns (raised: bool, out: seq<Message>)
      requires Valid()
      modifies Repr()
      ensures Valid() && OnlyNewParts()
      ensures raised <==> TickRaises(settings, old(State()), now)
      ensures raised ==> State() == Participation.TickOwn(settings, old(State()), now).next && out == []
      ensures !raised ==> Reaction(State(), Elements(out)) == Participation.Tick(settings, old(State()), now, benefit)
    {
      var own := TickOwn(now);
      raised, out := TickCoordinator(now, benefit);
      if !raised {
        ElementsJoin(own, out);
        out := own + out;
      }
    }

    /** Host callback: execution of `t` finished; it must be what this robot executes. */
    method TaskFinished(t: TaskId, now: real) returns (raised: bool, out: seq<Message>)
      requires Valid() && executing == Some(t)
      modifies this`executing, this`completed, this`workload, this`position, leaseBook
      ensures Valid() && SameParts()
      ensures raised <==> t !in old(tasks)
      ensures Reaction(State(), Elements(out)) == Participation.TaskFinished(settings, old(State()), t, now)
    {
      MarkDone(t);
      if t !in tasks {
        return true, [];
      }
      TakeIntoAccount(tasks[t]);
      return false, [TaskCompleted(t, settings.id, now)];
    }

    /** The task is no longer executed, known as completed, and its lease is over. */
    method MarkDone(t: TaskId)
      requires Valid()
      modifies this`executing, this`completed, leaseBook
      ensures Valid() && SameParts()
      ensures State() == Done(settings, old(State()), t)
    {
      executing := None;
      completed := completed[t := settings.id];
      var ok := leaseBook.Release(t, settings.id);
    }

    /** The robot has worked on the task, where the task is. */
    method TakeIntoAccount(task: Task)
      requires Valid()
      modifies this`workload, this`position
      ensures Valid() && SameParts()
      ensures State() == WorkedOn(old(State()), task)
    {
      workload := workload + task.duration;
      if task.position != [] {
        position := task.position;
      }
    }
  }

  lemma ElementsJoin(a: seq<Message>, b: seq<Message>)
    ensures Elements(a + b) == Elements(a) + Elements(b)
  {
  }
}
