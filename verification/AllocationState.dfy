/**
 The state of an allocation: what runs, what is complete, and the schedule so
 far; starting and completing a task keep it sound.
 */
module AllocationState {
  import opened Types
  import opened Dag
  import opened CriticalPath

  datatype ScheduledTask = ScheduledTask(task: TaskId, robot: AgentId, start: real, finish: real)

  datatype Job = Job(task: TaskId, finish: real)

  /** The mutable state of an allocation. */
  datatype Progress = Progress(now: real, running: map<AgentId, Job>, completed: set<TaskId>,
                               schedule: seq<ScheduledTask>)

  // ------------------------------------------------------ the schedule so far

  /** The schedule as a map from tasks to their slots. */
  function PlanOf(schedule: seq<ScheduledTask>): Schedule {
    if schedule == [] then map[]
    else
      var e := schedule[|schedule| - 1];
      PlanOf(schedule[..|schedule| - 1])[e.task := Slot(e.robot, e.start, e.finish)]
  }

  function Active(running: map<AgentId, Job>): set<TaskId> {
    set r | r in running :: running[r].task
  }

  /** A running job is planned on its robot, has started and ends no earlier than now. */
  ghost predicate RunningOk(plan: Schedule, now: real, r: AgentId, job: Job) {
    && job.task in plan
    && plan[job.task].robot == r && plan[job.task].finish == job.finish
    && plan[job.task].start <= now <= job.finish
  }

  /** A planned task starts after its prerequisites, all of them complete. */
  ghost predicate PlannedOk(tasks: Tasks, robots: set<AgentId>, plan: Schedule, completed: set<TaskId>, t: TaskId)
    requires t in tasks && t in plan
  {
    && FitsSlot(tasks[t], robots, plan[t])
    && tasks[t].prerequisites <= completed
    && forall p | p in tasks[t].prerequisites && p in plan :: plan[p].finish <= plan[t].start
  }

  ghost predicate PlanOk(tasks: Tasks, robots: set<AgentId>, plan: Schedule, completed: set<TaskId>)
    requires plan.Keys <= tasks.Keys
  {
    NoOverlap(plan) && forall t | t in plan :: PlannedOk(tasks, robots, plan, completed, t)
  }

  /** What every step of the allocation keeps. */
  ghost predicate Sound(tasks: Tasks, robots: set<AgentId>, p: Progress) {
    var plan := PlanOf(p.schedule);
    && p.now >= 0.0
    && p.running.Keys <= robots
    && plan.Keys == p.completed + Active(p.running)
    && plan.Keys <= tasks.Keys
    && Active(p.running) !! p.completed
    && (forall r | r in p.running :: RunningOk(plan, p.now, r, p.running[r]))
    && (forall t | t in p.completed :: plan[t].finish <= p.now)
    && PlanOk(tasks, robots, plan, p.completed)
    && OnceInOrder(p.schedule, p.now) && OnEvent(p.schedule, p.now)
  }

  /** Nothing has happened yet, or something planned ends now. */
  ghost predicate OnEvent(schedule: seq<ScheduledTask>, now: real) {
    now == 0.0 || exists e :: e in schedule && e.finish == now
  }

  lemma StillOnEvent(schedule: seq<ScheduledTask>, now: real, e: ScheduledTask)
    requires OnEvent(schedule, now)
    ensures OnEvent(schedule + [e], now)
  {
    if now != 0.0 {
      var d :| d in schedule && d.finish == now;
      assert d in schedule + [e];
    }
  }

  lemma PlanIsListed(schedule: seq<ScheduledTask>, t: TaskId)
    requires t in PlanOf(schedule)
    ensures exists e :: e in schedule && e.task == t && e.finish == PlanOf(schedule)[t].finish
  {
    var e := schedule[|schedule| - 1];
    if e.task != t {
      PlanIsListed(schedule[..|schedule| - 1], t);
    }
  }

  /** Each task is scheduled once, and starts never go back in time. */
  ghost predicate InOrder(schedule: seq<ScheduledTask>) {
    forall i, j | 0 <= i < j < |schedule| ::
      schedule[i].task != schedule[j].task && schedule[i].start <= schedule[j].start
  }

  ghost predicate OnceInOrder(schedule: seq<ScheduledTask>, now: real) {
    InOrder(schedule) && forall i | 0 <= i < |schedule| :: schedule[i].start <= now
  }

  lemma {:induction false} PlanKeys(schedule: seq<ScheduledTask>, t: TaskId)
    ensures t in PlanOf(schedule) <==> exists i :: 0 <= i < |schedule| && schedule[i].task == t
  {
    if schedule != [] {
      var init := schedule[..|schedule| - 1];
      PlanKeys(init, t);
      if i :| 0 <= i < |init| && init[i].task == t {
        assert schedule[i].task == t;
      }
    }
  }

  // ------------------------------------------------------ one dispatch

  /** An idle robot starts an available task now. */
  function Dispatch(p: Progress, r: AgentId, t: TaskId, finish: real): Progress {
    p.(running := p.running[r := Job(t, finish)],
       schedule := p.schedule + [ScheduledTask(t, r, p.now, finish)])
  }

  lemma DispatchedPlan(p: Progress, r: AgentId, t: TaskId, finish: real)
    ensures PlanOf(Dispatch(p, r, t, finish).schedule) == PlanOf(p.schedule)[t := Slot(r, p.now, finish)]
  {
    var e := ScheduledTask(t, r, p.now, finish);
    assert (p.schedule + [e])[..|p.schedule|] == p.schedule;
  }

  /** Everything an idle robot ever did ended by now. */
  lemma IdleRobotIsFree(tasks: Tasks, robots: set<AgentId>, p: Progress, r: AgentId, u: TaskId)
    requires Sound(tasks, robots, p) && r !in p.running && u in PlanOf(p.schedule) && PlanOf(p.schedule)[u].robot == r
    ensures PlanOf(p.schedule)[u].finish <= p.now
  {
  }

  lemma DispatchKeepsPlan(tasks: Tasks, robots: set<AgentId>, p: Progress, r: AgentId, t: TaskId, finish: real)
    requires Sound(tasks, robots, p) && r in robots && r !in p.running
    requires t in Available(tasks, p.completed) && t !in Active(p.running)
    requires finish >= p.now + tasks[t].duration
    ensures PlanOk(tasks, robots, PlanOf(p.schedule)[t := Slot(r, p.now, finish)], p.completed)
  {
    var plan := PlanOf(p.schedule);
    var plan' := plan[t := Slot(r, p.now, finish)];
    forall u | u in plan && plan[u].robot == r ensures plan[u].finish <= p.now {
      IdleRobotIsFree(tasks, robots, p, r, u);
    }
    forall u | u in plan' ensures PlannedOk(tasks, robots, plan', p.completed, u) {
      assert u != t ==> PlannedOk(tasks, robots, plan, p.completed, u);
    }
  }

  lemma DispatchKeepsOrder(tasks: Tasks, p: Progress, t: TaskId, e: ScheduledTask)
    requires OnceInOrder(p.schedule, p.now) && t !in PlanOf(p.schedule) && e.task == t && e.start == p.now
    ensures OnceInOrder(p.schedule + [e], p.now)
  {
    PlanKeys(p.schedule, t);
  }

  lemma ActiveMore(running: map<AgentId, Job>, r: AgentId, job: Job)
    requires r !in running
    ensures Active(running[r := job]) == Active(running) + {job.task}
  {
    var more := running[r := job];
    assert more[r].task == job.task;
    forall x | x in Active(running) ensures x in Active(more) {
      var a :| a in running && running[a].task == x;
      assert more[a].task == x;
    }
  }

  lemma DispatchKeepsSound(tasks: Tasks, robots: set<AgentId>, p: Progress, r: AgentId, t: TaskId, finish: real)
    requires Sound(tasks, robots, p) && r in robots && r !in p.running
    requires t in Available(tasks, p.completed) && t !in Active(p.running)
    requires tasks[t].duration >= 0.0 && finish >= p.now + tasks[t].duration
    ensures Sound(tasks, robots, Dispatch(p, r, t, finish))
    ensures Active(Dispatch(p, r, t, finish).running) == Active(p.running) + {t}
  {
    var p' := Dispatch(p, r, t, finish);
    var plan' := PlanOf(p'.schedule);
    DispatchedPlan(p, r, t, finish);
    DispatchKeepsPlan(tasks, robots, p, r, t, finish);
    DispatchKeepsOrder(tasks, p, t, ScheduledTask(t, r, p.now, finish));
    StillOnEvent(p.schedule, p.now, ScheduledTask(t, r, p.now, finish));
    ActiveMore(p.running, r, Job(t, finish));
    forall a | a in p'.running ensures RunningOk(plan', p'.now, a, p'.running[a]) {
      if a != r {
        assert RunningOk(PlanOf(p.schedule), p.now, a, p.running[a]);
      }
    }
  }

  // ------------------------------------------------------ one completion

  /** The job that ends first is done, and time moves there. */
  function Complete(p: Progress, r: AgentId): Progress
    requires r in p.running
  {
    p.(now := p.running[r].finish, running := p.running - {r}, completed := p.completed + {p.running[r].task})
  }

  lemma CompleteMovesTask(tasks: Tasks, robots: set<AgentId>, p: Progress, r: AgentId)
    requires Sound(tasks, robots, p) && r in p.running
    ensures Active(p.running - {r}) == Active(p.running) - {p.running[r].task}
  {
    var t := p.running[r].task;
    assert RunningOk(PlanOf(p.schedule), p.now, r, p.running[r]);
    forall a | a in p.running - {r} ensures p.running[a].task != t {
      assert RunningOk(PlanOf(p.schedule), p.now, a, p.running[a]);
    }
    forall x | x in Active(p.running) - {t} ensures x in Active(p.running - {r}) {
      var a :| a in p.running && p.running[a].task == x;
      assert a in p.running - {r};
    }
  }

  lemma CompleteKeepsSound(tasks: Tasks, robots: set<AgentId>, p: Progress, r: AgentId)
    requires Sound(tasks, robots, p) && r in p.running
    requires forall a | a in p.running :: p.running[r].finish <= p.running[a].finish
    ensures Sound(tasks, robots, Complete(p, r)) && Complete(p, r).now >= p.now
  {
    var plan, p' := PlanOf(p.schedule), Complete(p, r);
    CompleteMovesTask(tasks, robots, p, r);
    assert RunningOk(plan, p.now, r, p.running[r]);
    PlanIsListed(p.schedule, p.running[r].task);
    forall a | a in p'.running ensures RunningOk(plan, p'.now, a, p'.running[a]) {
      assert RunningOk(plan, p.now, a, p.running[a]);
    }
    forall t | t in plan ensures PlannedOk(tasks, robots, plan, p'.completed, t) {
      assert PlannedOk(tasks, robots, plan, p.completed, t);
    }
  }

  // ------------------------------------------------------ the end

  /** When nothing runs and everything is complete, the plan is a feasible schedule. */
  lemma SoundEndIsFeasible(tasks: Tasks, robots: set<AgentId>, p: Progress)
    requires Sound(tasks, robots, p) && tasks.Keys <= p.completed
    ensures Feasible(tasks, robots, PlanOf(p.schedule)) && EndsBy(PlanOf(p.schedule), p.now)
  {
    var plan := PlanOf(p.schedule);
    assert plan.Keys == tasks.Keys;
    forall t | t in tasks ensures FitsSlot(tasks[t], robots, plan[t]) {
      assert PlannedOk(tasks, robots, plan, p.completed, t);
    }
    forall t, q | t in tasks && q in tasks[t].prerequisites && q in plan ensures plan[q].finish <= plan[t].start {
      assert PlannedOk(tasks, robots, plan, p.completed, t);
    }
  }
}
