/** The registry's request handlers and background jobs, updating its rows in place. */
module RegistryServer {
  import opened Wrappers
  import opened RegistryModel
  import opened LeaseProofs

  datatype Response = Ok | NotFound | Conflict | Invalid

  /** A subtask as a completion report asks for it, with the id the database gives it. */
  datatype Subtask = Subtask(id: TaskId, priority: nat, roleTarget: Option<RoleId>)

  ghost predicate NewAndDistinct(subtasks: seq<Subtask>, tasks: map<TaskId, Task>) {
    && (forall i :: 0 <= i < |subtasks| ==> subtasks[i].id !in tasks)
    && (forall i, j :: 0 <= i < j < |subtasks| ==> subtasks[i].id != subtasks[j].id)
  }

  /** The subtasks as events, in the order they are created. */
  ghost function Creations(subtasks: seq<Subtask>): (events: seq<Event>)
    ensures |events| == |subtasks|
    ensures forall i :: 0 <= i < |subtasks| ==>
      events[i] == CreateTask(subtasks[i].id, subtasks[i].priority, subtasks[i].roleTarget, None)
  {
    seq(|subtasks|, i requires 0 <= i < |subtasks| =>
      CreateTask(subtasks[i].id, subtasks[i].priority, subtasks[i].roleTarget, None))
  }

  // The queries with which the background jobs find their rows.

  function HeldTasks(s: Registry, a: AgentId): set<TaskId> {
    set t | t in s.tasks && s.tasks[t].lockedBy == Some(a)
  }

  function StaleTasks(s: Registry, timeoutMs: nat): set<TaskId> {
    set t | t in s.tasks && Stale(s.tasks[t], s.now, timeoutMs)
  }

  function StuckTasks(s: Registry, thresholdMs: nat): set<TaskId> {
    set t | t in s.tasks && Stuck(s, thresholdMs, t)
  }

  /** The agents whose status has turned into the given one. */
  ghost function Turned(before: map<AgentId, Agent>, after: map<AgentId, Agent>, status: AgentStatus): set<AgentId> {
    set a | a in before && a in after && after[a].status == status && before[a].status != status
  }

  class Server {
    var tasks: map<TaskId, Task>
    var agents: map<AgentId, Agent>
    var clock: int

    function State(): Registry
      reads this
    {
      Registry(tasks, agents, clock)
    }

    /** The invariant of the lease proofs, so that what they say of a registry holds of this one. */
    ghost predicate Valid()
      reads this
    {
      Inv(State())
    }

    constructor (now: int)
      ensures Valid() && State() == Empty(now)
    {
      tasks, agents, clock := map[], map[], now;
    }

    // -------------------------------------------------------------------------
    // Request handlers
    // -------------------------------------------------------------------------

    /** Hands out the first eligible task of the queue, if there is one. */
    method ClaimNext(role: RoleId, roleKnown: bool, a: AgentId)
      returns (claimed: Option<TaskId>, response: Response)
      requires Valid()
      modifies this
      ensures Valid()
      ensures response == if roleKnown && a in old(agents) then Ok else Invalid
      ensures claimed.None? <==> response.Invalid? || !exists t :: Eligible(old(State()), role, t)
      ensures claimed.None? ==> State() == old(State())
      ensures claimed.Some? ==>
        && Eligible(old(State()), role, claimed.value)
        && (forall t :: Eligible(old(State()), role, t) ==> NotAfter(old(tasks)[claimed.value], old(tasks)[t]))
        && State() == Apply(old(State()), Claim(claimed.value, a))
    {
      if !roleKnown || a !in agents {
        return None, Invalid;
      }
      ghost var s := State();
      var eligible := set t | t in tasks && Eligible(State(), role, t);
      if eligible == {} {
        assert forall t :: Eligible(s, role, t) ==> t in eligible;
        return None, Ok;
      }
      FirstExists(tasks, eligible);
      var t :| t in eligible && forall u :: u in eligible ==> NotAfter(tasks[t], tasks[u]);
      assert forall u :: Eligible(s, role, u) ==> u in eligible;
      var now := clock;
      tasks := tasks[t := tasks[t].(status := Locked, lockedBy := Some(a), lockedAt := Some(now),
                                    startedAt := Some(now), agentId := Some(a))];
      StepKeepsInv(s, Claim(t, a));
      return Some(t), Ok;
    }

    /** Creates a task in the queue, as a request or as the subtask of a completed one. */
    method CreateTask(t: TaskId, priority: nat, roleTarget: Option<RoleId>, forAgent: Option<AgentId>)
      requires Valid() && t !in tasks
      modifies this
      ensures Valid()
      ensures State() == Apply(old(State()), Event.CreateTask(t, priority, roleTarget, forAgent))
    {
      ghost var s := State();
      tasks := tasks[t := Task(Queued, priority, roleTarget, clock, None, None, None, None, forAgent, None, None)];
      StepKeepsInv(s, Event.CreateTask(t, priority, roleTarget, forAgent));
    }

    /** Records the outcome of a locked task, frees its holder and creates the subtasks that come with it. */
    method CompleteTask(t: TaskId, succeeded: bool, error: Option<string>, subtasks: seq<Subtask>)
      returns (response: Response)
      requires Valid() && NewAndDistinct(subtasks, tasks)
      modifies this
      ensures Valid()
      ensures response == if t !in old(tasks) then NotFound else if old(tasks)[t].status.Locked? then Ok else Conflict
      ensures State() ==
        if response.Ok? then Run(Apply(old(State()), Complete(t, succeeded, error)), Creations(subtasks))
        else old(State())
    {
      if t !in tasks {
        return NotFound;
      }
      if !tasks[t].status.Locked? {
        return Conflict;
      }
      RecordCompletion(t, succeeded, error);
      CreateSubtasks(subtasks);
      return Ok;
    }

    method RecordCompletion(t: TaskId, succeeded: bool, error: Option<string>)
      requires Valid() && t in tasks && tasks[t].status.Locked?
      modifies this
      ensures Valid() && tasks.Keys == old(tasks).Keys
      ensures State() == Apply(old(State()), Complete(t, succeeded, error))
    {
      ghost var s := State();
      var task := tasks[t];
      tasks := tasks[t := task.(status := if succeeded then Completed else Failed,
                                error := if error.GetOr("") != "" then error else None,
                                completedAt := Some(clock), lockedBy := None, lockedAt := None)];
      if task.lockedBy.Some? && task.lockedBy.value in agents {
        agents := agents[task.lockedBy.value := agents[task.lockedBy.value].(status := Idle, currentTaskId := None)];
      }
      StepKeepsInv(s, Complete(t, succeeded, error));
    }

    method CreateSubtasks(subtasks: seq<Subtask>)
      requires Valid() && NewAndDistinct(subtasks, tasks)
      modifies this
      ensures Valid()
      ensures State() == Run(old(State()), Creations(subtasks))
    {
      ghost var events := Creations(subtasks);
      assert events[0..] == events;
      var i := 0;
      while i < |subtasks|
        invariant 0 <= i <= |subtasks|
        invariant Valid()
        invariant forall j :: i <= j < |subtasks| ==> subtasks[j].id !in tasks
        invariant Run(State(), events[i..]) == Run(old(State()), events)
      {
        assert events[i..][1..] == events[i + 1..];
        CreateTask(subtasks[i].id, subtasks[i].priority, subtasks[i].roleTarget, None);
        i := i + 1;
      }
      assert events[i..] == [];
    }

    method CancelTask(t: TaskId) returns (response: Response)
      requires Valid()
      modifies this
      ensures Valid()
      ensures State() == Apply(old(State()), Cancel(t))
      ensures response == if t !in old(tasks) then NotFound else if old(tasks)[t].Terminal() then Conflict else Ok
    {
      if t !in tasks {
        return NotFound;
      }
      StepKeepsInv(State(), Cancel(t));
      var task := tasks[t];
      if task.status.Completed? || task.status.Failed? || task.status.Cancelled? {
        assert tasks == tasks[t := task];
        return Conflict;
      }
      if task.status.Cancelling? {
        assert tasks == tasks[t := task];
        return Ok;
      }
      if task.status.Locked? {
        tasks := tasks[t := task.(status := Cancelling)];
        return Ok;
      }
      tasks := tasks[t := task.(status := Cancelled, completedAt := Some(clock), lockedBy := None, lockedAt := None)];
      return Ok;
    }

    method RetryTask(t: TaskId) returns (response: Response)
      requires Valid()
      modifies this
      ensures Valid()
      ensures State() == Apply(old(State()), Retry(t))
      ensures response == if t in old(tasks) then Ok else NotFound
    {
      if t !in tasks {
        return NotFound;
      }
      StepKeepsInv(State(), Retry(t));
      tasks := tasks[t := tasks[t].(status := Queued, error := None, startedAt := None, completedAt := None,
                                    lockedBy := None, lockedAt := None, agentId := None)];
      return Ok;
    }

    /** Puts every task an agent holds back in the queue, one row at a time. */
    method RequeueTasks(a: AgentId) returns (requeued: nat)
      requires Valid()
      modifies this
      ensures Valid()
      ensures State() == Apply(old(State()), Requeue(a))
      ensures requeued == |HeldTasks(old(State()), a)|
    {
      var todo := HeldTasks(State(), a);
      ghost var s, held, done := State(), todo, {};
      UpdatedNothing(tasks, ReleasedAfresh);
      requeued := 0;
      while todo != {}
        invariant todo <= held && done <= held && done !! todo
        invariant forall t :: t in held && t !in todo ==> t in done
        invariant requeued + |todo| == |held|
        invariant agents == s.agents && clock == s.now
        invariant tasks == Updated(s.tasks, done, ReleasedAfresh)
      {
        var t :| t in todo;
        UpdatedOneMore(s.tasks, done, t, ReleasedAfresh);
        tasks := tasks[t := tasks[t].(status := Queued, lockedBy := None, lockedAt := None, startedAt := None,
                                      agentId := None, error := None)];
        todo, done := todo - {t}, done + {t};
        requeued := requeued + 1;
      }
      assert done == held;
      RequeueDone(s, a, held);
      StepKeepsInv(s, Requeue(a));
    }

    /** Registers an agent, or brings an existing one back to life. */
    method RegisterAgent(a: AgentId, roleKnown: bool, teamKnown: bool) returns (response: Response, created: bool)
      requires Valid()
      modifies this
      ensures Valid()
      ensures response == if roleKnown && teamKnown then Ok else Invalid
      ensures created <==> response.Ok? && a !in old(agents)
      ensures State() == if response.Ok? then Apply(old(State()), Register(a)) else old(State())
    {
      if !roleKnown || !teamKnown {
        return Invalid, false;
      }
      StepKeepsInv(State(), Register(a));
      created := a !in agents;
      if created {
        agents := agents[a := Agent(Idle, Some(clock), None)];
      } else {
        agents := agents[a := agents[a].(status := Idle, lastHeartbeat := Some(clock))];
      }
      response := Ok;
    }

    /** Takes telemetry in: the sender has been heard of, but its status stays what it was. */
    method ReceiveTelemetry(a: AgentId) returns (response: Response)
      requires Valid()
      modifies this
      ensures Valid()
      ensures State() == Apply(old(State()), Telemetry(a))
      ensures response == if a in old(agents) then Ok else NotFound
    {
      if a !in agents {
        return NotFound;
      }
      StepKeepsInv(State(), Telemetry(a));
      agents := agents[a := agents[a].(lastHeartbeat := Some(clock))];
      return Ok;
    }

    /** Takes a service's write of an agent's status, and of its current task if one is given. */
    method UpdateAgent(a: AgentId, status: AgentStatus, newTask: Option<Option<TaskId>>) returns (response: Response)
      requires Valid()
      modifies this
      ensures Valid()
      ensures State() == Apply(old(State()), WriteStatus(a, status, newTask))
      ensures response == if a in old(agents) then Ok else NotFound
    {
      if a !in agents {
        return NotFound;
      }
      StepKeepsInv(State(), WriteStatus(a, status, newTask));
      agents := agents[a := agents[a].(status := status)];
      if newTask.Some? {
        agents := agents[a := agents[a].(currentTaskId := newTask.value)];
      }
      return Ok;
    }

    /** Takes a heartbeat and answers with the task the sender should stop, if it is being cancelled. */
    method ReceiveHeartbeat(a: AgentId, status: AgentStatus, current: Option<TaskId>)
      returns (response: Response, cancelTask: Option<TaskId>)
      requires Valid()
      modifies this
      ensures Valid()
      ensures State() == Apply(old(State()), Heartbeat(a, status, current))
      ensures response == if !Reportable(status) then Invalid else if a in old(agents) then Ok else NotFound
      ensures cancelTask == if response.Ok? then CancelSignal(old(State()), current) else None
    {
      if !(status.Idle? || status.Working? || status.Error?) {
        return Invalid, None;
      }
      if a !in agents {
        return NotFound, None;
      }
      StepKeepsInv(State(), Heartbeat(a, status, current));
      agents := agents[a := Agent(status, Some(clock), current)];
      cancelTask := None;
      if current.Some? {
        if current.value in tasks && tasks[current.value].status.Cancelling? {
          cancelTask := current;
        }
      }
      return Ok, cancelTask;
    }

    // -------------------------------------------------------------------------
    // Background jobs
    // -------------------------------------------------------------------------

    /** Two bulk updates: first the long silent agents, then the others. No agent is counted twice. */
    method DetectOfflineAgents() returns (markedOffline: nat, markedUnreachable: nat)
      requires Valid()
      modifies this
      ensures Valid()
      ensures State() == Apply(old(State()), DetectOffline)
      ensures markedUnreachable == |Turned(old(agents), agents, Unreachable)|
      ensures markedOffline == |Turned(old(agents), agents, Offline)|
    {
      ghost var s := State();
      var unreachable := set a | a in agents && BecomesUnreachable(agents[a], clock);
      agents := map a | a in agents :: if a in unreachable then agents[a].(status := Unreachable) else agents[a];
      ghost var between := agents;
      var offline := set a | a in agents && BecomesOffline(agents[a], clock);
      agents := map a | a in agents :: if a in offline then agents[a].(status := Offline) else agents[a];
      DetectionDone(s, unreachable, between, offline, agents);
      StepKeepsInv(s, DetectOffline);
      return |offline|, |unreachable|;
    }

    /** Marks the agents whose machine is gone as offline, however recently they were heard of. */
    method FixPhantomAgents(ids: set<AgentId>) returns (fixed: nat)
      requires Valid()
      modifies this
      ensures Valid()
      ensures State() == Apply(old(State()), MarkPhantoms(ids))
      ensures fixed == |set a | a in old(agents) && a in ids|
    {
      StepKeepsInv(State(), MarkPhantoms(ids));
      var found := set a | a in agents && a in ids;
      agents := map a | a in agents :: if a in found then agents[a].(status := Offline) else agents[a];
      assert agents == PhantomsMarked(old(State()), ids).agents;
      return |found|;
    }

    /** Looks at each stale task in turn and releases those whose holder is dead. */
    method CheckLockTimeouts(timeoutMs: nat) returns (released: nat, kept: nat)
      requires Valid()
      modifies this
      ensures Valid()
      ensures State() == Apply(old(State()), LockSweep(timeoutMs))
      ensures released == |set t | t in old(tasks) && SweptUp(old(State()), timeoutMs, t)|
      ensures released + kept == |StaleTasks(old(State()), timeoutMs)|
    {
      ghost var s := State();
      var todo := StaleTasks(State(), timeoutMs);
      ghost var stale, swept := todo, {};
      UpdatedNothing(tasks, Released);
      released, kept := 0, 0;
      while todo != {}
        invariant agents == s.agents && clock == s.now
        invariant LockSweptSoFar(s, stale, todo, swept, released, kept, tasks)
      {
        todo, swept, released, kept := CheckNext(s, stale, todo, swept, released, kept);
      }
      LockSweepDone(s, timeoutMs, stale, swept, released, kept, tasks);
      StepKeepsInv(s, LockSweep(timeoutMs));
    }

    /** One turn of the sweep: releases the task if its holder is dead. */
    method CheckNext(ghost s: Registry, ghost stale: set<TaskId>, todo: set<TaskId>, ghost swept: set<TaskId>,
                     released: nat, kept: nat)
      returns (rest: set<TaskId>, ghost sweptNow: set<TaskId>, releasedNow: nat, keptNow: nat)
      requires todo != {} && agents == s.agents && LockSweptSoFar(s, stale, todo, swept, released, kept, tasks)
      modifies this`tasks
      ensures rest < todo
      ensures LockSweptSoFar(s, stale, rest, sweptNow, releasedNow, keptNow, tasks)
    {
      var t :| t in todo;
      UpdatedOneMore(s.tasks, swept, t, Released);
      var holder := tasks[t].lockedBy;
      rest := todo - {t};
      if holder.None? || holder.value !in agents || DeadStatus(agents[holder.value].status) {
        ReleaseTask(t);
        return rest, swept + {t}, released + 1, kept;
      }
      return rest, swept, released, kept + 1;
    }

    method ReleaseTask(t: TaskId)
      requires t in tasks
      modifies this`tasks
      ensures State() == PutTask(old(State()), t, Released(old(tasks)[t]))
    {
      tasks := tasks[t := tasks[t].(status := Queued, lockedBy := None, lockedAt := None, startedAt := None,
                                    agentId := None)];
    }

    /** Fails every stuck task and frees its holder; the stuck rows are those found at the start. */
    method CheckTaskTimeouts(thresholdMs: nat) returns (timedOut: nat, checked: nat)
      requires Valid()
      modifies this
      ensures Valid()
      ensures State() == Apply(old(State()), TimeoutSweep(thresholdMs))
      ensures timedOut == checked == |StuckTasks(old(State()), thresholdMs)|
    {
      ghost var s := State();
      var stuck := StuckTasks(State(), thresholdMs);
      timedOut := TimeOutAll(stuck);
      TimeoutSweepDone(s, thresholdMs, stuck, tasks, agents);
      StepKeepsInv(s, TimeoutSweep(thresholdMs));
      return timedOut, |stuck|;
    }

    /** Fails the given tasks one after the other. */
    method TimeOutAll(stuck: set<TaskId>) returns (timedOut: nat)
      requires stuck <= tasks.Keys
      modifies this`tasks, this`agents
      ensures TimedOutSoFar(old(State()), stuck, {}, |stuck|, tasks, agents)
      ensures timedOut == |stuck|
    {
      ghost var s := State();
      var todo := stuck;
      timedOut := 0;
      NothingTimedOut(s, stuck);
      while todo != {}
        invariant TimedOutSoFar(s, stuck, todo, timedOut, tasks, agents)
      {
        todo, timedOut := TimeOutNext(s, stuck, todo, timedOut);
      }
      CountWhenOver(s, stuck, timedOut, tasks, agents);
    }

    /** One turn of the sweep. */
    method TimeOutNext(ghost s: Registry, ghost stuck: set<TaskId>, todo: set<TaskId>, timedOut: nat)
      returns (rest: set<TaskId>, count: nat)
      requires todo != {} && clock == s.now && TimedOutSoFar(s, stuck, todo, timedOut, tasks, agents)
      modifies this`tasks, this`agents
      ensures rest < todo
      ensures TimedOutSoFar(s, stuck, rest, count, tasks, agents)
    {
      var t :| t in todo;
      OneMoreTimedOut(s, stuck, todo, t, timedOut, tasks, agents);
      TimeOutTask(t);
      return todo - {t}, timedOut + 1;
    }

    /** Fails one task and frees its holder, if there is such an agent. */
    method TimeOutTask(t: TaskId)
      requires t in tasks
      modifies this`tasks, this`agents
      ensures tasks == old(tasks)[t := TimedOut(old(tasks)[t], clock)]
      ensures var holder := old(tasks)[t].lockedBy;
        agents == if holder.Some? && holder.value in old(agents)
                  then old(agents)[holder.value := Freed(old(agents)[holder.value])] else old(agents)
    {
      var holder := tasks[t].lockedBy;
      tasks := tasks[t := tasks[t].(status := Failed, error := Some("timeout"), timeoutAt := Some(clock),
                                    completedAt := Some(clock), lockedBy := None, lockedAt := None)];
      if holder.Some? && holder.value in agents {
        agents := agents[holder.value := agents[holder.value].(status := Idle, currentTaskId := None)];
      }
    }
  }

  lemma DetectionDone(s: Registry, unreachable: set<AgentId>, between: map<AgentId, Agent>, offline: set<AgentId>,
                      after: map<AgentId, Agent>)
    requires unreachable == set a | a in s.agents && BecomesUnreachable(s.agents[a], s.now)
    requires between ==
      map a | a in s.agents :: if a in unreachable then s.agents[a].(status := Unreachable) else s.agents[a]
    requires offline == set a | a in between && BecomesOffline(between[a], s.now)
    requires after == map a | a in between :: if a in offline then between[a].(status := Offline) else between[a]
    ensures s.(agents := after) == Detected(s)
    ensures unreachable == Turned(s.agents, after, Unreachable)
    ensures offline == Turned(s.agents, after, Offline)
  {
    assert after == Detected(s).agents;
  }

  /** The tasks with an update applied to some of them. */
  ghost function Updated(tasks: map<TaskId, Task>, done: set<TaskId>, update: Task -> Task): map<TaskId, Task> {
    map t | t in tasks :: if t in done then update(tasks[t]) else tasks[t]
  }

  lemma UpdatedNothing(tasks: map<TaskId, Task>, update: Task -> Task)
    ensures Updated(tasks, {}, update) == tasks
  {
  }

  lemma UpdatedOneMore(tasks: map<TaskId, Task>, done: set<TaskId>, t: TaskId, update: Task -> Task)
    requires t in tasks && t !in done
    ensures Updated(tasks, done, update)[t] == tasks[t]
    ensures Updated(tasks, done + {t}, update) == Updated(tasks, done, update)[t := update(tasks[t])]
  {
  }

  ghost predicate HoldsOne(s: Registry, done: set<TaskId>, a: AgentId)
    requires done <= s.tasks.Keys
  {
    exists t :: t in done && s.tasks[t].lockedBy == Some(a)
  }

  /** The agents are those of `s`, with the holders of the done tasks freed. */
  ghost predicate FreesHolders(s: Registry, done: set<TaskId>, agents: map<AgentId, Agent>)
    requires done <= s.tasks.Keys
  {
    && agents.Keys == s.agents.Keys
    && forall a :: a in s.agents ==> agents[a] == if HoldsOne(s, done, a) then Freed(s.agents[a]) else s.agents[a]
  }

  lemma FreedByOneMore(s: Registry, done: set<TaskId>, t: TaskId, agents: map<AgentId, Agent>)
    requires done <= s.tasks.Keys && t in s.tasks && FreesHolders(s, done, agents)
    ensures var holder := s.tasks[t].lockedBy;
      FreesHolders(s, done + {t},
        if holder.Some? && holder.value in agents then agents[holder.value := Freed(agents[holder.value])] else agents)
  {
    forall a | a in s.agents
      ensures HoldsOne(s, done + {t}, a) <==> HoldsOne(s, done, a) || s.tasks[t].lockedBy == Some(a)
    {
      if HoldsOne(s, done, a) {
        var u :| u in done && s.tasks[u].lockedBy == Some(a);
        assert u in done + {t};
      }
      assert t in done + {t};
    }
  }

  lemma RequeueDone(s: Registry, a: AgentId, held: set<TaskId>)
    requires held == HeldTasks(s, a)
    ensures Requeued(s, a) == s.(tasks := Updated(s.tasks, held, ReleasedAfresh))
  {
  }

  /** The rows of a lock sweep that has yet to look at some of the stale tasks, and what it has counted. */
  ghost predicate LockSweptSoFar(s: Registry, stale: set<TaskId>, todo: set<TaskId>, swept: set<TaskId>,
                                 released: nat, kept: nat, tasks: map<TaskId, Task>)
  {
    && todo <= stale <= s.tasks.Keys && swept <= stale && swept !! todo
    && (forall t :: t in stale && t !in todo ==> (t in swept <==> HolderDead(s.agents, s.tasks[t].lockedBy)))
    && released == |swept| && released + kept + |todo| == |stale|
    && tasks == Updated(s.tasks, swept, Released)
  }

  lemma LockSweepDone(s: Registry, timeoutMs: nat, stale: set<TaskId>, swept: set<TaskId>, released: nat, kept: nat,
                      tasks: map<TaskId, Task>)
    requires stale == StaleTasks(s, timeoutMs)
    requires LockSweptSoFar(s, stale, {}, swept, released, kept, tasks)
    ensures LockSwept(s, timeoutMs) == s.(tasks := tasks)
    ensures swept == set t | t in s.tasks && SweptUp(s, timeoutMs, t)
    ensures released == |swept| && released + kept == |stale|
  {
    assert swept == set t | t in s.tasks && SweptUp(s, timeoutMs, t);
  }

  ghost function FailingAt(now: int): Task -> Task {
    task => TimedOut(task, now)
  }

  /** The rows of a timeout sweep that has yet to deal with some of the stuck tasks, and how many it has dealt with. */
  ghost predicate TimedOutSoFar(s: Registry, stuck: set<TaskId>, todo: set<TaskId>, count: nat,
                                tasks: map<TaskId, Task>, agents: map<AgentId, Agent>)
  {
    && todo <= stuck <= s.tasks.Keys
    && count + |todo| == |stuck|
    && tasks == Updated(s.tasks, stuck - todo, FailingAt(s.now))
    && FreesHolders(s, stuck - todo, agents)
  }

  lemma NothingTimedOut(s: Registry, stuck: set<TaskId>)
    requires stuck <= s.tasks.Keys
    ensures TimedOutSoFar(s, stuck, stuck, 0, s.tasks, s.agents)
  {
    assert stuck - stuck == {};
    UpdatedNothing(s.tasks, FailingAt(s.now));
  }

  lemma OneMoreTimedOut(s: Registry, stuck: set<TaskId>, todo: set<TaskId>, t: TaskId, count: nat,
                        tasks: map<TaskId, Task>, agents: map<AgentId, Agent>)
    requires t in todo && TimedOutSoFar(s, stuck, todo, count, tasks, agents)
    ensures t in tasks
    ensures var holder := tasks[t].lockedBy;
      TimedOutSoFar(s, stuck, todo - {t}, count + 1, tasks[t := TimedOut(tasks[t], s.now)],
        if holder.Some? && holder.value in agents then agents[holder.value := Freed(agents[holder.value])] else agents)
  {
    assert stuck - (todo - {t}) == stuck - todo + {t};
    UpdatedOneMore(s.tasks, stuck - todo, t, FailingAt(s.now));
    FreedByOneMore(s, stuck - todo, t, agents);
  }

  lemma CountWhenOver(s: Registry, stuck: set<TaskId>, count: nat, tasks: map<TaskId, Task>, agents: map<AgentId, Agent>)
    requires TimedOutSoFar(s, stuck, {}, count, tasks, agents)
    ensures count == |stuck|
  {
  }

  lemma TimeoutSweepDone(s: Registry, thresholdMs: nat, stuck: set<TaskId>, tasks: map<TaskId, Task>,
                         agents: map<AgentId, Agent>)
    requires stuck == StuckTasks(s, thresholdMs)
    requires TimedOutSoFar(s, stuck, {}, |stuck|, tasks, agents)
    ensures TimeoutSwept(s, thresholdMs) == Registry(tasks, agents, s.now)
  {
    assert stuck - {} == stuck;
    forall a | a in s.agents ensures HoldsOne(s, stuck, a) <==> HoldsStuck(s, thresholdMs, a) {
      if HoldsStuck(s, thresholdMs, a) {
        var t :| t in s.tasks && Stuck(s, thresholdMs, t) && s.tasks[t].lockedBy == Some(a);
        assert t in stuck;
      }
    }
  }

  /** A non-empty finite set of tasks has one that comes before all the others. */
  lemma FirstExists(tasks: map<TaskId, Task>, candidates: set<TaskId>)
    requires candidates != {} && candidates <= tasks.Keys
    ensures exists t :: t in candidates && forall u :: u in candidates ==> NotAfter(tasks[t], tasks[u])
  {
    var t :| t in candidates;
    var others := candidates - {t};
    if others == {} {
      assert candidates == {t};
    } else {
      FirstExists(tasks, others);
      var first :| first in others && forall u :: u in others ==> NotAfter(tasks[first], tasks[u]);
      var best := if NotAfter(tasks[t], tasks[first]) then t else first;
      forall u | u in candidates ensures NotAfter(tasks[best], tasks[u]) {
        assert u == t || u in others;
      }
    }
  }
}
