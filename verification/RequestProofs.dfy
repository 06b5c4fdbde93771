/** What each request and job does to the rows it touches, field by field, and that it leaves the others alone. */
module RequestProofs {
  import opened Wrappers
  import opened RegistryModel

  /** Of all rows only this task's may differ. */
  ghost predicate OnlyTask(s: Registry, next: Registry, t: TaskId) {
    && next.agents == s.agents && next.now == s.now
    && next.tasks - {t} == s.tasks - {t}
  }

  /** Of all rows only this agent's may differ. */
  ghost predicate OnlyAgent(s: Registry, next: Registry, a: AgentId) {
    && next.tasks == s.tasks && next.now == s.now
    && next.agents - {a} == s.agents - {a}
  }

  // ---------------------------------------------------------------------------
  // Tasks
  // ---------------------------------------------------------------------------

  /** A new task waits in the queue, with nobody at work on it. */
  lemma CreateOutcome(s: Registry, t: TaskId, priority: nat, roleTarget: Option<RoleId>, forAgent: Option<AgentId>)
    requires t !in s.tasks
    ensures var next := Apply(s, CreateTask(t, priority, roleTarget, forAgent));
      && OnlyTask(s, next, t) && t in next.tasks
      && next.tasks[t] == Task(Queued, priority, roleTarget, s.now, None, None, None, None, forAgent, None, None)
  {
  }

  /** A claim takes a queued task for a known agent, from this moment on, and does nothing otherwise. */
  lemma ClaimOutcome(s: Registry, t: TaskId, a: AgentId)
    ensures var next := Apply(s, Claim(t, a));
      if t in s.tasks && s.tasks[t].status == Queued && a in s.agents then
        && OnlyTask(s, next, t) && t in next.tasks
        && next.tasks[t] == s.tasks[t].(status := Locked, lockedBy := Some(a), lockedAt := Some(s.now),
                                        startedAt := Some(s.now), agentId := Some(a))
      else next == s
  {
  }

  /** A report of success completes a locked task, one of failure fails it; its holder is free for the next task. */
  lemma CompleteOutcome(s: Registry, t: TaskId, succeeded: bool, error: Option<string>)
    requires t in s.tasks && s.tasks[t].status == Locked
    ensures var next, holder := Apply(s, Complete(t, succeeded, error)), s.tasks[t].lockedBy;
      && next.now == s.now && next.tasks - {t} == s.tasks - {t} && t in next.tasks
      && next.tasks[t] == s.tasks[t].(status := if succeeded then Completed else Failed,
                                      error := if error == Some("") then None else error,
                                      completedAt := Some(s.now), lockedBy := None, lockedAt := None)
      && next.agents.Keys == s.agents.Keys
      && forall a :: a in s.agents ==>
           (next.agents[a] == if holder == Some(a) then s.agents[a].(status := Idle, currentTaskId := None) else s.agents[a])
  {
  }

  /** A cancelled task is cancelled at once unless an agent is at work on it; what is over stays as it is. */
  lemma CancelOutcome(s: Registry, t: TaskId)
    requires t in s.tasks
    ensures var next := Apply(s, Cancel(t));
      && OnlyTask(s, next, t) && t in next.tasks
      && next.tasks[t] ==
        match s.tasks[t].status
        case Queued => s.tasks[t].(status := Cancelled, completedAt := Some(s.now), lockedBy := None, lockedAt := None)
        case Locked => s.tasks[t].(status := Cancelling)
        case _ => s.tasks[t]
  {
  }

  lemma ConfirmOutcome(s: Registry, t: TaskId)
    requires t in s.tasks
    ensures var next := Apply(s, ConfirmCancelled(t));
      && OnlyTask(s, next, t) && t in next.tasks
      && next.tasks[t]
           == s.tasks[t].(status := Cancelled, completedAt := Some(s.now), lockedBy := None, lockedAt := None)
  {
  }

  /** A retried task waits in the queue again, forgets its error and its agent, and can be claimed by whoever its role lets. */
  lemma RetryOutcome(s: Registry, t: TaskId, role: RoleId)
    requires t in s.tasks
    ensures var next := Apply(s, Retry(t));
      && OnlyTask(s, next, t) && t in next.tasks
      && next.tasks[t] == s.tasks[t].(status := Queued, error := None, startedAt := None, completedAt := None,
                                      lockedBy := None, lockedAt := None, agentId := None)
      && (Eligible(next, role, t) <==> s.tasks[t].roleTarget in {None, Some(role)})
  {
  }

  /** A requeue puts back exactly the tasks the agent holds. */
  lemma RequeueOutcome(s: Registry, a: AgentId, t: TaskId)
    requires t in s.tasks
    ensures var next := Apply(s, Requeue(a));
      && next.agents == s.agents && next.now == s.now && next.tasks.Keys == s.tasks.Keys
      && next.tasks[t] ==
        if s.tasks[t].lockedBy == Some(a) then
          s.tasks[t].(status := Queued, lockedBy := None, lockedAt := None, startedAt := None, agentId := None,
                      error := None)
        else s.tasks[t]
  {
  }

  lemma DeleteOutcome(s: Registry, t: TaskId)
    ensures var next := Apply(s, DeleteTask(t)); OnlyTask(s, next, t) && t !in next.tasks
  {
  }

  /** Which queued tasks an agent's role lets it claim, and which of two comes first: priority before age. */
  lemma QueueOrder(s: Registry, role: RoleId, t: TaskId, u: TaskId)
    requires Eligible(s, role, t) && Eligible(s, role, u)
    ensures s.tasks[t].status == Queued && s.tasks[t].roleTarget in {None, Some(role)}
    ensures s.tasks[t].priority > s.tasks[u].priority ==> NotAfter(s.tasks[t], s.tasks[u]) && !NotAfter(s.tasks[u], s.tasks[t])
    ensures s.tasks[t].priority == s.tasks[u].priority ==>
      (NotAfter(s.tasks[t], s.tasks[u]) <==> s.tasks[t].createdAt <= s.tasks[u].createdAt)
  {
  }

  lemma EligibleIff(s: Registry, role: RoleId, t: TaskId)
    ensures Eligible(s, role, t)
       <==> t in s.tasks && s.tasks[t].status == Queued && s.tasks[t].roleTarget in {None, Some(role)}
  {
  }

  // ---------------------------------------------------------------------------
  // Agents
  // ---------------------------------------------------------------------------

  lemma RegisterOutcome(s: Registry, a: AgentId)
    ensures var next := Apply(s, Register(a));
      && OnlyAgent(s, next, a) && a in next.agents
      && next.agents[a] == Agent(Idle, Some(s.now), if a in s.agents then s.agents[a].currentTaskId else None)
  {
  }

  /** A heartbeat may say idle, working or error; it is then taken at its word, along with the task it names. */
  lemma HeartbeatOutcome(s: Registry, a: AgentId, status: AgentStatus, current: Option<TaskId>)
    ensures var next := Apply(s, Heartbeat(a, status, current));
      if a in s.agents && status in {Idle, Working, Error} then
        OnlyAgent(s, next, a) && a in next.agents && next.agents[a] == Agent(status, Some(s.now), current)
      else next == s
  {
  }

  lemma TelemetryOutcome(s: Registry, a: AgentId)
    ensures var next := Apply(s, Telemetry(a));
      if a in s.agents then
        OnlyAgent(s, next, a) && a in next.agents && next.agents[a] == s.agents[a].(lastHeartbeat := Some(s.now))
      else next == s
  {
  }

  lemma WriteStatusOutcome(s: Registry, a: AgentId, status: AgentStatus, newTask: Option<Option<TaskId>>)
    ensures var next := Apply(s, WriteStatus(a, status, newTask));
      if a in s.agents then
        && OnlyAgent(s, next, a) && a in next.agents
        && next.agents[a] == Agent(status, s.agents[a].lastHeartbeat,
                                   if newTask.Some? then newTask.value else s.agents[a].currentTaskId)
      else next == s
  {
  }

  lemma MarkPhantomsOutcome(s: Registry, ids: set<AgentId>, a: AgentId)
    requires a in s.agents
    ensures var next := Apply(s, MarkPhantoms(ids));
      && next.tasks == s.tasks && next.now == s.now && next.agents.Keys == s.agents.Keys
      && next.agents[a] == if a in ids then s.agents[a].(status := Offline) else s.agents[a]
  {
  }

  lemma DeleteAgentOutcome(s: Registry, a: AgentId)
    ensures var next := Apply(s, DeleteAgent(a)); OnlyAgent(s, next, a) && a !in next.agents
  {
  }

  // ---------------------------------------------------------------------------
  // The cancel signal
  // ---------------------------------------------------------------------------

  /** A heartbeat is told to stop exactly the task it names, and that only while the task is being cancelled. */
  lemma SignalIff(s: Registry, current: Option<TaskId>, t: TaskId)
    ensures CancelSignal(s, current) == Some(t)
       <==> current == Some(t) && t in s.tasks && s.tasks[t].status == Cancelling
  {
  }

  lemma CancellingStarts(s: Registry, e: Event, t: TaskId)
    requires t in Apply(s, e).tasks && Apply(s, e).tasks[t].status == Cancelling
    ensures (e == Cancel(t) && t in s.tasks && s.tasks[t].status == Locked) || (t in s.tasks && s.tasks[t].status == Cancelling)
  {
  }

  /** Nobody is told to stop a task that was not cancelled while an agent was at work on it. */
  lemma {:induction false} SignalNeedsCancel(s: Registry, events: seq<Event>, t: TaskId, current: Option<TaskId>)
    requires t in s.tasks ==> s.tasks[t].status != Cancelling
    requires CancelSignal(Run(s, events), current) == Some(t)
    ensures CancelledWhileLocked(s, events, t)
    decreases |events|
  {
    if events == [] {
      SignalIff(s, current, t);
    } else {
      var next := Apply(s, events[0]);
      if t in next.tasks && next.tasks[t].status == Cancelling {
        CancellingStarts(s, events[0], t);
      } else {
        SignalNeedsCancel(next, events[1..], t, current);
      }
    }
  }

  /** Some event of the run cancels the task while it is locked. */
  ghost predicate CancelledWhileLocked(s: Registry, events: seq<Event>, t: TaskId)
    decreases |events|
  {
    events != [] && (
      || (events[0] == Cancel(t) && t in s.tasks && s.tasks[t].status == Locked)
      || CancelledWhileLocked(Apply(s, events[0]), events[1..], t))
  }
}
