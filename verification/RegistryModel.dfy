/**
 The registry's tasks and agents as values, and the effect of every request and background job on
 them. Times are in milliseconds; each event is atomic.
 */
module RegistryModel {
  import opened Wrappers

  type TaskId = nat
  type AgentId = nat
  type RoleId = nat

  datatype AgentStatus = Provisioning | Idle | Working | Offline | Unreachable | Error | Destroyed

  datatype TaskStatus = Queued | Locked | Completed | Failed | Cancelling | Cancelled

  datatype Agent = Agent(status: AgentStatus, lastHeartbeat: Option<int>, currentTaskId: Option<TaskId>)

  datatype Task = Task(
    status: TaskStatus,
    priority: nat,
    roleTarget: Option<RoleId>,
    createdAt: int,
    lockedBy: Option<AgentId>,
    lockedAt: Option<int>,
    startedAt: Option<int>,
    completedAt: Option<int>,
    agentId: Option<AgentId>,
    error: Option<string>,
    timeoutAt: Option<int>)
  {
    /** An agent is at work on it, or is being told to stop. */
    predicate Active() { status.Locked? || status.Cancelling? }

    predicate Terminal() { status.Completed? || status.Failed? || status.Cancelled? }
  }

  datatype Registry = Registry(tasks: map<TaskId, Task>, agents: map<AgentId, Agent>, now: int)

  const OFFLINE_THRESHOLD_MS := 90_000
  const UNREACHABLE_THRESHOLD_MS := 300_000

  /**
   What can happen to the registry. Sweeps carry the time limit they run with. `WriteStatus` stands for all the
   services' own writes of an agent's status: the daemon reports working, idle and error, and says goodbye as
   offline; the orchestrator writes provisioning, idle, error and destroyed; the manager assigns work and marks
   phantoms. A current task goes with some of them. `MarkPhantoms` is the registry's own hourly repair.
   */
  datatype Event =
    | Tick(ms: nat)
    | CreateTask(t: TaskId, priority: nat, roleTarget: Option<RoleId>, forAgent: Option<AgentId>)
    | Claim(t: TaskId, a: AgentId)
    | Complete(t: TaskId, succeeded: bool, error: Option<string>)
    | Cancel(t: TaskId)
    | ConfirmCancelled(t: TaskId)
    | Retry(t: TaskId)
    | Requeue(a: AgentId)
    | DeleteTask(t: TaskId)
    | Register(a: AgentId)
    | Heartbeat(a: AgentId, status: AgentStatus, current: Option<TaskId>)
    | Telemetry(a: AgentId)
    | WriteStatus(a: AgentId, status: AgentStatus, newTask: Option<Option<TaskId>>)
    | MarkPhantoms(ids: set<AgentId>)
    | DeleteAgent(a: AgentId)
    | DetectOffline
    | LockSweep(timeoutMs: nat)
    | TimeoutSweep(thresholdMs: nat)

  // ---------------------------------------------------------------------------
  // Tasks
  // ---------------------------------------------------------------------------

  function NewTask(s: Registry, priority: nat, roleTarget: Option<RoleId>, forAgent: Option<AgentId>): Task {
    Task(Queued, priority, roleTarget, s.now, None, None, None, None, forAgent, None, None)
  }

  function Claimed(task: Task, a: AgentId, now: int): Task {
    task.(status := Locked, lockedBy := Some(a), lockedAt := Some(now), startedAt := Some(now), agentId := Some(a))
  }

  function Finished(task: Task, succeeded: bool, error: Option<string>, now: int): Task {
    task.(status := if succeeded then Completed else Failed, error := if error == Some("") then None else error,
          completedAt := Some(now), lockedBy := None, lockedAt := None)
  }

  /** The cancel handlers: terminal and cancelling tasks are left alone, a locked one waits for its agent. */
  function AfterCancel(task: Task, now: int): Task {
    if task.Terminal() || task.status.Cancelling? then task
    else if task.status.Locked? then task.(status := Cancelling)
    else CancelledNow(task, now)
  }

  function CancelledNow(task: Task, now: int): Task {
    task.(status := Cancelled, completedAt := Some(now), lockedBy := None, lockedAt := None)
  }

  function Retried(task: Task): Task {
    task.(status := Queued, error := None, startedAt := None, completedAt := None,
          lockedBy := None, lockedAt := None, agentId := None)
  }

  function Released(task: Task): Task {
    task.(status := Queued, lockedBy := None, lockedAt := None, startedAt := None, agentId := None)
  }

  /** What a requeue does: a release that also forgets the error. */
  function ReleasedAfresh(task: Task): Task {
    Released(task).(error := None)
  }

  function TimedOut(task: Task, now: int): Task {
    task.(status := Failed, error := Some("timeout"), timeoutAt := Some(now), completedAt := Some(now),
          lockedBy := None, lockedAt := None)
  }

  // ---------------------------------------------------------------------------
  // Sweeps
  // ---------------------------------------------------------------------------

  /** Locked for longer than the limit. */
  predicate Stale(task: Task, now: int, timeoutMs: nat) {
    task.status.Locked? && task.lockedAt.Some? && task.lockedAt.value < now - timeoutMs
  }

  /** No holder recorded, a holder that is gone, or one marked dead. */
  predicate HolderDead(agents: map<AgentId, Agent>, holder: Option<AgentId>) {
    || holder.None?
    || holder.value !in agents
    || DeadStatus(agents[holder.value].status)
  }

  predicate SweptUp(s: Registry, timeoutMs: nat, t: TaskId)
    requires t in s.tasks
  {
    Stale(s.tasks[t], s.now, timeoutMs) && HolderDead(s.agents, s.tasks[t].lockedBy)
  }

  function LockSwept(s: Registry, timeoutMs: nat): Registry {
    s.(tasks := map t | t in s.tasks :: if SweptUp(s, timeoutMs, t) then Released(s.tasks[t]) else s.tasks[t])
  }

  /** The left join of the timeout query: no holder row, or one not heard of since the cutoff. */
  predicate HolderSilent(agents: map<AgentId, Agent>, holder: Option<AgentId>, cutoff: int) {
    || holder.None?
    || holder.value !in agents
    || agents[holder.value].lastHeartbeat.None?
    || agents[holder.value].lastHeartbeat.value < cutoff
  }

  predicate Stuck(s: Registry, thresholdMs: nat, t: TaskId)
    requires t in s.tasks
  {
    && s.tasks[t].status.Locked?
    && s.tasks[t].lockedAt.Some?
    && HolderSilent(s.agents, s.tasks[t].lockedBy, s.now - thresholdMs)
  }

  predicate HoldsStuck(s: Registry, thresholdMs: nat, a: AgentId) {
    exists t :: t in s.tasks && Stuck(s, thresholdMs, t) && s.tasks[t].lockedBy == Some(a)
  }

  function Freed(agent: Agent): Agent {
    agent.(status := Idle, currentTaskId := None)
  }

  function TimeoutSwept(s: Registry, thresholdMs: nat): Registry {
    s.(tasks := map t | t in s.tasks :: if Stuck(s, thresholdMs, t) then TimedOut(s.tasks[t], s.now) else s.tasks[t],
       agents := map a | a in s.agents :: if HoldsStuck(s, thresholdMs, a) then Freed(s.agents[a]) else s.agents[a])
  }

  // ---------------------------------------------------------------------------
  // Liveness
  // ---------------------------------------------------------------------------

  predicate SilentFor(agent: Agent, now: int, ms: nat) {
    agent.lastHeartbeat.Some? && agent.lastHeartbeat.value < now - ms
  }

  predicate BecomesUnreachable(agent: Agent, now: int) {
    SilentFor(agent, now, UNREACHABLE_THRESHOLD_MS) && agent.status !in {Provisioning, Destroyed, Unreachable}
  }

  predicate BecomesOffline(agent: Agent, now: int) {
    SilentFor(agent, now, OFFLINE_THRESHOLD_MS) && agent.status !in {Provisioning, Destroyed, Offline, Unreachable}
  }

  function MarkUnreachable(agent: Agent, now: int): Agent {
    if BecomesUnreachable(agent, now) then agent.(status := Unreachable) else agent
  }

  function MarkOffline(agent: Agent, now: int): Agent {
    if BecomesOffline(agent, now) then agent.(status := Offline) else agent
  }

  function Detected(s: Registry): Registry {
    s.(agents := map a | a in s.agents :: MarkOffline(MarkUnreachable(s.agents[a], s.now), s.now))
  }

  // ---------------------------------------------------------------------------
  // Events
  // ---------------------------------------------------------------------------

  /** The statuses a heartbeat may report. */
  predicate Reportable(status: AgentStatus) { status in {Idle, Working, Error} }

  /** The statuses that count as dead. */
  predicate DeadStatus(status: AgentStatus) { status in {Offline, Unreachable, Destroyed} }

  function PutTask(s: Registry, t: TaskId, task: Task): Registry { s.(tasks := s.tasks[t := task]) }

  function PutAgent(s: Registry, a: AgentId, agent: Agent): Registry { s.(agents := s.agents[a := agent]) }

  function Completing(s: Registry, t: TaskId, succeeded: bool, error: Option<string>): Registry
    requires t in s.tasks
  {
    var holder := s.tasks[t].lockedBy;
    var done := PutTask(s, t, Finished(s.tasks[t], succeeded, error, s.now));
    if holder.Some? && holder.value in s.agents then PutAgent(done, holder.value, Freed(s.agents[holder.value]))
    else done
  }

  function Requeued(s: Registry, a: AgentId): Registry {
    s.(tasks := map t | t in s.tasks ::
      if s.tasks[t].lockedBy == Some(a) then ReleasedAfresh(s.tasks[t]) else s.tasks[t])
  }

  function Registered(s: Registry, a: AgentId): Registry {
    PutAgent(s, a, Agent(Idle, Some(s.now), if a in s.agents then s.agents[a].currentTaskId else None))
  }

  function WithStatus(agent: Agent, status: AgentStatus, newTask: Option<Option<TaskId>>): Agent {
    agent.(status := status, currentTaskId := newTask.GetOr(agent.currentTaskId))
  }

  function PhantomsMarked(s: Registry, ids: set<AgentId>): Registry {
    s.(agents := map a | a in s.agents :: if a in ids then s.agents[a].(status := Offline) else s.agents[a])
  }

  /** The registry after an event; a request the source turns down changes nothing. */
  function Apply(s: Registry, e: Event): Registry {
    match e
    case Tick(ms) => s.(now := s.now + ms)
    case CreateTask(t, priority, roleTarget, forAgent) =>
      if t in s.tasks then s else PutTask(s, t, NewTask(s, priority, roleTarget, forAgent))
    case Claim(t, a) =>
      if t in s.tasks && s.tasks[t].status.Queued? && a in s.agents
      then PutTask(s, t, Claimed(s.tasks[t], a, s.now)) else s
    case Complete(t, succeeded, error) =>
      if t in s.tasks && s.tasks[t].status.Locked? then Completing(s, t, succeeded, error) else s
    case Cancel(t) => if t in s.tasks then PutTask(s, t, AfterCancel(s.tasks[t], s.now)) else s
    case ConfirmCancelled(t) => if t in s.tasks then PutTask(s, t, CancelledNow(s.tasks[t], s.now)) else s
    case Retry(t) => if t in s.tasks then PutTask(s, t, Retried(s.tasks[t])) else s
    case Requeue(a) => Requeued(s, a)
    case DeleteTask(t) => s.(tasks := s.tasks - {t})
    case Register(a) => Registered(s, a)
    case Heartbeat(a, status, current) =>
      if a in s.agents && Reportable(status) then PutAgent(s, a, Agent(status, Some(s.now), current)) else s
    case Telemetry(a) =>
      if a in s.agents then PutAgent(s, a, s.agents[a].(lastHeartbeat := Some(s.now))) else s
    case WriteStatus(a, status, newTask) =>
      if a in s.agents then PutAgent(s, a, WithStatus(s.agents[a], status, newTask)) else s
    case MarkPhantoms(ids) => PhantomsMarked(s, ids)
    case DeleteAgent(a) => s.(agents := s.agents - {a})
    case DetectOffline => Detected(s)
    case LockSweep(timeoutMs) => LockSwept(s, timeoutMs)
    case TimeoutSweep(thresholdMs) => TimeoutSwept(s, thresholdMs)
  }

  function Run(s: Registry, events: seq<Event>): Registry
    decreases |events|
  {
    if events == [] then s else Run(Apply(s, events[0]), events[1..])
  }

  /** A registry with nothing in it. */
  function Empty(now: int): Registry { Registry(map[], map[], now) }

  /** The task a heartbeat tells its sender to stop. */
  function CancelSignal(s: Registry, current: Option<TaskId>): Option<TaskId> {
    if current.Some? && current.value in s.tasks && s.tasks[current.value].status.Cancelling? then current else None
  }

  /** Can be handed to an agent of this role. */
  predicate Eligible(s: Registry, role: RoleId, t: TaskId) {
    t in s.tasks && s.tasks[t].status.Queued? && (s.tasks[t].roleTarget == Some(role) || s.tasks[t].roleTarget.None?)
  }

  /** The first task comes before the second in the queue: higher priority, then older. */
  predicate NotAfter(first: Task, second: Task) {
    first.priority > second.priority || (first.priority == second.priority && first.createdAt <= second.createdAt)
  }
}
