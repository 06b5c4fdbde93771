/**
 Time limits, read off the events: how long a task has been held and an agent been silent is the sum of the ticks
 since the claim, or the word, that came last.
 */
module TimeProofs {
  import opened Wrappers
  import opened RegistryModel
  import opened LeaseProofs

  /** How much time passes in the course of the events. */
  function Elapsed(events: seq<Event>): nat {
    if events == [] then 0 else (if events[0].Tick? then events[0].ms else 0) + Elapsed(events[1..])
  }

  lemma {:induction false} ElapsedIsTime(s: Registry, events: seq<Event>)
    ensures Run(s, events).now == s.now + Elapsed(events)
    decreases |events|
  {
    if events == [] {
    } else {
      OnlyTicksTakeTime(s, events[0]);
      ElapsedIsTime(Apply(s, events[0]), events[1..]);
    }
  }

  lemma OnlyTicksTakeTime(s: Registry, e: Event)
    ensures Apply(s, e).now == s.now + if e.Tick? then e.ms else 0
  {
  }

  // ---------------------------------------------------------------------------
  // How long a task has been held
  // ---------------------------------------------------------------------------

  /** The agent of a claim, and the time that has passed since. */
  datatype Hold = Hold(holder: AgentId, ms: nat)

  /** The event is a claim of the task that takes effect: the task waits in the queue, and the agent is known. */
  ghost predicate Claims(s: Registry, e: Event, t: TaskId) {
    e.Claim? && e.t == t && t in s.tasks && s.tasks[t].status == Queued && e.a in s.agents
  }

  /** The last claim of the task that took effect. */
  ghost function LastClaim(s: Registry, events: seq<Event>, t: TaskId): Option<Hold>
    decreases |events|
  {
    if events == [] then None
    else
      var later := LastClaim(Apply(s, events[0]), events[1..], t);
      if later.Some? then later
      else if Claims(s, events[0], t) then Some(Hold(events[0].a, Elapsed(events[1..])))
      else None
  }

  lemma LockComesFromClaim(s: Registry, e: Event, t: TaskId)
    requires t in Apply(s, e).tasks && Apply(s, e).tasks[t].status == Locked
    ensures var after := Apply(s, e).tasks[t];
      if Claims(s, e, t) then after.lockedBy == Some(e.a) && after.lockedAt == Some(Apply(s, e).now)
      else
        && t in s.tasks && s.tasks[t].status == Locked
        && after.lockedBy == s.tasks[t].lockedBy && after.lockedAt == s.tasks[t].lockedAt
  {
  }

  /** A locked task is held by the agent of the last claim, since that claim. */
  lemma {:induction false} HoldMeaning(s: Registry, events: seq<Event>, t: TaskId)
    requires t in Run(s, events).tasks && Run(s, events).tasks[t].status == Locked
    ensures var end, hold := Run(s, events), LastClaim(s, events, t);
      if hold.Some? then
        end.tasks[t].lockedBy == Some(hold.value.holder) && end.tasks[t].lockedAt == Some(end.now - hold.value.ms)
      else
        && t in s.tasks && s.tasks[t].status == Locked
        && end.tasks[t].lockedBy == s.tasks[t].lockedBy && end.tasks[t].lockedAt == s.tasks[t].lockedAt
    decreases |events|
  {
    if events == [] {
    } else {
      var next := Apply(s, events[0]);
      HoldMeaning(next, events[1..], t);
      if LastClaim(next, events[1..], t).None? {
        LockComesFromClaim(s, events[0], t);
        ElapsedIsTime(next, events[1..]);
      }
    }
  }

  /** The tasks the lock sweep looks at, over every run: the locked ones claimed longer ago than the limit. */
  lemma StaleByTime(start: int, events: seq<Event>, limitMs: nat, t: TaskId)
    requires t in Run(Empty(start), events).tasks
    ensures var s, hold := Run(Empty(start), events), LastClaim(Empty(start), events, t);
      Stale(s.tasks[t], s.now, limitMs) <==> s.tasks[t].status == Locked && hold.Some? && hold.value.ms > limitMs
  {
    var s := Run(Empty(start), events);
    if s.tasks[t].status == Locked {
      HoldMeaning(Empty(start), events, t);
    }
  }

  /**
   The lock sweep, over every run: a locked task goes back to the queue exactly if more time than the limit has passed
   since it was claimed, and the agent that claimed it is gone or stands marked down. No other task is touched.
   */
  lemma ReleasedByTime(start: int, events: seq<Event>, limitMs: nat, t: TaskId)
    requires t in Run(Empty(start), events).tasks
    ensures var s, hold := Run(Empty(start), events), LastClaim(Empty(start), events, t);
      var task, after := s.tasks[t], Apply(s, LockSweep(limitMs)).tasks[t];
      && (task.status == Locked ==> hold.Some?)
      && after ==
        if task.status == Locked && hold.value.ms > limitMs
           && (hold.value.holder !in s.agents || MarkedDown(Empty(start), events, hold.value.holder))
        then task.(status := Queued, lockedBy := None, lockedAt := None, startedAt := None, agentId := None)
        else task
  {
    var s := Run(Empty(start), events);
    if s.tasks[t].status == Locked {
      HoldMeaning(Empty(start), events, t);
    }
    ReleasedIff(start, events, limitMs, t);
  }

  // ---------------------------------------------------------------------------
  // How long an agent has been silent
  // ---------------------------------------------------------------------------

  /** The agent is heard of: it registers, or it is known and sends a heartbeat that is accepted, or telemetry. */
  ghost predicate Heard(s: Registry, e: Event, a: AgentId) {
    || e == Register(a)
    || (a in s.agents && e == Telemetry(a))
    || (a in s.agents && e.Heartbeat? && e.a == a && e.status in {Idle, Working, Error})
  }

  /** The time that has passed since the agent was last heard of. */
  ghost function Silence(s: Registry, events: seq<Event>, a: AgentId): Option<nat>
    decreases |events|
  {
    if events == [] then None
    else
      var later := Silence(Apply(s, events[0]), events[1..], a);
      if later.Some? then later else if Heard(s, events[0], a) then Some(Elapsed(events[1..])) else None
  }

  lemma HeartbeatComesFromWord(s: Registry, e: Event, a: AgentId)
    requires a in Apply(s, e).agents
    ensures var after := Apply(s, e).agents[a];
      if Heard(s, e, a) then after.lastHeartbeat == Some(Apply(s, e).now)
      else a in s.agents && after.lastHeartbeat == s.agents[a].lastHeartbeat
  {
  }

  lemma {:induction false} SilenceMeaning(s: Registry, events: seq<Event>, a: AgentId)
    requires a in Run(s, events).agents
    ensures var end, silence := Run(s, events), Silence(s, events, a);
      if silence.Some? then end.agents[a].lastHeartbeat == Some(end.now - silence.value)
      else a in s.agents && end.agents[a].lastHeartbeat == s.agents[a].lastHeartbeat
    decreases |events|
  {
    if events == [] {
    } else {
      var next := Apply(s, events[0]);
      SilenceMeaning(next, events[1..], a);
      if Silence(next, events[1..], a).None? {
        HeartbeatComesFromWord(s, events[0], a);
        ElapsedIsTime(next, events[1..]);
      }
    }
  }

  /**
   The detection cycle, over every run: an agent silent for over five minutes becomes unreachable, one silent for over
   ninety seconds offline unless it is unreachable already, and no other agent changes.
   */
  lemma DetectedByTime(start: int, events: seq<Event>, a: AgentId)
    requires a in Run(Empty(start), events).agents
    ensures var s, silence := Run(Empty(start), events), Silence(Empty(start), events, a);
      var before, after := s.agents[a], Apply(s, DetectOffline).agents[a];
      && silence.Some?
      && after == before.(status :=
        if before.status == Provisioning || before.status == Destroyed then before.status
        else if silence.value > 5 * 60 * 1000 then Unreachable
        else if silence.value > 90 * 1000 && before.status != Unreachable then Offline
        else before.status)
  {
    SilenceMeaning(Empty(start), events, a);
  }

  /**
   The timeout sweep, over every run: a locked task fails exactly if the agent that claimed it is gone or has been
   silent for longer than the limit. No other task is touched.
   */
  lemma TimedOutByTime(start: int, events: seq<Event>, limitMs: nat, t: TaskId)
    requires t in Run(Empty(start), events).tasks
    ensures var s, hold := Run(Empty(start), events), LastClaim(Empty(start), events, t);
      var task, after := s.tasks[t], Apply(s, TimeoutSweep(limitMs)).tasks[t];
      && (task.status == Locked ==> hold.Some?)
      && after ==
        if task.status == Locked
           && (hold.value.holder !in s.agents || Silence(Empty(start), events, hold.value.holder).GetOr(0) > limitMs)
        then task.(status := Failed, error := Some("timeout"), timeoutAt := Some(s.now), completedAt := Some(s.now),
                   lockedBy := None, lockedAt := None)
        else task
  {
    var s := Run(Empty(start), events);
    if s.tasks[t].status == Locked {
      HoldMeaning(Empty(start), events, t);
      if s.tasks[t].lockedBy.value in s.agents {
        SilenceMeaning(Empty(start), events, s.tasks[t].lockedBy.value);
      }
    }
  }

  /** And the agents it frees are exactly those that held a task it fails. */
  lemma FreedByTimeout(s: Registry, limitMs: nat, a: AgentId)
    requires Inv(s) && a in s.agents
    ensures Apply(s, TimeoutSweep(limitMs)).agents[a] ==
      if exists t :: t in s.tasks && s.tasks[t].status == Locked && s.tasks[t].lockedBy == Some(a)
                     && Apply(s, TimeoutSweep(limitMs)).tasks[t].status == Failed
      then s.agents[a].(status := Idle, currentTaskId := None)
      else s.agents[a]
  {
    var next := Apply(s, TimeoutSweep(limitMs));
    forall t | t in s.tasks && s.tasks[t].status == Locked
      ensures next.tasks[t].status == Failed <==> Stuck(s, limitMs, t)
    {
      assert RecordOk(s.tasks[t], s.now);
    }
  }
}
