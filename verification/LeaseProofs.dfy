/** Properties of the registry that hold over whole runs. */
module LeaseProofs {
  import opened Wrappers
  import opened RegistryModel

  // ---------------------------------------------------------------------------
  // Invariants
  // ---------------------------------------------------------------------------

  /** Lock fields are set exactly on active tasks, a completion time exactly on terminal ones. */
  ghost predicate RecordOk(task: Task, now: int) {
    && (task.lockedBy.Some? <==> task.Active())
    && (task.lockedAt.Some? <==> task.Active())
    && (task.completedAt.Some? <==> task.Terminal())
    && (task.lockedAt.Some? ==> task.lockedAt.value <= now)
  }

  /** Every agent has been heard of, and not in the future. */
  ghost predicate LivenessOk(agent: Agent, now: int) {
    agent.lastHeartbeat.Some? && agent.lastHeartbeat.value <= now
  }

  ghost predicate TasksOk(s: Registry) {
    forall t :: t in s.tasks ==> RecordOk(s.tasks[t], s.now)
  }

  ghost predicate AgentsOk(s: Registry) {
    forall a :: a in s.agents ==> LivenessOk(s.agents[a], s.now)
  }

  ghost predicate Inv(s: Registry) { TasksOk(s) && AgentsOk(s) }

  /** The events that write task rows. */
  ghost predicate OnTasks(e: Event) {
    || e.CreateTask? || e.Claim? || e.Complete? || e.Cancel? || e.ConfirmCancelled? || e.Retry? || e.Requeue?
    || e.DeleteTask?
  }

  lemma TaskEventKeepsInv(s: Registry, e: Event)
    requires Inv(s) && OnTasks(e)
    ensures Inv(Apply(s, e))
  {
    var next := Apply(s, e);
    forall t | t in next.tasks ensures RecordOk(next.tasks[t], next.now) {
      assert t in s.tasks ==> RecordOk(s.tasks[t], s.now);
    }
    forall a | a in next.agents ensures LivenessOk(next.agents[a], next.now) {
      assert a in s.agents ==> LivenessOk(s.agents[a], s.now);
    }
  }

  lemma SweepKeepsInv(s: Registry, e: Event)
    requires Inv(s) && (e.LockSweep? || e.TimeoutSweep?)
    ensures Inv(Apply(s, e))
  {
    var next := Apply(s, e);
    forall t | t in next.tasks ensures RecordOk(next.tasks[t], next.now) {
      assert RecordOk(s.tasks[t], s.now);
    }
    forall a | a in next.agents ensures LivenessOk(next.agents[a], next.now) {
      assert LivenessOk(s.agents[a], s.now);
    }
  }

  /** The clock, and the events that write agent rows only. */
  lemma AgentEventKeepsInv(s: Registry, e: Event)
    requires Inv(s) && !OnTasks(e) && !e.LockSweep? && !e.TimeoutSweep?
    ensures Inv(Apply(s, e))
  {
    var next := Apply(s, e);
    assert next.tasks == s.tasks && s.now <= next.now;
    forall t | t in next.tasks ensures RecordOk(next.tasks[t], next.now) {
      assert RecordOk(s.tasks[t], s.now);
    }
    forall a | a in next.agents ensures LivenessOk(next.agents[a], next.now) {
      assert a in s.agents ==> LivenessOk(s.agents[a], s.now);
    }
  }

  lemma StepKeepsInv(s: Registry, e: Event)
    requires Inv(s)
    ensures Inv(Apply(s, e))
  {
    if OnTasks(e) {
      TaskEventKeepsInv(s, e);
    } else if e.LockSweep? || e.TimeoutSweep? {
      SweepKeepsInv(s, e);
    } else {
      AgentEventKeepsInv(s, e);
    }
  }

  /** Every reachable registry satisfies the invariant. */
  lemma {:induction false} RunKeepsInv(s: Registry, events: seq<Event>)
    requires Inv(s)
    ensures Inv(Run(s, events))
    decreases |events|
  {
    if events == [] {
    } else {
      StepKeepsInv(s, events[0]);
      RunKeepsInv(Apply(s, events[0]), events[1..]);
    }
  }

  /** What a run starting from an empty registry can lead to. */
  ghost predicate Reachable(s: Registry) {
    exists start: int, events :: s == Run(Empty(start), events)
  }

  lemma ReachableInv(s: Registry)
    requires Reachable(s)
    ensures Inv(s)
  {
    var start: int, events :| s == Run(Empty(start), events);
    RunKeepsInv(Empty(start), events);
  }

  // ---------------------------------------------------------------------------
  // Down and up again
  // ---------------------------------------------------------------------------

  ghost predicate Dead(s: Registry, a: AgentId) {
    a in s.agents && DeadStatus(s.agents[a].status)
  }

  /** The agent's own word that it is alive: a registration, or a heartbeat that is accepted. */
  ghost predicate OwnWord(s: Registry, e: Event, a: AgentId) {
    e == Register(a) || (e.Heartbeat? && e.a == a && a in s.agents && Reportable(e.status))
  }

  /** A task the agent holds is finished or timed out, and the agent set to idle. */
  ghost predicate Frees(s: Registry, e: Event, a: AgentId) {
    || (e.Complete? && e.t in s.tasks && s.tasks[e.t].status.Locked? && s.tasks[e.t].lockedBy == Some(a))
    || (e.TimeoutSweep? && HoldsStuck(s, e.thresholdMs, a))
  }

  /**
   The event marks the agent down: a service says so (on a goodbye, an undeploy or a repair), the registry's repair
   does, or detection finds it silent for over 90 seconds and past provisioning.
   */
  ghost predicate MarksDown(s: Registry, e: Event, a: AgentId) {
    a in s.agents && (
      || (e.WriteStatus? && e.a == a && DeadStatus(e.status))
      || (e.MarkPhantoms? && a in e.ids)
      || (e.DetectOffline? && SilentFor(s.agents[a], s.now, OFFLINE_THRESHOLD_MS) && !s.agents[a].status.Provisioning?))
  }

  /** The event restores the agent's status, or removes the agent. Telemetry does neither. */
  ghost predicate Lifts(s: Registry, e: Event, a: AgentId) {
    || OwnWord(s, e, a)
    || (e.WriteStatus? && e.a == a && !DeadStatus(e.status))
    || Frees(s, e, a)
    || e == DeleteAgent(a)
  }

  lemma DeadStep(s: Registry, e: Event, a: AgentId)
    ensures Dead(Apply(s, e), a) <==> MarksDown(s, e, a) || (Dead(s, a) && !Lifts(s, e, a))
  {
  }

  ghost predicate Unlifted(s: Registry, events: seq<Event>, a: AgentId)
    decreases |events|
  {
    events != [] ==> !Lifts(s, events[0], a) && Unlifted(Apply(s, events[0]), events[1..], a)
  }

  /** Some event of the run marks the agent down, and none after it lifts it. */
  ghost predicate MarkedDown(s: Registry, events: seq<Event>, a: AgentId)
    decreases |events|
  {
    events != [] && (
      var next := Apply(s, events[0]);
      || (MarksDown(s, events[0], a) && Unlifted(next, events[1..], a))
      || MarkedDown(next, events[1..], a))
  }

  /** An agent is dead after a run exactly if the run marked it down, or found it dead and never lifted it. */
  lemma {:induction false} DeadIff(s: Registry, events: seq<Event>, a: AgentId)
    ensures Dead(Run(s, events), a) <==> MarkedDown(s, events, a) || (Dead(s, a) && Unlifted(s, events, a))
    decreases |events|
  {
    if events == [] {
    } else {
      DeadStep(s, events[0], a);
      DeadIff(Apply(s, events[0]), events[1..], a);
    }
  }

  // ---------------------------------------------------------------------------
  // Leases
  // ---------------------------------------------------------------------------

  /**
   When a lock sweep releases a task, over every run: exactly when the task is stale and its holder is gone, or was
   marked down by some event of the run with nothing since then to restore its status.
   */
  lemma ReleasedIff(start: int, events: seq<Event>, timeoutMs: nat, t: TaskId)
    requires t in Run(Empty(start), events).tasks
    ensures var s := Run(Empty(start), events);
      var task, holder := s.tasks[t], s.tasks[t].lockedBy;
      var lost := holder.Some? && (holder.value !in s.agents || MarkedDown(Empty(start), events, holder.value));
      Apply(s, LockSweep(timeoutMs)).tasks[t] == if Stale(task, s.now, timeoutMs) && lost then Released(task) else task
  {
    var s := Run(Empty(start), events);
    RunKeepsInv(Empty(start), events);
    assert RecordOk(s.tasks[t], s.now);
    if s.tasks[t].lockedBy.Some? {
      DeadIff(Empty(start), events, s.tasks[t].lockedBy.value);
    }
  }

  /** The mark an agent carries is earned: it has been silent for as long as the mark says. */
  ghost predicate MarkIsEarned(s: Registry, a: AgentId) {
    a in s.agents ==>
      && (s.agents[a].status.Offline? ==> SilentFor(s.agents[a], s.now, OFFLINE_THRESHOLD_MS))
      && (s.agents[a].status.Unreachable? ==> SilentFor(s.agents[a], s.now, UNREACHABLE_THRESHOLD_MS))
  }

  /** The events that mark an agent down without regard to its heartbeat, or refresh that and leave the mark. */
  ghost predicate Sidesteps(e: Event, a: AgentId) {
    || e == Telemetry(a)
    || (e.WriteStatus? && e.a == a && (e.status.Offline? || e.status.Unreachable?))
    || (e.MarkPhantoms? && a in e.ids)
  }

  lemma EarnedStep(s: Registry, e: Event, a: AgentId)
    requires Inv(s) && MarkIsEarned(s, a) && !Sidesteps(e, a)
    ensures MarkIsEarned(Apply(s, e), a)
  {
    assert a in s.agents ==> LivenessOk(s.agents[a], s.now);
  }

  lemma {:induction false} MarksAreEarned(s: Registry, events: seq<Event>, a: AgentId)
    requires Inv(s) && MarkIsEarned(s, a)
    requires forall e :: e in events ==> !Sidesteps(e, a)
    ensures MarkIsEarned(Run(s, events), a) && Inv(Run(s, events))
    decreases |events|
  {
    if events == [] {
    } else {
      assert events[0] in events;
      EarnedStep(s, events[0], a);
      StepKeepsInv(s, events[0]);
      MarksAreEarned(Apply(s, events[0]), events[1..], a);
    }
  }

  /** Since an agent's own word nothing has sidestepped its heartbeat. */
  ghost predicate Straightforward(before: Registry, word: Event, events: seq<Event>, a: AgentId) {
    && Reachable(before)
    && OwnWord(before, word, a)
    && forall e :: e in events ==> !Sidesteps(e, a)
  }

  lemma StraightforwardMarks(before: Registry, word: Event, events: seq<Event>, a: AgentId)
    requires Straightforward(before, word, events, a)
    ensures MarkIsEarned(Run(Apply(before, word), events), a) && Inv(Run(Apply(before, word), events))
  {
    ReachableInv(before);
    StepKeepsInv(before, word);
    MarksAreEarned(Apply(before, word), events, a);
  }

  /**
   Lease safety: when nothing has sidestepped the holder's heartbeat since its last own word, and it was heard of
   within the last 90 seconds, a lock sweep releases its task only if an undeploy has destroyed it.
   */
  lemma LeaseSafety(before: Registry, word: Event, events: seq<Event>, timeoutMs: nat, t: TaskId, holder: AgentId)
    requires Straightforward(before, word, events, holder)
    requires var s := Run(Apply(before, word), events);
      && t in s.tasks && s.tasks[t].lockedBy == Some(holder)
      && holder in s.agents && !SilentFor(s.agents[holder], s.now, OFFLINE_THRESHOLD_MS)
    ensures var s := Run(Apply(before, word), events);
      (Apply(s, LockSweep(timeoutMs)).tasks[t] != s.tasks[t])
        == (Stale(s.tasks[t], s.now, timeoutMs) && s.agents[holder].status.Destroyed?)
  {
    StraightforwardMarks(before, word, events, holder);
    EarnedMeansHeard(Run(Apply(before, word), events), holder);
  }

  lemma EarnedMeansHeard(s: Registry, a: AgentId)
    requires Inv(s) && MarkIsEarned(s, a) && a in s.agents && !SilentFor(s.agents[a], s.now, OFFLINE_THRESHOLD_MS)
    ensures Dead(s, a) <==> s.agents[a].status.Destroyed?
  {
    assert LivenessOk(s.agents[a], s.now);
  }

  /**
   Telemetry is called a proof of liveness, but restores no status: an agent that was silent for too long and then
   reports telemetry loses its task in the very instant it was heard of.
   */
  lemma TelemetryExample(start: int)
    ensures var claimed := Run(Empty(start), [Register(1), CreateTask(7, 0, None, None), Claim(7, 1)]);
      var s := Run(claimed, [Tick(700_000), DetectOffline, Telemetry(1)]);
      HeldByOneHeardNow(s) && QueuedAgain(Apply(s, LockSweep(600_000)))
  {
    var claimed := ClaimedByOne(start);
    RunOfThree(claimed, Tick(700_000), DetectOffline, Telemetry(1));
    DownAgentLosesTask(Apply(Apply(Apply(claimed, Tick(700_000)), DetectOffline), Telemetry(1)));
  }

  /** The repair of phantoms does the same to an agent whose heartbeat has just come in. */
  lemma PhantomExample(start: int)
    ensures var claimed := Run(Empty(start), [Register(1), CreateTask(7, 0, None, None), Claim(7, 1)]);
      var s := Run(claimed, [Tick(700_000), Heartbeat(1, Working, Some(7)), MarkPhantoms({1})]);
      HeldByOneHeardNow(s) && QueuedAgain(Apply(s, LockSweep(600_000)))
  {
    var claimed := ClaimedByOne(start);
    var beat := Heartbeat(1, Working, Some(7));
    RunOfThree(claimed, Tick(700_000), beat, MarkPhantoms({1}));
    DownAgentLosesTask(Apply(Apply(Apply(claimed, Tick(700_000)), beat), MarkPhantoms({1})));
  }

  ghost predicate HeldByOneHeardNow(s: Registry) {
    7 in s.tasks && s.tasks[7].lockedBy == Some(1) && 1 in s.agents && s.agents[1].lastHeartbeat == Some(s.now)
  }

  ghost predicate QueuedAgain(s: Registry) {
    7 in s.tasks && s.tasks[7].status.Queued? && s.tasks[7].lockedBy == None
  }

  lemma ClaimedByOne(start: int) returns (s: Registry)
    ensures s == Run(Empty(start), [Register(1), CreateTask(7, 0, None, None), Claim(7, 1)])
    ensures s == Registry(map[7 := Claimed(NewTask(Empty(start), 0, None, None), 1, start)],
                          map[1 := Agent(Idle, Some(start), None)], start)
  {
    s := Apply(Apply(Apply(Empty(start), Register(1)), CreateTask(7, 0, None, None)), Claim(7, 1));
    RunOfThree(Empty(start), Register(1), CreateTask(7, 0, None, None), Claim(7, 1));
  }

  lemma RunOfThree(s: Registry, a: Event, b: Event, c: Event)
    ensures Run(s, [a, b, c]) == Apply(Apply(Apply(s, a), b), c)
  {
    assert [a, b, c][1..] == [b, c] && [b, c][1..] == [c] && [c][1..] == [];
    assert Run(Apply(s, a), [b, c]) == Run(Apply(Apply(s, a), b), [c]);
  }

  lemma DownAgentLosesTask(s: Registry)
    requires HeldByOneHeardNow(s) && Dead(s, 1) && Stale(s.tasks[7], s.now, 600_000)
    ensures QueuedAgain(Apply(s, LockSweep(600_000)))
  {
  }

  /** What takes a lease away from a live holder, other than its own silence. */
  ghost predicate EndsLease(e: Event, t: TaskId, holder: AgentId) {
    || (e.Complete? && e.t == t)
    || e == Cancel(t)
    || Reopens(e, t)
    || e == Requeue(holder)
    || e == DeleteAgent(holder)
    || (e.WriteStatus? && e.a == holder && DeadStatus(e.status))
    || (e.MarkPhantoms? && holder in e.ids)
    || (e.TimeoutSweep? && e.thresholdMs < OFFLINE_THRESHOLD_MS)
  }

  /** All through the events the holder exists, keeps beating, and nothing ends its lease. */
  ghost predicate KeepsBeating(s: Registry, events: seq<Event>, t: TaskId, holder: AgentId)
    decreases |events|
  {
    events != [] ==>
      && holder in s.agents
      && !SilentFor(s.agents[holder], s.now, OFFLINE_THRESHOLD_MS)
      && !EndsLease(events[0], t, holder)
      && KeepsBeating(Apply(s, events[0]), events[1..], t, holder)
  }

  lemma BeatingStep(s: Registry, e: Event, t: TaskId, holder: AgentId)
    requires Inv(s) && t in s.tasks && s.tasks[t].status.Locked? && s.tasks[t].lockedBy == Some(holder)
    requires holder in s.agents && !Dead(s, holder)
    requires !SilentFor(s.agents[holder], s.now, OFFLINE_THRESHOLD_MS) && !EndsLease(e, t, holder)
    ensures t in Apply(s, e).tasks && Apply(s, e).tasks[t] == s.tasks[t]
    ensures holder in Apply(s, e).agents && !Dead(Apply(s, e), holder)
  {
    assert LivenessOk(s.agents[holder], s.now);
  }

  /**
   A task may take as long as it likes: while its holder keeps beating, by heartbeats or by telemetry, no run of
   claims, sweeps, detection cycles and other agents' doings touches its record.
   */
  lemma {:induction false} BeatingHolderKeepsLease(s: Registry, events: seq<Event>, t: TaskId, holder: AgentId)
    requires Inv(s) && t in s.tasks && s.tasks[t].status.Locked? && s.tasks[t].lockedBy == Some(holder)
    requires holder in s.agents && !Dead(s, holder)
    requires KeepsBeating(s, events, t, holder)
    ensures t in Run(s, events).tasks && Run(s, events).tasks[t] == s.tasks[t]
    decreases |events|
  {
    if events == [] {
    } else {
      BeatingStep(s, events[0], t, holder);
      StepKeepsInv(s, events[0]);
      BeatingHolderKeepsLease(Apply(s, events[0]), events[1..], t, holder);
    }
  }

  // ---------------------------------------------------------------------------
  // Recovery
  // ---------------------------------------------------------------------------

  /** The holder is gone, destroyed, or silent for over 90 seconds and past provisioning. */
  ghost predicate HolderLost(s: Registry, holder: AgentId) {
    || holder !in s.agents
    || s.agents[holder].status.Destroyed?
    || (SilentFor(s.agents[holder], s.now, OFFLINE_THRESHOLD_MS) && !s.agents[holder].status.Provisioning?)
  }

  /** What a release leaves of a task. */
  ghost predicate Recovered(before: Task, after: Task) {
    after == before.(status := Queued, lockedBy := None, lockedAt := None, startedAt := None, agentId := None)
  }

  /**
   Recovery, over every run: a detection cycle followed at once by a lock sweep puts a stale task back in the queue
   exactly when its holder is gone, stands marked down, or has been silent for over 90 seconds and is past
   provisioning; it leaves the task untouched otherwise.
   */
  lemma DetectThenSweepIff(start: int, events: seq<Event>, timeoutMs: nat, t: TaskId)
    requires var s := Run(Empty(start), events); t in s.tasks && Stale(s.tasks[t], s.now, timeoutMs)
    ensures var s := Run(Empty(start), events);
      && s.tasks[t].lockedBy.Some?
      && var swept, holder := Apply(Apply(s, DetectOffline), LockSweep(timeoutMs)).tasks, s.tasks[t].lockedBy.value;
      && t in swept
      && if HolderLost(s, holder) || MarkedDown(Empty(start), events, holder) then Recovered(s.tasks[t], swept[t])
         else swept[t] == s.tasks[t]
  {
    var s := Run(Empty(start), events);
    RunKeepsInv(Empty(start), events);
    assert RecordOk(s.tasks[t], s.now);
    DeadIff(Empty(start), events, s.tasks[t].lockedBy.value);
    DeadStep(s, DetectOffline, s.tasks[t].lockedBy.value);
  }

  /** The same without reference to marks, when nothing has sidestepped the holder's heartbeat since its own word. */
  lemma DetectThenSweep(before: Registry, word: Event, events: seq<Event>, timeoutMs: nat, t: TaskId, holder: AgentId)
    requires Straightforward(before, word, events, holder)
    requires var s := Run(Apply(before, word), events);
      t in s.tasks && s.tasks[t].lockedBy == Some(holder) && Stale(s.tasks[t], s.now, timeoutMs)
    ensures var s := Run(Apply(before, word), events);
      var swept := Apply(Apply(s, DetectOffline), LockSweep(timeoutMs)).tasks;
      && t in swept
      && if HolderLost(s, holder) then Recovered(s.tasks[t], swept[t]) else swept[t] == s.tasks[t]
  {
    var s := Run(Apply(before, word), events);
    StraightforwardMarks(before, word, events, holder);
    DeadStep(s, DetectOffline, holder);
    if holder in s.agents && !SilentFor(s.agents[holder], s.now, OFFLINE_THRESHOLD_MS) {
      EarnedMeansHeard(s, holder);
    }
  }

  /** A second sweep, whatever its limit, finds nothing more that the first one's limit covers. */
  lemma SecondSweepReleasesNothing(s: Registry, timeoutMs: nat, longerMs: nat)
    requires timeoutMs <= longerMs
    ensures Apply(Apply(s, LockSweep(timeoutMs)), LockSweep(longerMs)) == Apply(s, LockSweep(timeoutMs))
  {
    var once := Apply(s, LockSweep(timeoutMs));
    forall t | t in once.tasks ensures !SweptUp(once, longerMs, t) {
    }
    assert Apply(once, LockSweep(longerMs)).tasks == once.tasks;
  }

  /** A lease is never handed from one agent to another in one event: it is given up first. */
  lemma LeaseIsNotTransferred(s: Registry, e: Event, t: TaskId)
    requires t in s.tasks && t in Apply(s, e).tasks
    requires s.tasks[t].lockedBy.Some? && Apply(s, e).tasks[t].lockedBy.Some?
    requires Inv(s)
    ensures Apply(s, e).tasks[t].lockedBy == s.tasks[t].lockedBy
    ensures Apply(s, e).tasks[t].lockedAt == s.tasks[t].lockedAt
  {
    assert RecordOk(s.tasks[t], s.now);
  }

  /** After a timeout sweep, a task still locked has a holder heard of since the cutoff. */
  lemma TimeoutSweepIsThorough(s: Registry, thresholdMs: nat, t: TaskId)
    requires Reachable(s) && t in s.tasks && s.tasks[t].status.Locked?
    ensures var next, holder := Apply(s, TimeoutSweep(thresholdMs)), s.tasks[t].lockedBy;
      && holder.Some?
      && next.tasks[t] ==
        (if holder.value in s.agents && !SilentFor(s.agents[holder.value], s.now, thresholdMs) then s.tasks[t]
         else TimedOut(s.tasks[t], s.now))
  {
    ReachableInv(s);
    assert RecordOk(s.tasks[t], s.now);
    if s.tasks[t].lockedBy.value in s.agents {
      assert LivenessOk(s.agents[s.tasks[t].lockedBy.value], s.now);
    }
  }

  /** The agents a timeout sweep sets to idle are, within one cycle, marked down again. */
  lemma FreedAgentsAreDetected(s: Registry, thresholdMs: nat, a: AgentId)
    requires Reachable(s) && a in s.agents && thresholdMs >= UNREACHABLE_THRESHOLD_MS
    requires HoldsStuck(s, thresholdMs, a)
    ensures Apply(s, TimeoutSweep(thresholdMs)).agents[a].status.Idle?
    ensures Apply(Apply(s, TimeoutSweep(thresholdMs)), DetectOffline).agents[a].status.Unreachable?
  {
    ReachableInv(s);
    assert LivenessOk(s.agents[a], s.now);
  }

  // ---------------------------------------------------------------------------
  // Terminal and cancelling tasks
  // ---------------------------------------------------------------------------

  /** The only events that reach into a finished task. */
  ghost predicate Reopens(e: Event, t: TaskId) {
    e == Retry(t) || e == ConfirmCancelled(t) || e == DeleteTask(t)
  }

  lemma TerminalStep(s: Registry, e: Event, t: TaskId)
    requires Inv(s) && t in s.tasks && s.tasks[t].Terminal() && !Reopens(e, t)
    ensures t in Apply(s, e).tasks && Apply(s, e).tasks[t] == s.tasks[t]
  {
    assert RecordOk(s.tasks[t], s.now);
  }

  /** Terminal absorption: until it is retried, overwritten or deleted, a finished task keeps its whole record. */
  lemma {:induction false} TerminalAbsorption(s: Registry, events: seq<Event>, t: TaskId)
    requires Inv(s) && t in s.tasks && s.tasks[t].Terminal()
    requires forall e :: e in events ==> !Reopens(e, t)
    ensures t in Run(s, events).tasks && Run(s, events).tasks[t] == s.tasks[t]
    decreases |events|
  {
    if events == [] {
    } else {
      assert events[0] in events;
      TerminalStep(s, events[0], t);
      StepKeepsInv(s, events[0]);
      TerminalAbsorption(Apply(s, events[0]), events[1..], t);
    }
  }

  /** The only events that reach into a cancelling task. */
  ghost predicate EndsCancelling(e: Event, t: TaskId, holder: AgentId) {
    Reopens(e, t) || e == Requeue(holder)
  }

  /** One event leaves a cancelling task as it is exactly if it is none of these. */
  lemma CancellingEndsIff(s: Registry, e: Event, t: TaskId)
    requires Inv(s) && t in s.tasks && s.tasks[t].status.Cancelling? && s.tasks[t].lockedBy.Some?
    ensures t in Apply(s, e).tasks && Apply(s, e).tasks[t] == s.tasks[t]
       <==> !EndsCancelling(e, t, s.tasks[t].lockedBy.value)
  {
    if !EndsCancelling(e, t, s.tasks[t].lockedBy.value) {
      CancellingStep(s, e, t);
    }
  }

  lemma CancellingStep(s: Registry, e: Event, t: TaskId)
    requires Inv(s) && t in s.tasks && s.tasks[t].status.Cancelling?
    requires s.tasks[t].lockedBy.Some? && !EndsCancelling(e, t, s.tasks[t].lockedBy.value)
    ensures t in Apply(s, e).tasks && Apply(s, e).tasks[t] == s.tasks[t]
  {
  }

  /**
   A cancelling task is stuck: neither its agent's completion report nor any sweep moves it on, however
   long its agent is gone, and every heartbeat that reports it keeps being told to cancel it.
   */
  lemma {:induction false} CancellingIsStuck(s: Registry, events: seq<Event>, t: TaskId)
    requires Inv(s) && t in s.tasks && s.tasks[t].status.Cancelling? && s.tasks[t].lockedBy.Some?
    requires forall e :: e in events ==> !EndsCancelling(e, t, s.tasks[t].lockedBy.value)
    ensures t in Run(s, events).tasks && Run(s, events).tasks[t] == s.tasks[t]
    ensures CancelSignal(Run(s, events), Some(t)) == Some(t)
    decreases |events|
  {
    if events == [] {
    } else {
      assert events[0] in events;
      CancellingEndsIff(s, events[0], t);
      StepKeepsInv(s, events[0]);
      CancellingIsStuck(Apply(s, events[0]), events[1..], t);
    }
  }

  /**
   The cancel handshake is promised to end with the agent's completion report. It does so on no task:
   the report is turned down on every cancelling one, and takes effect exactly on locked ones.
   */
  lemma CompletionNeedsLock(s: Registry, t: TaskId, succeeded: bool, error: Option<string>)
    requires Inv(s) && t in s.tasks
    ensures Apply(s, Complete(t, succeeded, error)) != s <==> s.tasks[t].status.Locked?
  {
    var next := Apply(s, Complete(t, succeeded, error));
    if s.tasks[t].status.Locked? {
      assert !next.tasks[t].status.Locked?;
    }
  }

  /** A cancelled task whose agent then reports completion stays where it is, lock and all. */
  lemma CancellingExample(now: int)
    ensures var done := Run(Empty(now),
        [Register(1), CreateTask(7, 0, None, None), Claim(7, 1), Cancel(7), Complete(7, true, None)]);
      && 7 in done.tasks && done.tasks[7].status.Cancelling? && done.tasks[7].lockedBy == Some(1)
  {
  }

  /** Cancelling a locked task and asking with the next heartbeat: the signal names that task and no other. */
  lemma CancelReachesHolder(s: Registry, t: TaskId, current: Option<TaskId>)
    requires t in s.tasks && s.tasks[t].status.Locked?
    ensures CancelSignal(Apply(s, Cancel(t)), Some(t)) == Some(t)
    ensures current != Some(t) ==> CancelSignal(Apply(s, Cancel(t)), current) == CancelSignal(s, current)
  {
  }

  // ---------------------------------------------------------------------------
  // Liveness cascade
  // ---------------------------------------------------------------------------

  /** The status one cycle leaves an agent with, by how long it has been silent. */
  lemma DetectionOutcome(s: Registry, a: AgentId)
    requires a in s.agents
    ensures var before, after := s.agents[a], Apply(s, DetectOffline).agents[a];
      && after == before.(status := after.status)
      && after.status ==
        if before.status in {Provisioning, Destroyed} then before.status
        else if SilentFor(before, s.now, UNREACHABLE_THRESHOLD_MS) then Unreachable
        else if SilentFor(before, s.now, OFFLINE_THRESHOLD_MS) && !before.status.Unreachable? then Offline
        else before.status
  {
  }

  /** A cycle settles everything it can: running it again at the same instant changes nothing. */
  lemma DetectionIsIdempotent(s: Registry)
    ensures Apply(Apply(s, DetectOffline), DetectOffline) == Apply(s, DetectOffline)
  {
    assert Detected(Detected(s)).agents == Detected(s).agents;
  }

  /** How far down an agent is: live, offline, unreachable. */
  function Rank(status: AgentStatus): nat {
    if status.Offline? then 1 else if status.Unreachable? then 2 else 0
  }

  /** The event moves the agent back up, or removes it; the repair of phantoms takes an unreachable one to offline. */
  ghost predicate MovesUp(s: Registry, e: Event, a: AgentId)
    requires a in s.agents
  {
    var status := s.agents[a].status;
    || e == DeleteAgent(a)
    || (Rank(status) > 0 && (OwnWord(s, e, a) || Frees(s, e, a)))
    || (e.WriteStatus? && e.a == a && Rank(e.status) < Rank(status))
    || (e.MarkPhantoms? && a in e.ids && status.Unreachable?)
  }

  /** No other event moves an agent up from unreachable to offline to live, or removes it; all of these do. */
  lemma MovesUpIff(s: Registry, e: Event, a: AgentId)
    requires a in s.agents
    ensures MovesUp(s, e, a)
       <==> a !in Apply(s, e).agents || Rank(Apply(s, e).agents[a].status) < Rank(s.agents[a].status)
  {
  }

  ghost predicate NeverMovesUp(s: Registry, events: seq<Event>, a: AgentId)
    decreases |events|
  {
    events != [] ==>
      && a in s.agents
      && !MovesUp(s, events[0], a)
      && NeverMovesUp(Apply(s, events[0]), events[1..], a)
  }

  /** The agent is heard of in the event, in whatever way. */
  ghost predicate HeardIn(e: Event, a: AgentId) {
    e == Register(a) || e == Telemetry(a) || (e.Heartbeat? && e.a == a)
  }

  /** Along any run without such events an agent only moves from live to offline to unreachable. */
  lemma {:induction false} StatusOnlyDescends(s: Registry, events: seq<Event>, a: AgentId)
    requires a in s.agents && NeverMovesUp(s, events, a)
    ensures a in Run(s, events).agents
    ensures Rank(s.agents[a].status) <= Rank(Run(s, events).agents[a].status)
    ensures (forall e :: e in events ==> !HeardIn(e, a)) ==>
      Run(s, events).agents[a].lastHeartbeat == s.agents[a].lastHeartbeat
    decreases |events|
  {
    if events == [] {
    } else {
      MovesUpIff(s, events[0], a);
      assert events[0] in events;
      StatusOnlyDescends(Apply(s, events[0]), events[1..], a);
    }
  }
}
