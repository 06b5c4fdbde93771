/** What becomes of one report, read off the steps: how often it is tried, how long it waits, when it is given up. */
module ReportProofs {
  import opened Wrappers
  import ToolCalls
  import opened Backoff
  import opened ReporterModel

  // ---------------------------------------------------------------------------
  // Attempts
  // ---------------------------------------------------------------------------

  /** What an onlooker knows of the report being sent: its failed attempts, whether it sleeps, and how it ended. */
  datatype Watch = Watch(failures: nat, asleep: bool, sent: Option<bool>)

  const UNTRIED := Watch(0, false, None)

  /** An attempt settles while the report does not sleep; it ends at the first success, or at one failure more than the retries. */
  function Observe(maxRetries: nat, w: Watch, step: Step): Watch {
    if w.sent.Some? then w
    else
      match step
      case Settles(i, ok, _) =>
        if i != 0 || w.asleep then w
        else if ok then Watch(w.failures, false, Some(true))
        else if w.failures + 1 == maxRetries + 1 then Watch(w.failures + 1, false, Some(false))
        else Watch(w.failures + 1, true, None)
      case Wakes(i) => if i == 0 then Watch(w.failures, false, None) else w
      case _ => w
  }

  function ObserveAll(maxRetries: nat, w: Watch, steps: seq<Step>): Watch
    decreases |steps|
  {
    if steps == [] then w else ObserveAll(maxRetries, Observe(maxRetries, w, steps[0]), steps[1..])
  }

  /** A report is given up exactly at the failure after the last retry. */
  lemma {:induction false} GivenUpIff(maxRetries: nat, w: Watch, steps: seq<Step>)
    requires w.failures <= maxRetries && w.sent.None?
    ensures var end := ObserveAll(maxRetries, w, steps);
      && end.failures <= maxRetries + 1
      && (end.sent == Some(false) <==> end.failures == maxRetries + 1)
    decreases |steps|
  {
    if steps == [] {
    } else {
      var next := Observe(maxRetries, w, steps[0]);
      if next.sent.Some? {
        EndedStaysEnded(maxRetries, next, steps[1..]);
      } else {
        GivenUpIff(maxRetries, next, steps[1..]);
      }
    }
  }

  lemma {:induction false} EndedStaysEnded(maxRetries: nat, w: Watch, steps: seq<Step>)
    requires w.sent.Some?
    ensures ObserveAll(maxRetries, w, steps) == w
    decreases |steps|
  {
    if steps == [] {
    } else {
      EndedStaysEnded(maxRetries, w, steps[1..]);
    }
  }

  /** A delay that has been doubled `k` times. */
  function Doubled(delay: real, k: nat): real
    decreases k
  {
    if k == 0 then delay else Doubled(delay + delay, k - 1)
  }

  lemma {:induction false} DoubledIsPower(delay: real, k: nat)
    ensures Doubled(delay, k) == delay * Pow(2.0, k)
    decreases k
  {
    if k == 0 {
    } else {
      DoubledIsPower(delay + delay, k - 1);
      TwoMore(delay, Pow(2.0, k - 1));
    }
  }

  /** Before an attempt follows a failure, the base delay is slept through, doubled for each failure before, within the maximum. */
  ghost function SleepAfter(c: Config, failures: nat): real
    requires failures >= 1
  {
    var delay := Doubled(c.baseDelayMs, failures - 1);
    if delay < c.maxDelayMs then delay else c.maxDelayMs
  }

  lemma SleepMeaning(c: Config, failures: nat)
    requires failures >= 1
    ensures SleepAfter(c, failures) == ReportDelay(c.baseDelayMs, c.maxDelayMs, failures - 1)
  {
    DoubledIsPower(c.baseDelayMs, failures - 1);
  }

  lemma TwoMore(x: real, y: real)
    ensures (x + x) * y == x * (2.0 * y)
  {
  }

  /** The step begins a flush, or ends the report before: a report comes to the front. */
  ghost predicate ComesToFront(c: Config, before: Reporter, step: Step) {
    var s := Apply(c, before, step);
    s.flights != [] && (before.flights == [] || |s.finished| > |before.finished|)
  }

  /** The reporter is still busy with the report that was at the front, and it is as the onlooker sees it. */
  ghost predicate Tracks(c: Config, start: Reporter, s: Reporter, w: Watch) {
    && Inv(c, s) && Inv(c, start) && start.flights != [] && s.flights != []
    && w.sent.None? && w.failures <= c.maxRetries && (w.asleep ==> w.failures > 0)
    && s.flights[0].reports[0] == start.flights[0].reports[0]
    && s.flights[0].attempt == (if w.asleep then w.failures - 1 else w.failures)
    && s.flights[0].waiting ==
         (if w.asleep then Some(ReportDelay(c.baseDelayMs, c.maxDelayMs, w.failures - 1)) else None)
    && s.finished == start.finished && s.sent == start.sent && s.failed == start.failed
  }

  /** The report has been finished, and counted as sent or as failed. */
  ghost predicate Over(start: Reporter, s: Reporter, ok: bool) {
    && start.flights != [] && start.flights[0].reports != []
    && s.finished == start.finished + [start.flights[0].reports[0]]
    && s.sent == start.sent + (if ok then 1 else 0)
    && s.failed == start.failed + (if ok then 0 else 1)
  }

  lemma FrontIsUntried(c: Config, before: Reporter, step: Step)
    requires Inv(c, before) && WithinTask(before, step) && ComesToFront(c, before, step)
    ensures var s := Apply(c, before, step); Tracks(c, s, s, UNTRIED)
  {
    StepKeepsInv(c, before, step);
  }

  lemma TrackStep(c: Config, start: Reporter, s: Reporter, w: Watch, step: Step)
    requires Tracks(c, start, s, w) && WithinTask(s, step)
    ensures var next := Observe(c.maxRetries, w, step);
      if next.sent.Some? then Over(start, Apply(c, s, step), next.sent.value)
      else Tracks(c, start, Apply(c, s, step), next)
  {
    StepKeepsInv(c, s, step);
  }

  lemma {:induction false} TrackRun(c: Config, start: Reporter, s: Reporter, w: Watch, steps: seq<Step>)
    requires Tracks(c, start, s, w) && RunsWithinTask(c, s, steps)
    requires ObserveAll(c.maxRetries, w, steps).sent.None?
    ensures Tracks(c, start, Run(c, s, steps), ObserveAll(c.maxRetries, w, steps))
    decreases |steps|
  {
    if steps == [] {
    } else {
      var next := Observe(c.maxRetries, w, steps[0]);
      TrackStep(c, start, s, w, steps[0]);
      if next.sent.Some? {
        EndedStaysEnded(c.maxRetries, next, steps[1..]);
      }
      TrackRun(c, start, Apply(c, s, steps[0]), next, steps[1..]);
    }
  }

  /**
   From the moment a report comes to the front, and as long as no attempt has succeeded and no more than the retries
   have failed, it is at the front and nothing is counted; after its k-th failure it sleeps for the base delay doubled
   k - 1 times, within the maximum.
   */
  lemma ReportIsRetried(c: Config, before: Reporter, step: Step, steps: seq<Step>)
    requires Inv(c, before) && WithinTask(before, step) && ComesToFront(c, before, step)
    requires RunsWithinTask(c, Apply(c, before, step), steps)
    requires ObserveAll(c.maxRetries, UNTRIED, steps).sent.None?
    ensures var start, w := Apply(c, before, step), ObserveAll(c.maxRetries, UNTRIED, steps);
      var end := Run(c, start, steps);
      && start.flights != [] && end.flights != []
      && start.flights[0].reports != [] && end.flights[0].reports != []
      && end.flights[0].reports[0] == start.flights[0].reports[0]
      && end.finished == start.finished && end.sent == start.sent && end.failed == start.failed
      && (w.asleep ==>
            && w.failures >= 1
            && end.flights[0].waiting == Some(SleepAfter(c, w.failures)))
      && (!w.asleep ==> end.flights[0].waiting == None)
  {
    var start := Apply(c, before, step);
    FrontIsUntried(c, before, step);
    TrackRun(c, start, start, UNTRIED, steps);
    var w := ObserveAll(c.maxRetries, UNTRIED, steps);
    if w.asleep {
      SleepMeaning(c, w.failures);
    }
  }

  /** The step that brings the first success, or the last failure, finishes exactly that report and counts it. */
  lemma ReportIsFinished(c: Config, before: Reporter, step: Step, steps: seq<Step>, last: Step)
    requires Inv(c, before) && WithinTask(before, step) && ComesToFront(c, before, step)
    requires RunsWithinTask(c, Apply(c, before, step), steps)
    requires WithinTask(Run(c, Apply(c, before, step), steps), last)
    requires var w := ObserveAll(c.maxRetries, UNTRIED, steps); w.sent.None? && Observe(c.maxRetries, w, last).sent.Some?
    ensures var start := Apply(c, before, step);
      var ok := Observe(c.maxRetries, ObserveAll(c.maxRetries, UNTRIED, steps), last).sent.value;
      Over(start, Apply(c, Run(c, start, steps), last), ok)
  {
    var start, w := Apply(c, before, step), ObserveAll(c.maxRetries, UNTRIED, steps);
    FrontIsUntried(c, before, step);
    TrackRun(c, start, start, UNTRIED, steps);
    TrackStep(c, start, Run(c, start, steps), w, last);
  }

  // ---------------------------------------------------------------------------
  // Arrivals, starting and stopping
  // ---------------------------------------------------------------------------

  /** The reports of the events that arrive, for the task that is active. */
  function Arrivals(c: Config, task: Option<string>, steps: seq<Step>): seq<Report> {
    if steps == [] then []
    else
      (match steps[0]
       case ToolCall(event, _) => if c.enabled && task.Some? then [Report(task.value, event)] else []
       case _ => [])
      + Arrivals(c, task, steps[1..])
  }

  /** Within a task, what is accepted is what arrives, in order. */
  lemma {:induction false} AcceptedInOrder(c: Config, s: Reporter, steps: seq<Step>)
    requires forall step :: step in steps ==> !step.StartTask? && !step.StopEnds?
    ensures Run(c, s, steps).accepted == s.accepted + Arrivals(c, s.activeTask, steps)
    ensures Run(c, s, steps).activeTask == s.activeTask
    decreases |steps|
  {
    if steps == [] {
      assert s.accepted + [] == s.accepted;
    } else {
      var step, rest := steps[0], steps[1..];
      assert step in steps;
      var next := Apply(c, s, step);
      AcceptedByStep(c, s, step);
      AcceptedInOrder(c, next, rest);
      ArrivalsUnfold(c, s.activeTask, steps);
      assert (s.accepted + Arrivals(c, s.activeTask, [step])) + Arrivals(c, s.activeTask, rest)
          == s.accepted + (Arrivals(c, s.activeTask, [step]) + Arrivals(c, s.activeTask, rest));
    }
  }

  lemma ArrivalsUnfold(c: Config, task: Option<string>, steps: seq<Step>)
    requires steps != []
    ensures Arrivals(c, task, steps) == Arrivals(c, task, [steps[0]]) + Arrivals(c, task, steps[1..])
  {
    assert [steps[0]][1..] == [];
  }

  lemma AcceptedByStep(c: Config, s: Reporter, step: Step)
    requires !step.StartTask? && !step.StopEnds?
    ensures Apply(c, s, step).activeTask == s.activeTask
    ensures Apply(c, s, step).accepted == s.accepted + Arrivals(c, s.activeTask, [step])
  {
    assert [step][1..] == [];
    assert s.accepted + [] == s.accepted;
  }

  /**
   An event that arrives outside the debounce window takes the whole queue along into a flush, unless one is running;
   otherwise it waits, and the timer is set to the end of the window if the window is open and no timer is set.
   */
  lemma ArrivalOutcome(c: Config, s: Reporter, event: ToolCalls.ToolCallEvent, now: int)
    ensures var next := Apply(c, s, ToolCall(event, now));
      if !c.enabled || s.activeTask.None? then next == s.(clock := now)
      else
        var report := Report(s.activeTask.value, event);
        next ==
          if now - s.lastReportTime >= c.debounceMs && !s.flushing then
            s.(clock := now, accepted := s.accepted + [report], pending := [], flushing := true,
               flights := s.flights + [Flight(s.pending + [report], 0, None)], starts := s.starts + [now])
          else if now - s.lastReportTime >= c.debounceMs || s.timer.Some? then
            s.(clock := now, accepted := s.accepted + [report], pending := s.pending + [report])
          else
            s.(clock := now, accepted := s.accepted + [report], pending := s.pending + [report],
               timer := Some(s.lastReportTime + c.debounceMs))
  {
  }

  /** A report that is over makes way for the next one; the last one ends the flush and opens the window. */
  lemma FinishOutcome(c: Config, s: Reporter, ok: bool, now: int)
    requires Inv(c, s) && s.flights != [] && s.flights[0].waiting.None?
    requires ok || s.flights[0].attempt == c.maxRetries
    ensures var next, rest := Apply(c, s, Settles(0, ok, now)), s.flights[0].reports[1..];
      && next.pending == s.pending && next.timer == s.timer
      && if rest == [] then next.flights == [] && !next.flushing && next.lastReportTime == now
         else next.flights == [Flight(rest, 0, None)] && next.flushing && next.lastReportTime == s.lastReportTime
  {
  }

  /** A new task begins with clean books, and leaves a running flush and a set timer alone. */
  lemma StartOutcome(c: Config, s: Reporter, id: string)
    ensures Apply(c, s, StartTask(id)) == s.(activeTask := Some(id), sent := 0, failed := 0, lastReportTime := 0,
                                             pending := [], accepted := [], finished := [])
  {
  }

  /** After a stop nothing is accepted any more until the next task. */
  lemma StopOutcome(c: Config, s: Reporter, event: ToolCalls.ToolCallEvent, now: int)
    ensures var stopped := Apply(c, s, StopEnds);
      && stopped.activeTask == None && stopped.pending == []
      && Apply(c, stopped, ToolCall(event, now)) == stopped.(clock := now)
  {
  }
}
