/**
 The progress reporter as a state machine whose steps are the stretches between two awaits. A flush
 that has been started and not yet finished is a flight: the reports it still has to deal with, the
 first of them being sent or, between two attempts, waiting to be sent again.
 */
module ReporterModel {
  import opened Wrappers
  import opened ToolCalls
  import opened Backoff

  datatype Config = Config(enabled: bool, debounceMs: int, maxRetries: nat, baseDelayMs: real, maxDelayMs: real)

  datatype Report = Report(taskId: string, event: ToolCallEvent)

  /** `waiting` is the backoff delay being slept through, if the flight is between two attempts. */
  datatype Flight = Flight(reports: seq<Report>, attempt: nat, waiting: Option<real>)

  datatype Reporter = Reporter(
    activeTask: Option<string>,
    pending: seq<Report>,
    // When the debounce timer is due, if it is set.
    timer: Option<int>,
    lastReportTime: int,
    flushing: bool,
    sent: nat,
    failed: nat,
    flights: seq<Flight>,
    // What has happened since the task started: events accepted, and reports given up or sent, in order.
    accepted: seq<Report>,
    finished: seq<Report>,
    // The latest time seen, and the times at which flushes have started.
    clock: int,
    starts: seq<int>)

  datatype Step =
    | StartTask(id: string)
    | ToolCall(event: ToolCallEvent, now: int)
    | TimerFires(now: int)
    | Settles(i: nat, ok: bool, now: int)
    | Wakes(i: nat)
    | StopBegins(now: int)
    | StopEnds

  const IDLE := Reporter(None, [], None, 0, false, 0, 0, [], [], [], 0, [])

  function Started(s: Reporter, id: string): Reporter {
    s.(activeTask := Some(id), sent := 0, failed := 0, lastReportTime := 0, pending := [],
       accepted := [], finished := [])
  }

  /** The synchronous start of a flush: nothing if one is running, otherwise it takes the whole queue. */
  function FlushBegun(s: Reporter, now: int): Reporter {
    if s.flushing || s.pending == [] then s
    else
      s.(flushing := true, flights := s.flights + [Flight(s.pending, 0, None)], pending := [],
         starts := s.starts + [now])
  }

  function Queued(s: Reporter, event: ToolCallEvent): Reporter
    requires s.activeTask.Some?
  {
    var report := Report(s.activeTask.value, event);
    s.(pending := s.pending + [report], accepted := s.accepted + [report])
  }

  /** The debounce window since the last flush has passed. */
  predicate WindowOver(c: Config, s: Reporter, now: int) { now - s.lastReportTime >= c.debounceMs }

  function Handled(c: Config, s: Reporter, event: ToolCallEvent, now: int): Reporter {
    if !c.enabled || s.activeTask.None? then s
    else
      var queued := Queued(s, event);
      if WindowOver(c, s, now) then FlushBegun(queued, now)
      else if s.timer.Some? then queued
      else queued.(timer := Some(s.lastReportTime + c.debounceMs))
  }

  /** An attempt in flight `i` is under way. */
  predicate Sending(s: Reporter, i: nat) {
    i < |s.flights| && s.flights[i].reports != [] && s.flights[i].waiting.None?
  }

  /** The first report of flight `i` is over and done with; so is the flight if it was the last one. */
  function Finish(s: Reporter, i: nat, now: int): Reporter
    requires Sending(s, i)
  {
    var flight := s.flights[i];
    var counted := s.(finished := s.finished + [flight.reports[0]]);
    if |flight.reports| > 1 then counted.(flights := s.flights[i := Flight(flight.reports[1..], 0, None)])
    else counted.(flights := s.flights[..i] + s.flights[i + 1..], flushing := false, lastReportTime := now)
  }

  /** An attempt comes back: sent, given up after the last retry, or to be tried again after a delay. */
  function Settled(c: Config, s: Reporter, i: nat, ok: bool, now: int): Reporter
    requires Sending(s, i)
  {
    var flight := s.flights[i];
    if ok then Finish(s, i, now).(sent := s.sent + 1)
    else if flight.attempt == c.maxRetries then Finish(s, i, now).(failed := s.failed + 1)
    else s.(flights := s.flights[i := flight.(waiting := Some(ReportDelay(c.baseDelayMs, c.maxDelayMs, flight.attempt)))])
  }

  function Woken(s: Reporter, i: nat): Reporter
    requires i < |s.flights|
  {
    s.(flights := s.flights[i := Flight(s.flights[i].reports, s.flights[i].attempt + 1, None)])
  }

  /** A step that is not possible in a state leaves it as it is. */
  function Apply(c: Config, s: Reporter, step: Step): Reporter {
    match step
    case StartTask(id) => Started(s, id)
    case ToolCall(event, now) => Handled(c, s.(clock := now), event, now)
    case TimerFires(now) => if s.timer.Some? then FlushBegun(s.(timer := None, clock := now), now) else s
    case Settles(i, ok, now) => if Sending(s, i) then Settled(c, s.(clock := now), i, ok, now) else s
    case Wakes(i) => if i < |s.flights| && s.flights[i].waiting.Some? then Woken(s, i) else s
    case StopBegins(now) => FlushBegun(s.(timer := None, clock := now), now)
    case StopEnds => s.(activeTask := None, pending := [])
  }

  function Run(c: Config, s: Reporter, steps: seq<Step>): Reporter
    decreases |steps|
  {
    if steps == [] then s else Run(c, Apply(c, s, steps[0]), steps[1..])
  }

  // ---------------------------------------------------------------------------
  // Conservation and order
  // ---------------------------------------------------------------------------

  /** The reports drained from the queue and not yet finished. */
  function InFlight(s: Reporter): seq<Report> {
    if s.flights == [] then [] else s.flights[0].reports
  }

  /**
   At most one flush is active and the flag says whether; every accepted event is finished, in flight
   or pending, in the order of arrival; and no flight goes beyond the last retry.
   */
  ghost predicate Inv(c: Config, s: Reporter) {
    && |s.flights| == (if s.flushing then 1 else 0)
    && (forall i :: 0 <= i < |s.flights| ==> s.flights[i].reports != [] && s.flights[i].attempt <= c.maxRetries)
    && (forall i :: 0 <= i < |s.flights| && s.flights[i].waiting.Some? ==>
          && s.flights[i].attempt < c.maxRetries
          && s.flights[i].waiting.value <= c.maxDelayMs)
    && s.accepted == s.finished + InFlight(s) + s.pending
    && s.sent + s.failed == |s.finished|
  }

  /** The steps within a task: a new task only starts between flushes, and the task is not being stopped. */
  ghost predicate WithinTask(s: Reporter, step: Step) {
    !step.StopEnds? && (step.StartTask? ==> !s.flushing)
  }

  ghost predicate RunsWithinTask(c: Config, s: Reporter, steps: seq<Step>)
    decreases |steps|
  {
    steps != [] ==> WithinTask(s, steps[0]) && RunsWithinTask(c, Apply(c, s, steps[0]), steps[1..])
  }

  lemma FlushKeepsInv(c: Config, s: Reporter, now: int)
    requires Inv(c, s)
    ensures Inv(c, FlushBegun(s, now))
  {
    if !s.flushing {
      assert s.finished + [] == s.finished;
      assert s.finished + s.pending == s.finished + s.pending + [];
    }
  }

  lemma HandlingKeepsInv(c: Config, s: Reporter, event: ToolCallEvent, now: int)
    requires Inv(c, s)
    ensures Inv(c, Handled(c, s, event, now))
  {
    if c.enabled && s.activeTask.Some? {
      var queued := Queued(s, event);
      assert queued.accepted == queued.finished + InFlight(queued) + queued.pending;
      FlushKeepsInv(c, queued, now);
    }
  }

  lemma SettlingKeepsInv(c: Config, s: Reporter, i: nat, ok: bool, now: int)
    requires Inv(c, s) && Sending(s, i)
    ensures Inv(c, Settled(c, s, i, ok, now))
  {
    var reports := s.flights[0].reports;
    assert reports == [reports[0]] + reports[1..];
    assert s.finished + reports + s.pending == s.finished + [reports[0]] + reports[1..] + s.pending;
    if |reports| == 1 {
      assert reports[1..] == [];
    }
  }

  lemma StepKeepsInv(c: Config, s: Reporter, step: Step)
    requires Inv(c, s) && WithinTask(s, step)
    ensures Inv(c, Apply(c, s, step))
  {
    match step
    case StartTask(id) =>
    case ToolCall(event, now) => HandlingKeepsInv(c, s.(clock := now), event, now);
    case TimerFires(now) => FlushKeepsInv(c, s.(timer := None, clock := now), now);
    case Settles(i, ok, now) => if Sending(s, i) { SettlingKeepsInv(c, s.(clock := now), i, ok, now); }
    case Wakes(i) =>
    case StopBegins(now) => FlushKeepsInv(c, s.(timer := None, clock := now), now);
    case StopEnds => assert false;
  }

  /**
   Conservation: in every run within tasks, at every await, accepted events are those sent, failed,
   in flight and pending; and the reports that are finished are a prefix of the events accepted.
   */
  lemma {:induction false} Conservation(c: Config, s: Reporter, steps: seq<Step>)
    requires Inv(c, s) && RunsWithinTask(c, s, steps)
    ensures var end := Run(c, s, steps);
      && Inv(c, end)
      && |end.accepted| == end.sent + end.failed + |InFlight(end)| + |end.pending|
      && end.finished <= end.accepted
      && |end.flights| <= 1
    decreases |steps|
  {
    if steps == [] {
    } else {
      StepKeepsInv(c, s, steps[0]);
      Conservation(c, Apply(c, s, steps[0]), steps[1..]);
    }
  }

  /** A task may be started at any time, but the books of the new task balance exactly if no flush is running. */
  lemma FreshStartIff(c: Config, s: Reporter, id: string)
    requires Inv(c, s)
    ensures Inv(c, Started(s, id)) <==> !s.flushing
  {
    if s.flushing {
      assert |InFlight(Started(s, id))| > 0;
    }
  }

  // ---------------------------------------------------------------------------
  // Stranded events
  // ---------------------------------------------------------------------------

  /** Whatever is pending has a timer set to flush it. */
  ghost predicate Covered(s: Reporter) { s.pending != [] ==> s.timer.Some? }

  /** The steps that leave pending events with nothing to flush them: all need a flush to be running. */
  ghost predicate Strands(c: Config, s: Reporter, step: Step) {
    s.flushing &&
    match step
    case ToolCall(event, now) => c.enabled && s.activeTask.Some? && WindowOver(c, s, now) && s.timer.None?
    case TimerFires(_) => s.timer.Some? && s.pending != []
    case StopBegins(_) => s.pending != []
    case _ => false
  }

  /**
   Debounced events are promised to go out with the next flush. A step leaves events behind without a
   timer exactly when it asks for a flush while one is running: the request is dropped, not postponed.
   */
  lemma StrandedIff(c: Config, s: Reporter, step: Step)
    requires Inv(c, s) && Covered(s)
    ensures !Covered(Apply(c, s, step)) <==> Strands(c, s, step)
  {
  }

  /** Once stranded, events stay where they are until another event arrives or the task is stopped or replaced. */
  lemma {:induction false} StrandedEventsStay(c: Config, s: Reporter, steps: seq<Step>)
    requires s.timer.None? && !s.flushing
    requires Inv(c, s)
    requires forall step :: step in steps ==> step.TimerFires? || step.Settles? || step.Wakes?
    ensures Run(c, s, steps) == s
    decreases |steps|
  {
    if steps == [] {
    } else {
      assert steps[0] in steps;
      assert Apply(c, s, steps[0]) == s;
      StrandedEventsStay(c, s, steps[1..]);
    }
  }

  /** Two events in quick succession on a fresh task: the second is stranded when the first has been sent. */
  lemma StrandedExample(c: Config, first: ToolCallEvent, second: ToolCallEvent, now: int)
    requires c.enabled && now >= c.debounceMs
    ensures var end := Run(c, IDLE, [StartTask("t"), ToolCall(first, now), ToolCall(second, now), Settles(0, true, now)]);
      && end.sent == 1 && end.flights == [] && end.timer.None?
      && end.pending == [Report("t", second)]
  {
    var s1 := Apply(c, IDLE, StartTask("t"));
    var s2 := Apply(c, s1, ToolCall(first, now));
    var s3 := Apply(c, s2, ToolCall(second, now));
    var s4 := Apply(c, s3, Settles(0, true, now));
    assert [] + [Report("t", first)] == [Report("t", first)];
    assert s2.flights == [Flight([Report("t", first)], 0, None)];
    assert s3.pending == [Report("t", second)] && s3.flights == s2.flights;
    assert s4.flights == [];
    RunOfFour(c, IDLE, StartTask("t"), ToolCall(first, now), ToolCall(second, now), Settles(0, true, now));
  }

  lemma RunOfFour(c: Config, s: Reporter, a: Step, b: Step, d: Step, e: Step)
    ensures Run(c, s, [a, b, d, e]) == Apply(c, Apply(c, Apply(c, Apply(c, s, a), b), d), e)
  {
    assert [a, b, d, e][1..] == [b, d, e] && [b, d, e][1..] == [d, e] && [d, e][1..] == [e] && [e][1..] == [];
    var s1 := Apply(c, s, a);
    var s2 := Apply(c, s1, b);
    var s3 := Apply(c, s2, d);
    assert Run(c, s3, [e]) == Run(c, Apply(c, s3, e), []);
    assert Run(c, s2, [d, e]) == Run(c, s3, [e]);
    assert Run(c, s1, [b, d, e]) == Run(c, s2, [d, e]);
  }

  // ---------------------------------------------------------------------------
  // Stopping
  // ---------------------------------------------------------------------------

  lemma {:induction false} FlightsLeavePendingAlone(c: Config, s: Reporter, steps: seq<Step>)
    requires Inv(c, s) && forall step :: step in steps ==> step.Settles? || step.Wakes?
    ensures var end := Run(c, s, steps);
      Inv(c, end) && end.pending == s.pending && end.accepted == s.accepted
    decreases |steps|
  {
    if steps == [] {
    } else {
      assert steps[0] in steps;
      StepKeepsInv(c, s, steps[0]);
      FlightsLeavePendingAlone(c, Apply(c, s, steps[0]), steps[1..]);
    }
  }

  /**
   Stopping a task flushes what is pending and throws away what is left. When no event arrives in the
   meantime and the flights have landed, every accepted event has been sent or given up, exactly if no
   flush was running, or nothing was queued behind it, when the stop began.
   */
  lemma StopLosesNothingIff(c: Config, s: Reporter, now: int, steps: seq<Step>)
    requires Inv(c, s) && forall step :: step in steps ==> step.Settles? || step.Wakes?
    requires Run(c, Apply(c, s, StopBegins(now)), steps).flights == []
    ensures var end := Run(c, Apply(c, s, StopBegins(now)), steps);
      && end.accepted == s.accepted
      && Apply(c, end, StopEnds).pending == []
      && (end.sent + end.failed == |s.accepted| <==> !s.flushing || s.pending == [])
  {
    StepKeepsInv(c, s, StopBegins(now));
    FlightsLeavePendingAlone(c, Apply(c, s, StopBegins(now)), steps);
  }

  /** An event that arrives while the flush of the one before is running is lost when the task is then stopped. */
  lemma StopLosesExample(c: Config, first: ToolCallEvent, second: ToolCallEvent, now: int)
    requires c.enabled && now >= c.debounceMs
    ensures var before := Run(c, IDLE, [StartTask("t"), ToolCall(first, now), ToolCall(second, now), StopBegins(now)]);
      var after := Apply(c, Apply(c, before, Settles(0, true, now)), StopEnds);
      && before.flushing && before.pending == [Report("t", second)]
      && after.finished == [Report("t", first)] && after.pending == [] && after.flights == []
  {
    var s1 := Apply(c, IDLE, StartTask("t"));
    var s2 := Apply(c, s1, ToolCall(first, now));
    var s3 := Apply(c, s2, ToolCall(second, now));
    var s4 := Apply(c, s3, StopBegins(now));
    assert [] + [Report("t", first)] == [Report("t", first)];
    assert s2.flights == [Flight([Report("t", first)], 0, None)];
    assert s4.pending == [Report("t", second)] && s4.flights == s2.flights;
    RunOfFour(c, IDLE, StartTask("t"), ToolCall(first, now), ToolCall(second, now), StopBegins(now));
  }

  // ---------------------------------------------------------------------------
  // Minimum interval
  // ---------------------------------------------------------------------------

  /** The clock never runs back, and a timer is never early, though it may be late. */
  ghost predicate Timely(s: Reporter, step: Step) {
    match step
    case ToolCall(_, now) => s.clock <= now
    case TimerFires(now) => s.clock <= now && (s.timer.Some? ==> s.timer.value <= now)
    case Settles(_, _, now) => s.clock <= now
    case StopBegins(now) => s.clock <= now
    case _ => true
  }

  /**
   The debounce window is in order: the last report time is no earlier than the start of the flush it ends, a timer
   is due at the end of the window, and none is set during a flush, which begins with the window over.
   */
  ghost predicate Spaced(c: Config, s: Reporter) {
    && 0 <= s.lastReportTime <= s.clock
    && (s.timer.Some? ==> s.timer.value == s.lastReportTime + c.debounceMs)
    && (s.flushing ==> s.lastReportTime + c.debounceMs <= s.clock && s.timer.None?)
    && (s.starts != [] ==>
          && s.starts[|s.starts| - 1] <= s.clock
          && (!s.flushing ==> s.starts[|s.starts| - 1] <= s.lastReportTime))
  }

  /**
   The steps that put the window out of order: a task that starts after a flush, or with an old timer still set; a
   stop that flushes within the window; and an event that is handled before a timer that is already due.
   */
  ghost predicate Breaks(c: Config, s: Reporter, step: Step) {
    match step
    case StartTask(_) =>
      || (s.timer.Some? && s.lastReportTime != 0)
      || (!s.flushing && s.starts != [] && s.starts[|s.starts| - 1] > 0)
    case StopBegins(now) => !s.flushing && s.pending != [] && now < s.lastReportTime + c.debounceMs
    case ToolCall(_, now) => c.enabled && s.activeTask.Some? && s.timer.Some? && s.timer.value <= now
    case _ => false
  }

  lemma SpacedIff(c: Config, s: Reporter, step: Step)
    requires Inv(c, s) && Spaced(c, s) && Timely(s, step)
    ensures Spaced(c, Apply(c, s, step)) <==> !Breaks(c, s, step)
  {
  }

  /** The step starts a flush less than the debounce interval after the last one was started. */
  ghost predicate StartsEarly(c: Config, s: Reporter, step: Step) {
    var starts := Apply(c, s, step).starts;
    |starts| > |s.starts| > 0 && starts[|s.starts|] < s.starts[|s.starts| - 1] + c.debounceMs
  }

  /** With the window in order only a stop can start a flush early: it does not look at the window. */
  lemma StartsEarlyIff(c: Config, s: Reporter, step: Step)
    requires Inv(c, s) && Spaced(c, s) && Timely(s, step)
    ensures StartsEarly(c, s, step) <==>
      && step.StopBegins? && !s.flushing && s.pending != []
      && s.starts != [] && step.now < s.starts[|s.starts| - 1] + c.debounceMs
  {
  }

  ghost predicate Apart(c: Config, starts: seq<int>) {
    forall i :: 0 <= i < |starts| - 1 ==> starts[i] + c.debounceMs <= starts[i + 1]
  }

  ghost predicate KeepsWindow(c: Config, s: Reporter, steps: seq<Step>)
    decreases |steps|
  {
    steps != [] ==>
      && WithinTask(s, steps[0]) && Timely(s, steps[0]) && !Breaks(c, s, steps[0])
      && KeepsWindow(c, Apply(c, s, steps[0]), steps[1..])
  }

  lemma StepKeepsApart(c: Config, s: Reporter, step: Step)
    requires Inv(c, s) && Spaced(c, s) && Timely(s, step) && !Breaks(c, s, step) && Apart(c, s.starts)
    ensures Apart(c, Apply(c, s, step).starts)
  {
    StartsEarlyIff(c, s, step);
  }

  /** The minimum interval between progress reports: no two flushes start closer than the debounce interval. */
  lemma {:induction false} MinimumInterval(c: Config, s: Reporter, steps: seq<Step>)
    requires Inv(c, s) && Spaced(c, s) && Apart(c, s.starts) && KeepsWindow(c, s, steps)
    ensures var end := Run(c, s, steps); Inv(c, end) && Spaced(c, end) && Apart(c, end.starts)
    decreases |steps|
  {
    if steps == [] {
    } else {
      StepKeepsInv(c, s, steps[0]);
      SpacedIff(c, s, steps[0]);
      StepKeepsApart(c, s, steps[0]);
      MinimumInterval(c, Apply(c, s, steps[0]), steps[1..]);
    }
  }

  /** A reporter whose one event has been flushed and sent at the given time. */
  lemma FlushedOnce(c: Config, event: ToolCallEvent, now: int) returns (s: Reporter)
    requires c.enabled && 0 < c.debounceMs <= now
    ensures s == Run(c, IDLE, [StartTask("t"), ToolCall(event, now), Settles(0, true, now)])
    ensures s.activeTask == Some("t") && s.pending == [] && s.timer.None? && !s.flushing && s.flights == []
    ensures s.lastReportTime == now && s.clock == now && s.starts == [now]
  {
    var s1 := Apply(c, IDLE, StartTask("t"));
    var s2 := Apply(c, s1, ToolCall(event, now));
    s := Apply(c, s2, Settles(0, true, now));
    assert [] + [Report("t", event)] == [Report("t", event)];
    assert s2.flights == [Flight([Report("t", event)], 0, None)];
    RunOfThree(c, IDLE, StartTask("t"), ToolCall(event, now), Settles(0, true, now));
  }

  lemma RunOfThree(c: Config, s: Reporter, a: Step, b: Step, d: Step)
    ensures Run(c, s, [a, b, d]) == Apply(c, Apply(c, Apply(c, s, a), b), d)
  {
    assert [a, b, d][1..] == [b, d] && [b, d][1..] == [d] && [d][1..] == [];
    var s1 := Apply(c, s, a);
    assert Run(c, s1, [b, d]) == Run(c, Apply(c, s1, b), [d]);
  }

  /** A stop right after a flush flushes again at once. */
  lemma StopTooSoonExample(c: Config, event: ToolCallEvent, now: int)
    requires c.enabled && 2 < c.debounceMs <= now
    ensures var s := Run(c, IDLE, [StartTask("t"), ToolCall(event, now), Settles(0, true, now)]);
      Apply(c, Apply(c, s, ToolCall(event, now + 1)), StopBegins(now + 2)).starts == [now, now + 2]
  {
    var s := FlushedOnce(c, event, now);
    assert [] + [Report("t", event)] == [Report("t", event)];
  }

  /** A new task right after a flush forgets the window, and its first event is flushed at once. */
  lemma RestartTooSoonExample(c: Config, event: ToolCallEvent, now: int)
    requires c.enabled && 1 < c.debounceMs <= now
    ensures var s := Run(c, IDLE, [StartTask("t"), ToolCall(event, now), Settles(0, true, now)]);
      Apply(c, Apply(c, s, StartTask("u")), ToolCall(event, now + 1)).starts == [now, now + 1]
  {
    var s := FlushedOnce(c, event, now);
    assert [] + [Report("u", event)] == [Report("u", event)];
  }

  /** An event at the end of the window, handled before the timer due then: the late timer flushes the next event early. */
  lemma LateTimerExample(c: Config, event: ToolCallEvent, now: int)
    requires c.enabled && 2 < c.debounceMs <= now
    ensures var due := now + c.debounceMs;
      var s := Run(c, IDLE, [StartTask("t"), ToolCall(event, now), Settles(0, true, now)]);
      var waiting := Apply(c, s, ToolCall(event, now + 1));
      var sent := Run(c, waiting, [ToolCall(event, due), Settles(0, true, due), Settles(0, true, due)]);
      && waiting.timer == Some(due)
      && Apply(c, Apply(c, sent, ToolCall(event, due + 1)), TimerFires(due + 2)).starts == [now, due, due + 2]
  {
    var s := FlushedOnce(c, event, now);
    assert [] + [Report("t", event)] == [Report("t", event)];
    var sent := FlushedPastTimer(c, Apply(c, s, ToolCall(event, now + 1)), event, now);
    assert Apply(c, sent, ToolCall(event, now + c.debounceMs + 1)).pending == [Report("t", event)];
  }

  lemma FlushedPastTimer(c: Config, waiting: Reporter, event: ToolCallEvent, now: int) returns (sent: Reporter)
    requires c.enabled && 0 < c.debounceMs && waiting.activeTask == Some("t")
    requires waiting.pending == [Report("t", event)] && waiting.flights == [] && !waiting.flushing
    requires waiting.lastReportTime == now && waiting.starts == [now]
    ensures var due := now + c.debounceMs;
      sent == Run(c, waiting, [ToolCall(event, due), Settles(0, true, due), Settles(0, true, due)])
    ensures sent.activeTask == Some("t") && sent.timer == waiting.timer && sent.pending == [] && !sent.flushing
    ensures sent.lastReportTime == now + c.debounceMs && sent.starts == [now, now + c.debounceMs]
  {
    var due, report := now + c.debounceMs, Report("t", event);
    var flushed := Apply(c, waiting, ToolCall(event, due));
    assert [report] + [report] == [report, report] && [report, report][1..] == [report];
    assert flushed.flights == [Flight([report, report], 0, None)];
    var half := Apply(c, flushed, Settles(0, true, due));
    assert half.flights == [Flight([report], 0, None)];
    sent := Apply(c, half, Settles(0, true, due));
    RunOfThree(c, waiting, ToolCall(event, due), Settles(0, true, due), Settles(0, true, due));
  }
}
