/** The progress reporter itself: one method for each stretch of code that runs without awaiting. */
module ProgressReporter {
  import opened Wrappers
  import opened ToolCalls
  import opened Backoff
  import opened ReporterModel

  class ProgressReporter {
    const config: Config
    var activeTaskId: Option<string>
    var pendingQueue: seq<Report>
    /** When the debounce timer is due, if it is set. */
    var debounceTimer: Option<int>
    var lastReportTime: int
    var flushing: bool
    var reportsSent: nat
    var reportsFailed: nat
    /** The flushes suspended at an await. */
    var flights: seq<Flight>
    ghost var accepted: seq<Report>
    ghost var finished: seq<Report>
    ghost var clock: int
    ghost var starts: seq<int>

    ghost function State(): Reporter
      reads this
    {
      Reporter(activeTaskId, pendingQueue, debounceTimer, lastReportTime, flushing, reportsSent, reportsFailed,
               flights, accepted, finished, clock, starts)
    }

    /** The books of the task balance. */
    ghost predicate Balanced()
      reads this
    {
      Inv(config, State())
    }

    constructor (config: Config)
      ensures this.config == config && State() == IDLE && Balanced()
    {
      this.config := config;
      activeTaskId, pendingQueue, debounceTimer, lastReportTime := None, [], None, 0;
      flushing, reportsSent, reportsFailed, flights := false, 0, 0, [];
      accepted, finished, clock, starts := [], [], 0, [];
    }

    method StartTask(id: string)
      modifies this
      ensures State() == Apply(config, old(State()), Step.StartTask(id))
      ensures old(Balanced()) ==> (Balanced() <==> !old(flushing))
    {
      if Balanced() {
        FreshStartIff(config, State(), id);
      }
      activeTaskId := Some(id);
      reportsSent, reportsFailed, lastReportTime, pendingQueue := 0, 0, 0, [];
      accepted, finished := [], [];
    }

    method HandleToolCall(event: ToolCallEvent, now: int)
      modifies this
      ensures State() == Apply(config, old(State()), ToolCall(event, now))
      ensures old(Balanced()) ==> Balanced()
    {
      BalanceKept(config, State(), ToolCall(event, now));
      clock := now;
      if !config.enabled || activeTaskId.None? {
        return;
      }
      var report := Report(activeTaskId.value, event);
      pendingQueue := pendingQueue + [report];
      accepted := accepted + [report];
      var elapsed := now - lastReportTime;
      if elapsed >= config.debounceMs {
        FlushPending(now);
      } else if debounceTimer.None? {
        var remaining := config.debounceMs - elapsed;
        debounceTimer := Some(now + remaining);
      }
    }

    method DebounceTimerFires(now: int)
      requires debounceTimer.Some?
      modifies this
      ensures State() == Apply(config, old(State()), TimerFires(now))
      ensures old(Balanced()) ==> Balanced()
    {
      BalanceKept(config, State(), TimerFires(now));
      debounceTimer := None;
      clock := now;
      FlushPending(now);
    }

    /** Up to the first await: drains the queue unless a flush is already running. */
    method FlushPending(ghost now: int)
      modifies this
      ensures State() == FlushBegun(old(State()), now)
    {
      if flushing {
        return;
      }
      if |pendingQueue| == 0 {
        return;
      }
      flushing := true;
      var reports := pendingQueue;
      pendingQueue := [];
      flights := flights + [Flight(reports, 0, None)];
      starts := starts + [now];
    }

    /** An attempt to send the first report of flight `i` has come back. */
    method AttemptSettles(i: nat, ok: bool, now: int)
      requires Sending(State(), i)
      modifies this
      ensures State() == Apply(config, old(State()), Settles(i, ok, now))
      ensures old(Balanced()) ==> Balanced()
    {
      BalanceKept(config, State(), Settles(i, ok, now));
      clock := now;
      var flight := flights[i];
      if ok {
        reportsSent := reportsSent + 1;
        NextReport(i, now);
      } else if flight.attempt == config.maxRetries {
        reportsFailed := reportsFailed + 1;
        NextReport(i, now);
      } else {
        var delay := DelayAfter(flight.attempt);
        flights := flights[i := flight.(waiting := Some(delay))];
      }
    }

    /** The delay after a failed attempt: the base delay, doubled once per attempt before, within the maximum. */
    method DelayAfter(attempt: nat) returns (delay: real)
      ensures delay == ReportDelay(config.baseDelayMs, config.maxDelayMs, attempt)
    {
      delay := Min(config.baseDelayMs * Pow(2.0, attempt), config.maxDelayMs);
    }

    /** Goes on to the next report of the flight, or lands it. */
    method NextReport(i: nat, now: int)
      requires Sending(State(), i)
      modifies this
      ensures State() == Finish(old(State()), i, now)
    {
      var flight := flights[i];
      finished := finished + [flight.reports[0]];
      if |flight.reports| > 1 {
        flights := flights[i := Flight(flight.reports[1..], 0, None)];
      } else {
        flights := flights[..i] + flights[i + 1..];
        lastReportTime := now;
        flushing := false;
      }
    }

    /** The backoff delay of flight `i` is over. */
    method DelayElapses(i: nat)
      requires i < |flights| && flights[i].waiting.Some?
      modifies this
      ensures State() == Apply(config, old(State()), Wakes(i))
      ensures old(Balanced()) ==> Balanced()
    {
      BalanceKept(config, State(), Wakes(i));
      flights := flights[i := Flight(flights[i].reports, flights[i].attempt + 1, None)];
    }

    /** Stopping up to its await: no more timer, and what is pending is flushed. */
    method StopTask(now: int)
      modifies this
      ensures State() == Apply(config, old(State()), StopBegins(now))
      ensures old(Balanced()) ==> Balanced()
    {
      BalanceKept(config, State(), StopBegins(now));
      debounceTimer := None;
      clock := now;
      if |pendingQueue| > 0 {
        FlushPending(now);
      }
    }

    /** The rest of stopping, after its await: the books balance unless something was still queued. */
    method StopTaskEnds()
      modifies this
      ensures State() == Apply(config, old(State()), StopEnds)
      ensures old(Balanced()) ==> (Balanced() <==> old(pendingQueue) == [])
    {
      activeTaskId, pendingQueue := None, [];
      if old(Balanced()) && old(pendingQueue) != [] {
        assert |accepted| > |finished + InFlight(State()) + pendingQueue|;
      }
    }
  }

  lemma BalanceKept(c: Config, s: Reporter, step: Step)
    requires WithinTask(s, step)
    ensures Inv(c, s) ==> Inv(c, ReporterModel.Apply(c, s, step))
  {
    if Inv(c, s) {
      StepKeepsInv(c, s, step);
    }
  }
}
