/** Deploy phases and bootstrap phases as values: the lists, their shapes, and how one follows the other. */
module DeployModel {
  import opened Sequences
  import opened Wrappers

  datatype PhaseName = Provisioning | Installing | Configuring | Registering | Other(text: string)

  datatype PhaseStatus = Pending | Active | Completed | Failed

  datatype DeployPhase = DeployPhase(
    name: PhaseName, status: PhaseStatus, startedAt: Option<int>, completedAt: Option<int>, error: Option<string>)

  const PHASE_ORDER: seq<PhaseName> := [Provisioning, Installing, Configuring, Registering]

  datatype DeployStatus = InPhase(phase: PhaseName) | Ready | Broken | Destroyed {
    predicate Terminal() { !InPhase? }
  }

  /** The list a deploy starts with. */
  function InitialPhases(now: int): seq<DeployPhase> {
    [DeployPhase(Provisioning, Active, Some(now), None, None),
     DeployPhase(Installing, Pending, None, None, None),
     DeployPhase(Configuring, Pending, None, None, None),
     DeployPhase(Registering, Pending, None, None, None)]
  }

  // ---------------------------------------------------------------------------
  // Lookup and update by name
  // ---------------------------------------------------------------------------

  /** The first phase of this name, or the length of the list. */
  function FindPhase(phases: seq<DeployPhase>, name: PhaseName): (i: nat)
    ensures i <= |phases|
    ensures i < |phases| ==> phases[i].name == name
    ensures forall j :: 0 <= j < i ==> phases[j].name != name
  {
    FirstIndex(phases, (phase: DeployPhase) => phase.name == name)
  }

  /** The first phase of this status, or the length of the list. */
  function FindStatus(phases: seq<DeployPhase>, status: PhaseStatus): (i: nat)
    ensures i <= |phases|
    ensures i < |phases| ==> phases[i].status == status
    ensures forall j :: 0 <= j < i ==> phases[j].status != status
  {
    FirstIndex(phases, (phase: DeployPhase) => phase.status == status)
  }

  function StartIn(phases: seq<DeployPhase>, name: PhaseName, now: int): seq<DeployPhase> {
    var i := FindPhase(phases, name);
    if i < |phases| then phases[i := phases[i].(status := Active, startedAt := Some(now))] else phases
  }

  function CompleteIn(phases: seq<DeployPhase>, name: PhaseName, now: int): seq<DeployPhase> {
    var i := FindPhase(phases, name);
    if i < |phases| then phases[i := phases[i].(status := Completed, completedAt := Some(now))] else phases
  }

  function FailIn(phases: seq<DeployPhase>, name: PhaseName, error: string, now: int): seq<DeployPhase> {
    var i := FindPhase(phases, name);
    if i < |phases| then
      phases[i := phases[i].(status := Failed, completedAt := Some(now), error := Some(error))]
    else phases
  }

  /** The registry's update by name: replace the phase of that name, or add it at the end. */
  function Upsert(phases: seq<DeployPhase>, phase: DeployPhase): seq<DeployPhase> {
    var i := FindPhase(phases, phase.name);
    if i < |phases| then phases[i := phase] else phases + [phase]
  }

  ghost predicate DistinctNames(phases: seq<DeployPhase>) {
    forall i, j :: 0 <= i < j < |phases| ==> phases[i].name != phases[j].name
  }

  ghost predicate SameNames(a: seq<DeployPhase>, b: seq<DeployPhase>) {
    |a| == |b| && forall i :: 0 <= i < |a| ==> a[i].name == b[i].name
  }

  /** Writes a list phase by phase, of which only some updates are applied; the first has the given number. */
  function UpsertApplied(phases: seq<DeployPhase>, updates: seq<DeployPhase>, lost: nat -> bool, first: nat)
    : seq<DeployPhase>
    decreases |updates|
  {
    if updates == [] then phases
    else UpsertApplied(if lost(first) then phases else Upsert(phases, updates[0]), updates[1..], lost, first + 1)
  }

  /** A phase the list does not know is added at its end. */
  lemma UpsertAdds(phases: seq<DeployPhase>, phase: DeployPhase)
    requires forall i :: 0 <= i < |phases| ==> phases[i].name != phase.name
    ensures Upsert(phases, phase) == phases + [phase]
  {
  }

  lemma UpsertInPlace(phases: seq<DeployPhase>, updated: seq<DeployPhase>, k: nat)
    requires DistinctNames(phases) && SameNames(phases, updated) && k < |phases|
    ensures Upsert(phases, updated[k]) == phases[k := updated[k]]
    ensures DistinctNames(phases[k := updated[k]]) && SameNames(phases[k := updated[k]], updated)
  {
    var i := FindPhase(phases, updated[k].name);
    assert i <= k && phases[i].name == phases[k].name;
  }

  /** One list with the phases of another at the positions of a range where their update is applied. */
  ghost predicate WrittenOver(written: seq<DeployPhase>, phases: seq<DeployPhase>, updated: seq<DeployPhase>,
                              from: nat, end: nat, lost: nat -> bool, first: nat)
    requires |phases| == |updated|
  {
    && |written| == |phases|
    && forall i :: 0 <= i < |phases| ==>
         (written[i] == if from <= i < end && !lost(first + i - from) then updated[i] else phases[i])
  }

  /**
   Writing phase by phase over a list with the same distinct names: after any number of updates each phase is the
   new one if its update was sent and applied, and the old one otherwise.
   */
  lemma {:induction false} UpsertAppliedMeans(phases: seq<DeployPhase>, updated: seq<DeployPhase>, from: nat, end: nat,
                                              lost: nat -> bool, first: nat)
    requires DistinctNames(phases) && SameNames(phases, updated) && from <= end <= |phases|
    ensures WrittenOver(UpsertApplied(phases, updated[from..end], lost, first), phases, updated, from, end, lost, first)
    decreases end - from
  {
    var updates := updated[from..end];
    if from == end {
      assert updates == [];
    } else {
      assert updates[0] == updated[from] && updates[1..] == updated[from + 1..end];
      UpsertInPlace(phases, updated, from);
      if lost(first) {
        UpsertAppliedMeans(phases, updated, from + 1, end, lost, first + 1);
        WrittenLost(UpsertApplied(phases, updates, lost, first), phases, updated, from, end, lost, first);
      } else {
        UpsertAppliedMeans(phases[from := updated[from]], updated, from + 1, end, lost, first + 1);
        WrittenApplied(UpsertApplied(phases, updates, lost, first), phases, updated, from, end, lost, first);
      }
    }
  }

  lemma WrittenLost(written: seq<DeployPhase>, phases: seq<DeployPhase>, updated: seq<DeployPhase>,
                    from: nat, end: nat, lost: nat -> bool, first: nat)
    requires |phases| == |updated| && from < |phases| && lost(first)
    requires WrittenOver(written, phases, updated, from + 1, end, lost, first + 1)
    ensures WrittenOver(written, phases, updated, from, end, lost, first)
  {
  }

  lemma WrittenApplied(written: seq<DeployPhase>, phases: seq<DeployPhase>, updated: seq<DeployPhase>,
                       from: nat, end: nat, lost: nat -> bool, first: nat)
    requires |phases| == |updated| && from < end <= |phases| && !lost(first)
    requires WrittenOver(written, phases[from := updated[from]], updated, from + 1, end, lost, first + 1)
    ensures WrittenOver(written, phases, updated, from, end, lost, first)
  {
  }

  /** In particular, when all updates are sent and applied, exactly the new list is left. */
  lemma UpsertAllReplaces(phases: seq<DeployPhase>, updated: seq<DeployPhase>, lost: nat -> bool, first: nat)
    requires DistinctNames(phases) && SameNames(phases, updated)
    requires forall n :: n >= first ==> !lost(n)
    ensures UpsertApplied(phases, updated, lost, first) == updated
  {
    UpsertAppliedMeans(phases, updated, 0, |phases|, lost, first);
    assert updated[0..|phases|] == updated;
  }

  // ---------------------------------------------------------------------------
  // Shape
  // ---------------------------------------------------------------------------

  ghost predicate InOrder(phases: seq<DeployPhase>) {
    |phases| == 4 && forall i :: 0 <= i < 4 ==> phases[i].name == PHASE_ORDER[i]
  }

  /** The first `k` phases are completed, the next has the given status, all later ones are pending. */
  ghost predicate At(phases: seq<DeployPhase>, k: nat, status: PhaseStatus) {
    && InOrder(phases)
    && (forall i :: 0 <= i < 4 && i < k ==> phases[i].status.Completed?)
    && (k < 4 ==> phases[k].status == status)
    && (forall i :: k < i < 4 ==> phases[i].status.Pending?)
  }

  /** Completed phases, then at most one active or failed, then only pending ones. */
  ghost predicate Shaped(phases: seq<DeployPhase>) {
    exists k: nat, status: PhaseStatus :: k <= 4 && At(phases, k, status)
  }

  /** All of the lists have the shape. */
  ghost predicate AllShaped(lists: seq<seq<DeployPhase>>) {
    lists != [] ==> Shaped(lists[|lists| - 1]) && AllShaped(lists[..|lists| - 1])
  }

  lemma {:induction false} AllShapedMeans(lists: seq<seq<DeployPhase>>)
    ensures AllShaped(lists) <==> forall i :: 0 <= i < |lists| ==> Shaped(lists[i])
  {
    if lists == [] {
    } else {
      AllShapedMeans(lists[..|lists| - 1]);
    }
  }

  lemma {:induction false} AllShapedConcat(a: seq<seq<DeployPhase>>, b: seq<seq<DeployPhase>>)
    ensures AllShaped(a + b) <==> AllShaped(a) && AllShaped(b)
  {
    if b == [] {
      assert a + b == a;
    } else {
      assert (a + b)[..|a + b| - 1] == a + b[..|b| - 1];
      AllShapedConcat(a, b[..|b| - 1]);
    }
  }

  ghost predicate AllCompleted(phases: seq<DeployPhase>) {
    At(phases, 4, Completed)
  }

  lemma OrderedNamesAreDistinct(phases: seq<DeployPhase>)
    requires InOrder(phases)
    ensures DistinctNames(phases)
  {
    forall i, j | 0 <= i < j < 4 ensures phases[i].name != phases[j].name {
      assert phases[i].name == PHASE_ORDER[i] && phases[j].name == PHASE_ORDER[j];
    }
  }

  lemma FindInOrder(phases: seq<DeployPhase>, k: nat)
    requires InOrder(phases) && k < 4
    ensures FindPhase(phases, PHASE_ORDER[k]) == k
  {
    assert phases[k].name == PHASE_ORDER[k];
  }

  /** Each phase operation keeps the shape when applied where the sequence has arrived. */
  lemma StartKeepsShape(phases: seq<DeployPhase>, k: nat, now: int)
    requires k < 4 && At(phases, k, Pending)
    ensures At(StartIn(phases, PHASE_ORDER[k], now), k, Active)
    ensures StartIn(phases, PHASE_ORDER[k], now) == phases[k := phases[k].(status := Active, startedAt := Some(now))]
  {
    FindInOrder(phases, k);
  }

  lemma CompleteKeepsShape(phases: seq<DeployPhase>, k: nat, now: int)
    requires k < 4 && At(phases, k, Active)
    ensures At(CompleteIn(phases, PHASE_ORDER[k], now), k + 1, Pending)
    ensures k == 3 ==> AllCompleted(CompleteIn(phases, PHASE_ORDER[k], now))
    ensures CompleteIn(phases, PHASE_ORDER[k], now)
         == phases[k := phases[k].(status := Completed, completedAt := Some(now))]
  {
    FindInOrder(phases, k);
  }

  lemma FailKeepsShape(phases: seq<DeployPhase>, k: nat, error: string, now: int)
    requires k < 4 && At(phases, k, Active)
    ensures At(FailIn(phases, PHASE_ORDER[k], error, now), k, Failed)
    ensures FailIn(phases, PHASE_ORDER[k], error, now)
         == phases[k := phases[k].(status := Failed, completedAt := Some(now), error := Some(error))]
  {
    FindInOrder(phases, k);
  }

  /** A deploy starts in its first phase, with nothing else begun. */
  lemma StartOfDeploy(now: int)
    ensures var phases := InitialPhases(now);
      && At(phases, 0, Active)
      && forall i :: 0 <= i < 4 ==>
           phases[i].startedAt == (if i == 0 then Some(now) else None) && phases[i].completedAt == None && phases[i].error == None
  {
  }

  lemma ActiveIsFound(phases: seq<DeployPhase>, k: nat)
    requires k < 4 && At(phases, k, Active)
    ensures FindStatus(phases, Active) == k && phases[k].name == PHASE_ORDER[k]
  {
  }

  lemma NoneActive(phases: seq<DeployPhase>, k: nat, status: PhaseStatus)
    requires At(phases, k, status) && !status.Active?
    ensures FindStatus(phases, Active) == 4
  {
  }

  /** The phase at this position has the error. */
  ghost predicate Told(phases: seq<DeployPhase>, k: nat, error: string) {
    k < |phases| && phases[k].error == Some(error)
  }

  // ---------------------------------------------------------------------------
  // The registry's copy
  // ---------------------------------------------------------------------------

  /** One of the lists has the phase at this position. */
  ghost predicate Seen(history: seq<seq<DeployPhase>>, i: nat, phase: DeployPhase) {
    history != [] && (
      var last := history[|history| - 1];
      || (i < |last| && last[i] == phase)
      || Seen(history[..|history| - 1], i, phase))
  }

  lemma {:induction false} SeenMeans(history: seq<seq<DeployPhase>>, i: nat, phase: DeployPhase)
    ensures Seen(history, i, phase) <==> exists h :: 0 <= h < |history| && i < |history[h]| && history[h][i] == phase
  {
    if history == [] {
    } else {
      SeenMeans(history[..|history| - 1], i, phase);
    }
  }

  /** A copy that has the phases in order, each as it is now or as it was at some time. */
  ghost predicate Faithful(copy: seq<DeployPhase>, phases: seq<DeployPhase>, history: seq<seq<DeployPhase>>) {
    SameNames(copy, phases) && forall i :: 0 <= i < |copy| ==> Seen(history, i, copy[i])
  }

  /** One phase has changed, and its update has been sent. */
  lemma UpdateKeepsFaithful(copy: seq<DeployPhase>, before: seq<DeployPhase>, k: nat, phase: DeployPhase,
                            history: seq<seq<DeployPhase>>)
    requires Faithful(copy, before, history) && k < |before|
    requires FindPhase(before, phase.name) == k
    ensures var phases := before[k := phase];
      && Faithful(copy, phases, history + [phases])
      && Faithful(Upsert(copy, phase), phases, history + [phases])
      && (copy == before ==> Upsert(copy, phase) == phases)
  {
    var phases := before[k := phase];
    assert (history + [phases])[..|history|] == history;
    var i := FindPhase(copy, phase.name);
    assert copy[k].name == before[k].name == phase.name && i <= k;
    assert i == k by { assert before[i].name == copy[i].name; }
  }

  lemma RepeatKeepsFaithful(copy: seq<DeployPhase>, phases: seq<DeployPhase>, history: seq<seq<DeployPhase>>)
    requires Faithful(copy, phases, history)
    ensures Faithful(copy, phases, history + [phases])
  {
    assert (history + [phases])[..|history|] == history;
  }

  // ---------------------------------------------------------------------------
  // Retry
  // ---------------------------------------------------------------------------

  /** Position in the phase order; negative for an unknown name. */
  function OrderOf(name: PhaseName): (i: int)
    ensures i >= 0 ==> i < 4 && PHASE_ORDER[i] == name
    ensures i < 0 <==> name.Other?
  {
    match name
    case Provisioning => 0
    case Installing => 1
    case Configuring => 2
    case Registering => 3
    case Other(_) => -1
  }

  /** A phase reset by a retry from position `from`. */
  function ResetPhase(phase: DeployPhase, from: nat, now: int): DeployPhase {
    var i := OrderOf(phase.name);
    if i >= from then
      DeployPhase(phase.name, if i == from then Active else Pending, if i == from then Some(now) else None, None, None)
    else phase
  }

  function ResetFrom(phases: seq<DeployPhase>, from: nat, now: int): (reset: seq<DeployPhase>)
    ensures |reset| == |phases|
    ensures forall i :: 0 <= i < |phases| ==> reset[i] == ResetPhase(phases[i], from, now)
  {
    seq(|phases|, i requires 0 <= i < |phases| => ResetPhase(phases[i], from, now))
  }

  lemma FailedBeforeActive(phases: seq<DeployPhase>, k: nat, later: nat, m: nat, status: PhaseStatus)
    requires k < later < |phases| && phases[k].status.Failed? && phases[later].status.Active?
    ensures !At(phases, m, status)
  {
    if m <= k {
      assert !phases[later].status.Pending?;
    } else {
      assert !phases[k].status.Completed?;
    }
  }

  /**
   Retrying from position `from` a deploy that failed at `k` restores the shape exactly when it goes
   no further than the failure: later, the failed phase would stand before an active one.
   */
  lemma RetryKeepsShapeIff(phases: seq<DeployPhase>, k: nat, from: nat, now: int)
    requires k < 4 && from < 4 && At(phases, k, Failed)
    ensures from <= k ==> At(ResetFrom(phases, from, now), from, Active)
    ensures Shaped(ResetFrom(phases, from, now)) <==> from <= k
    ensures ResetFrom(phases, from, now)[..from] == phases[..from]
    ensures forall i :: from <= i < 4 ==>
      ResetFrom(phases, from, now)[i]
        == DeployPhase(phases[i].name, if i == from then Active else Pending, if i == from then Some(now) else None,
                       None, None)
  {
    ResetPositions(phases, from, now);
    if from > k {
      RetryTooLate(phases, k, from, now);
    } else {
      AtIsShaped(ResetFrom(phases, from, now), from, Active);
    }
  }

  lemma AtIsShaped(phases: seq<DeployPhase>, k: nat, status: PhaseStatus)
    requires k <= 4 && At(phases, k, status)
    ensures Shaped(phases)
  {
  }

  lemma ResetPositions(phases: seq<DeployPhase>, from: nat, now: int)
    requires InOrder(phases)
    ensures var reset := ResetFrom(phases, from, now);
      forall i :: 0 <= i < 4 ==>
        reset[i] ==
          if i < from then phases[i]
          else DeployPhase(PHASE_ORDER[i], if i == from then Active else Pending, if i == from then Some(now) else None,
                           None, None)
  {
    forall i | 0 <= i < 4 ensures OrderOf(phases[i].name) == i {
      assert phases[i].name == PHASE_ORDER[i];
    }
  }

  lemma RetryTooLate(phases: seq<DeployPhase>, k: nat, from: nat, now: int)
    requires k < from < 4 && At(phases, k, Failed)
    ensures !Shaped(ResetFrom(phases, from, now))
  {
    var reset := ResetFrom(phases, from, now);
    ResetPositions(phases, from, now);
    forall m: nat, status: PhaseStatus | m <= 4 ensures !At(reset, m, status) {
      FailedBeforeActive(reset, k, from, m, status);
    }
  }

  /** A retry that has written the first `j` phases of the reset list. */
  function Midway(phases: seq<DeployPhase>, from: nat, j: nat, now: int): seq<DeployPhase>
    requires j <= |phases|
  {
    ResetFrom(phases, from, now)[..j] + phases[j..]
  }

  /** That is what the first `j` writes leave, when none of them is lost. */
  lemma MidwayIsWritten(phases: seq<DeployPhase>, from: nat, j: nat, now: int, lost: nat -> bool, first: nat)
    requires DistinctNames(phases) && j <= |phases|
    requires forall n :: n >= first ==> !lost(n)
    ensures UpsertApplied(phases, ResetFrom(phases, from, now)[..j], lost, first) == Midway(phases, from, j, now)
  {
    UpsertAppliedMeans(phases, ResetFrom(phases, from, now), 0, j, lost, first);
  }

  /**
   Between the single writes of a retry the registry's list has the shape exactly when none of the reset phases has
   been written yet, or all of them up to the failed one have. A retry from the failed phase never loses it.
   */
  lemma RetryMidwayIff(phases: seq<DeployPhase>, k: nat, from: nat, j: nat, now: int)
    requires k < 4 && from < 4 && j <= 4 && At(phases, k, Failed)
    ensures Shaped(Midway(phases, from, j, now)) <==> j <= from || from <= k < j
    ensures from == k ==> Shaped(Midway(phases, from, j, now))
  {
    if j <= from {
      MidwayUntouched(phases, k, from, j, now);
    } else if from <= k < j {
      MidwayPastFailure(phases, k, from, j, now);
      AtIsShaped(Midway(phases, from, j, now), from, Active);
    } else {
      MidwayUnshaped(phases, k, from, j, now);
    }
  }

  lemma MidwayUntouched(phases: seq<DeployPhase>, k: nat, from: nat, j: nat, now: int)
    requires k < 4 && j <= from < 4 && At(phases, k, Failed)
    ensures Shaped(Midway(phases, from, j, now))
  {
    ResetPositions(phases, from, now);
    assert Midway(phases, from, j, now) == phases;
    AtIsShaped(phases, k, Failed);
  }

  lemma MidwayUnshaped(phases: seq<DeployPhase>, k: nat, from: nat, j: nat, now: int)
    requires k < 4 && from < j <= 4 && (from > k || k >= j) && At(phases, k, Failed)
    ensures !Shaped(Midway(phases, from, j, now))
  {
    var midway := Midway(phases, from, j, now);
    MidwayEnds(phases, k, from, j, now);
    forall m: nat, status: PhaseStatus | m <= 4 ensures !At(midway, m, status) {
      if from < k {
        ActiveBeforeFailed(midway, from, k, m, status);
      } else {
        FailedBeforeActive(midway, k, from, m, status);
      }
    }
  }

  lemma MidwayEnds(phases: seq<DeployPhase>, k: nat, from: nat, j: nat, now: int)
    requires k < 4 && from < j <= 4 && (from > k || k >= j) && At(phases, k, Failed)
    ensures var midway := Midway(phases, from, j, now);
      |midway| == 4 && midway[from].status.Active? && midway[k].status.Failed?
  {
    ResetPositions(phases, from, now);
  }

  lemma MidwayPastFailure(phases: seq<DeployPhase>, k: nat, from: nat, j: nat, now: int)
    requires from <= k < j <= 4 && At(phases, k, Failed)
    ensures At(Midway(phases, from, j, now), from, Active)
  {
    ResetPositions(phases, from, now);
  }

  lemma ActiveBeforeFailed(phases: seq<DeployPhase>, active: nat, failed: nat, m: nat, status: PhaseStatus)
    requires active < failed < |phases| && phases[active].status.Active? && phases[failed].status.Failed?
    ensures !At(phases, m, status)
  {
    if m <= active {
      assert !phases[failed].status.Pending?;
    } else {
      assert !phases[active].status.Completed?;
    }
  }

  /** A deploy that failed while installing, retried from its registering phase. */
  lemma RetryTooLateExample(now: int)
    ensures var failed := FailIn(StartIn(CompleteIn(InitialPhases(now), Provisioning, now), Installing, now),
                                 Installing, "no network", now);
      At(failed, 1, Failed) && !Shaped(ResetFrom(failed, 3, now))
  {
    var phases := InitialPhases(now);
    CompleteKeepsShape(phases, 0, now);
    StartKeepsShape(CompleteIn(phases, Provisioning, now), 1, now);
    FailKeepsShape(StartIn(CompleteIn(phases, Provisioning, now), Installing, now), 1, "no network", now);
    RetryTooLate(FailIn(StartIn(CompleteIn(phases, Provisioning, now), Installing, now), Installing, "no network", now),
                 1, 3, now);
  }

  // ---------------------------------------------------------------------------
  // Bootstrap phases
  // ---------------------------------------------------------------------------

  datatype BootName =
    | CloudInit | SshConnect | InjectSecrets | ConfigureOpenClaw | CopyRoleConfig | InstallDaemon | VerifyInstall
    | WaitRegistration

  datatype BootStatus = BootPending | BootRunning | BootCompleted | BootFailed | BootSkipped

  datatype BootPhase = BootPhase(name: BootName, status: BootStatus, error: Option<string>)

  const BOOT_ORDER: seq<BootName> :=
    [CloudInit, SshConnect, InjectSecrets, ConfigureOpenClaw, CopyRoleConfig, InstallDaemon, VerifyInstall,
     WaitRegistration]

  /** The deploy phase a bootstrap phase belongs to. */
  function Mapping(name: BootName): PhaseName {
    match name
    case CloudInit | SshConnect => Installing
    case WaitRegistration => Registering
    case _ => Configuring
  }

  /** The same by position. */
  function Target(k: nat): (m: nat)
    requires k < 8
    ensures 1 <= m <= 3 && PHASE_ORDER[m] == Mapping(BOOT_ORDER[k])
  {
    if k < 2 then 1 else if k < 7 then 2 else 3
  }

  function FindBoot(boot: seq<BootPhase>, name: BootName): (i: nat)
    ensures i <= |boot|
    ensures i < |boot| ==> boot[i].name == name
    ensures forall j :: 0 <= j < i ==> boot[j].name != name
  {
    FirstIndex(boot, (phase: BootPhase) => phase.name == name)
  }

  function FindBootStatus(boot: seq<BootPhase>, status: BootStatus): (i: nat)
    ensures i <= |boot|
    ensures i < |boot| ==> boot[i].status == status
    ensures forall j :: 0 <= j < i ==> boot[j].status != status
  {
    FirstIndex(boot, (phase: BootPhase) => phase.status == status)
  }

  ghost predicate BootInOrder(boot: seq<BootPhase>) {
    |boot| == 8 && forall i :: 0 <= i < 8 ==> boot[i].name == BOOT_ORDER[i]
  }

  /** The first `k` bootstrap phases are done, the next has the given status, all later ones are pending. */
  ghost predicate BootAt(boot: seq<BootPhase>, k: nat, status: BootStatus) {
    && BootInOrder(boot)
    && (forall i :: 0 <= i < 8 && i < k ==> boot[i].status.BootCompleted? || boot[i].status.BootSkipped?)
    && (k < 8 ==> boot[k].status == status)
    && (forall i :: k < i < 8 ==> boot[i].status.BootPending?)
  }

  lemma FindBootInOrder(boot: seq<BootPhase>, k: nat)
    requires BootInOrder(boot) && k < 8
    ensures FindBoot(boot, BOOT_ORDER[k]) == k
  {
    assert boot[k].name == BOOT_ORDER[k];
  }

  // ---------------------------------------------------------------------------
  // Following the bootstrapper
  // ---------------------------------------------------------------------------

  /** The phase lists that one reported bootstrap phase makes the deploy go through. */
  function FollowOne(phases: seq<DeployPhase>, b: BootPhase, now: int): (lists: seq<seq<DeployPhase>>) {
    var name := Mapping(b.name);
    if b.status.BootRunning? then
      var current := FindStatus(phases, Active);
      if current < |phases| then
        if phases[current].name != name then
          var left := CompleteIn(phases, phases[current].name, now);
          [left, StartIn(left, name, now)]
        else []
      else [StartIn(phases, name, now)]
    else if b.status.BootFailed? then
      [FailIn(phases, name, if b.error.GetOr("") != "" then b.error.value else "Unknown error", now)]
    else []
  }

  function LastOr(lists: seq<seq<DeployPhase>>, phases: seq<DeployPhase>): seq<DeployPhase> {
    if lists == [] then phases else lists[|lists| - 1]
  }

  /** The phase lists that a report of all bootstrap phases makes the deploy go through. */
  function Follow(phases: seq<DeployPhase>, boot: seq<BootPhase>, now: int): (lists: seq<seq<DeployPhase>>)
    decreases |boot|
  {
    if boot == [] then []
    else
      var first := FollowOne(phases, boot[0], now);
      first + Follow(LastOr(first, phases), boot[1..], now)
  }

  /** Having gone through `done`, the reports that remain lead through the rest of `all`. */
  ghost predicate Following(start: seq<DeployPhase>, done: seq<seq<DeployPhase>>, boot: seq<BootPhase>, now: int,
                            all: seq<seq<DeployPhase>>)
  {
    done + Follow(LastOr(done, start), boot, now) == all
  }

  lemma FollowingNext(start: seq<DeployPhase>, done: seq<seq<DeployPhase>>, boot: seq<BootPhase>, now: int,
                      all: seq<seq<DeployPhase>>)
    requires boot != [] && Following(start, done, boot, now, all)
    ensures var first := FollowOne(LastOr(done, start), boot[0], now);
      && Following(start, done + first, boot[1..], now, all)
      && LastOr(done + first, start) == LastOr(first, LastOr(done, start))
  {
    var first := FollowOne(LastOr(done, start), boot[0], now);
    var rest := Follow(LastOr(first, LastOr(done, start)), boot[1..], now);
    assert done + (first + rest) == done + first + rest;
  }

  lemma FollowingOver(start: seq<DeployPhase>, done: seq<seq<DeployPhase>>, now: int, all: seq<seq<DeployPhase>>)
    requires Following(start, done, [], now, all)
    ensures done == all
  {
    assert done + [] == done;
  }

  predicate Quiet(b: BootPhase) { !b.status.BootRunning? && !b.status.BootFailed? }

  lemma {:induction false} QuietReportsChangeNothing(phases: seq<DeployPhase>, boot: seq<BootPhase>, now: int)
    requires forall i :: 0 <= i < |boot| ==> Quiet(boot[i])
    ensures Follow(phases, boot, now) == []
  {
    if boot == [] {
    } else {
      assert Quiet(boot[0]);
      QuietReportsChangeNothing(phases, boot[1..], now);
    }
  }

  /** Only the one phase that is running or failed matters. */
  lemma {:induction false} OneLoudReport(phases: seq<DeployPhase>, boot: seq<BootPhase>, k: nat, now: int)
    requires k < |boot| && forall i :: 0 <= i < |boot| && i != k ==> Quiet(boot[i])
    ensures Follow(phases, boot, now) == FollowOne(phases, boot[k], now)
  {
    if k == 0 {
      var first := FollowOne(phases, boot[0], now);
      QuietReportsChangeNothing(LastOr(first, phases), boot[1..], now);
      assert first + [] == first;
    } else {
      assert Quiet(boot[0]);
      OneLoudReport(phases, boot[1..], k - 1, now);
      assert [] + FollowOne(phases, boot[k], now) == FollowOne(phases, boot[k], now);
    }
  }

  /**
   The simulation: where the deploy stands when the bootstrapper has arrived at `k` with `status`.
   Between two phases the deploy still shows the phase of the one just finished.
   */
  ghost predicate Follows(phases: seq<DeployPhase>, k: nat, status: BootStatus) {
    match status
    case BootRunning => k < 8 && At(phases, Target(k), Active)
    case BootFailed => k < 8 && At(phases, Target(k), Failed)
    case _ => k <= 8 && At(phases, if k == 0 then 1 else Target(k - 1), Active)
  }

  ghost predicate Simulates(boot: seq<BootPhase>, phases: seq<DeployPhase>) {
    exists k: nat, status: BootStatus :: k <= 8 && BootAt(boot, k, status) && Follows(phases, k, status)
  }

  lemma RunningIsFollowedAlone(phases: seq<DeployPhase>, b: BootPhase, k: nat, now: int)
    requires k < 8 && b.name == BOOT_ORDER[k] && b.status.BootRunning? && Follows(phases, k, BootPending)
    ensures var lists := FollowOne(phases, b, now);
      Follows(LastOr(lists, phases), k, BootRunning) && AllShaped(lists)
  {
    var m := if k == 0 then 1 else Target(k - 1);
    ActiveIsFound(phases, m);
    if Target(k) != m {
      OnToTheNext(phases, m, now);
      assert FollowOne(phases, b, now) == NextLists(phases, m, now);
    }
  }

  /** The lists on the way from one active phase to the next. */
  function NextLists(phases: seq<DeployPhase>, m: nat, now: int): (lists: seq<seq<DeployPhase>>)
    requires m < 3
    ensures |lists| == 2
  {
    var left := CompleteIn(phases, PHASE_ORDER[m], now);
    [left, StartIn(left, PHASE_ORDER[m + 1], now)]
  }

  lemma OnToTheNext(phases: seq<DeployPhase>, m: nat, now: int)
    requires m < 3 && At(phases, m, Active)
    ensures At(NextLists(phases, m, now)[1], m + 1, Active) && AllShaped(NextLists(phases, m, now))
  {
    var lists := NextLists(phases, m, now);
    CompleteKeepsShape(phases, m, now);
    StartKeepsShape(lists[0], m + 1, now);
    AtIsShaped(lists[0], m + 1, Pending);
    AtIsShaped(lists[1], m + 1, Active);
    assert lists[..1] == [lists[0]] && [lists[0]][..0] == [];
  }

  /** The report that phase `k` is now running takes the deploy along with it, in shape all the way. */
  lemma RunningIsFollowed(phases: seq<DeployPhase>, boot: seq<BootPhase>, k: nat, now: int)
    requires k < 8 && BootAt(boot, k, BootRunning) && Follows(phases, k, BootPending)
    ensures var lists := Follow(phases, boot, now);
      Follows(LastOr(lists, phases), k, BootRunning) && AllShaped(lists)
  {
    assert boot[k].name == BOOT_ORDER[k];
    RunningIsFollowedAlone(phases, boot[k], k, now);
    OneLoudReport(phases, boot, k, now);
  }

  /** The report that phase `k` has failed fails the deploy phase it belongs to. */
  lemma FailureIsFollowed(phases: seq<DeployPhase>, boot: seq<BootPhase>, k: nat, now: int)
    requires k < 8 && BootAt(boot, k, BootFailed) && Follows(phases, k, BootRunning)
    ensures var lists := Follow(phases, boot, now);
      && Follows(LastOr(lists, phases), k, BootFailed) && AllShaped(lists)
      && Told(LastOr(lists, phases), Target(k),
              if boot[k].error.GetOr("") != "" then boot[k].error.value else "Unknown error")
  {
    OneLoudReport(phases, boot, k, now);
    assert boot[k].name == BOOT_ORDER[k];
    var lists := FollowOne(phases, boot[k], now);
    var error := if boot[k].error.GetOr("") != "" then boot[k].error.value else "Unknown error";
    FailKeepsShape(phases, Target(k), error, now);
    AtIsShaped(lists[0], Target(k), Failed);
    assert lists[..0] == [];
  }

  /** When no deploy phase is active, a running bootstrap phase starts the one it belongs to. */
  lemma RunningStartsItsPhase(phases: seq<DeployPhase>, b: BootPhase, k: nat, now: int)
    requires k < 8 && b.name == BOOT_ORDER[k] && b.status.BootRunning? && At(phases, Target(k), Pending)
    ensures Follows(LastOr(FollowOne(phases, b, now), phases), k, BootRunning)
  {
    NoneActive(phases, Target(k), Pending);
    StartKeepsShape(phases, Target(k), now);
  }

  /** The report that a phase is done, with the next one not begun, changes nothing. */
  lemma ProgressIsQuiet(phases: seq<DeployPhase>, boot: seq<BootPhase>, k: nat, now: int)
    requires BootAt(boot, k, BootPending)
    ensures Follow(phases, boot, now) == []
  {
    QuietReportsChangeNothing(phases, boot, now);
  }

  /** Exactly the phase of this name is active. */
  ghost predicate ActiveIs(phases: seq<DeployPhase>, name: PhaseName) {
    forall m :: 0 <= m < |phases| ==> (phases[m].status.Active? <==> phases[m].name == name)
  }

  /** The bootstrap phases that make up a deploy phase. */
  function BootPhasesOf(name: PhaseName): set<BootName> {
    match name
    case Installing => {CloudInit, SshConnect}
    case Configuring => {InjectSecrets, ConfigureOpenClaw, CopyRoleConfig, InstallDaemon, VerifyInstall}
    case Registering => {WaitRegistration}
    case _ => {}
  }

  /**
   What the simulation means, by name: while the machine boots or is connected to, installing is the one active deploy
   phase; during the five configuration steps configuring is; while the registration is awaited registering is. And a
   deploy phase is completed only when all its bootstrap phases are completed or skipped.
   */
  lemma SimulationMeaning(boot: seq<BootPhase>, phases: seq<DeployPhase>, i: nat)
    requires Simulates(boot, phases) && i < 8
    ensures boot[i].status.BootRunning? && boot[i].name in {CloudInit, SshConnect} ==> ActiveIs(phases, Installing)
    ensures boot[i].status.BootRunning? ==>
      boot[i].name in {InjectSecrets, ConfigureOpenClaw, CopyRoleConfig, InstallDaemon, VerifyInstall} ==>
        ActiveIs(phases, Configuring)
    ensures boot[i].status.BootRunning? && boot[i].name == WaitRegistration ==> ActiveIs(phases, Registering)
    ensures forall m :: 0 <= m < 4 && phases[m].status.Completed? && boot[i].name in BootPhasesOf(phases[m].name) ==>
      boot[i].status.BootCompleted? || boot[i].status.BootSkipped?
  {
    var k: nat, status: BootStatus :| k <= 8 && BootAt(boot, k, status) && Follows(phases, k, status);
    assert boot[i].name == BOOT_ORDER[i];
    TargetByName(i);
    if boot[i].status.BootRunning? {
      assert i == k;
      ActiveByPosition(phases, Target(k));
    }
    forall m | 0 <= m < 4 && phases[m].status.Completed? && boot[i].name in BootPhasesOf(phases[m].name)
      ensures boot[i].status.BootCompleted? || boot[i].status.BootSkipped?
    {
      assert phases[m].name == PHASE_ORDER[m] && m == Target(i);
      CompletedIsPast(phases, k, status, i);
    }
  }

  lemma TargetByName(i: nat)
    requires i < 8
    ensures BOOT_ORDER[i] in {CloudInit, SshConnect} <==> Target(i) == 1
    ensures BOOT_ORDER[i] in {InjectSecrets, ConfigureOpenClaw, CopyRoleConfig, InstallDaemon, VerifyInstall}
       <==> Target(i) == 2
    ensures BOOT_ORDER[i] == WaitRegistration <==> Target(i) == 3
    ensures forall m :: 0 <= m < 4 ==> (BOOT_ORDER[i] in BootPhasesOf(PHASE_ORDER[m]) <==> m == Target(i))
  {
  }

  lemma ActiveByPosition(phases: seq<DeployPhase>, m: nat)
    requires m < 4 && At(phases, m, Active)
    ensures ActiveIs(phases, PHASE_ORDER[m])
  {
    forall j | 0 <= j < 4 ensures phases[j].name == PHASE_ORDER[m] <==> j == m {
      assert phases[j].name == PHASE_ORDER[j];
    }
  }

  /** A completed deploy phase lies behind the bootstrapper. */
  lemma CompletedIsPast(phases: seq<DeployPhase>, k: nat, status: BootStatus, i: nat)
    requires k <= 8 && i < 8 && Follows(phases, k, status) && Target(i) < |phases| && phases[Target(i)].status.Completed?
    ensures i < k
  {
  }
}
