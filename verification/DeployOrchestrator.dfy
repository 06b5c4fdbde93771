/**
 The deploy orchestrator with the bootstrapper it drives and the registry row it keeps up to date.
 Every call to the outside world is an `ExternalCall` that a given oracle lets succeed or throw.
 The registry row is updated in the order the updates are sent; another oracle says which of them are lost.
 */
module DeployOrchestrator {
  import opened Wrappers
  import opened DeployModel

  datatype ExternalCall =
    | EnsureSshKey | EnsureFirewall | CreateInstance | RecordInstance | WaitReady | JoinFirewall | RecordHost
    | GetRole
    | ConnectForCloudInit | WaitCloudInit | Disconnect | Connect | Perform(phase: BootName) | PollRegistration
    | SetAgentIdle | ReportReady

  /** The message a call throws with, or None when it succeeds. */
  type Oracle = ExternalCall -> Option<string>

  // ---------------------------------------------------------------------------
  // Where a run ends, read off the oracle
  // ---------------------------------------------------------------------------

  predicate Fails(throws: Oracle, call: ExternalCall) { throws(call).Some? }

  predicate CloudInitFails(throws: Oracle) {
    Fails(throws, ConnectForCloudInit) || Fails(throws, WaitCloudInit)
  }

  /** The first configuration step, from the given one on, that fails. */
  function ConfigureFailure(throws: Oracle, from: nat): (k: Option<nat>)
    requires 2 <= from <= 7
    ensures k.Some? ==> from <= k.value <= 6
    decreases 7 - from
  {
    if from == 7 then None
    else if Fails(throws, Perform(BOOT_ORDER[from])) then Some(from)
    else ConfigureFailure(throws, from + 1)
  }

  /** The position of the bootstrap phase in or right after which the bootstrap fails. */
  function BootFailure(throws: Oracle, skipCloudInit: bool): (k: Option<nat>)
    ensures k.Some? ==> k.value < 8
  {
    if !skipCloudInit && (CloudInitFails(throws) || Fails(throws, Disconnect)) then Some(0)
    else if Fails(throws, Connect) then Some(1)
    else if ConfigureFailure(throws, 2).Some? then ConfigureFailure(throws, 2)
    else if Fails(throws, PollRegistration) then Some(7)
    else None
  }

  // ---------------------------------------------------------------------------
  // By name: the first call that fails, where it belongs, and what is said of it
  // ---------------------------------------------------------------------------

  /** The first call of a bootstrap that fails. */
  function FirstBootFailure(throws: Oracle, skipCloudInit: bool): (call: Option<ExternalCall>)
    ensures call.Some? ==> throws(call.value).Some?
  {
    if !skipCloudInit && Fails(throws, ConnectForCloudInit) then Some(ConnectForCloudInit)
    else if !skipCloudInit && Fails(throws, WaitCloudInit) then Some(WaitCloudInit)
    else if !skipCloudInit && Fails(throws, Disconnect) then Some(Disconnect)
    else if Fails(throws, Connect) then Some(Connect)
    else if Fails(throws, Perform(InjectSecrets)) then Some(Perform(InjectSecrets))
    else if Fails(throws, Perform(ConfigureOpenClaw)) then Some(Perform(ConfigureOpenClaw))
    else if Fails(throws, Perform(CopyRoleConfig)) then Some(Perform(CopyRoleConfig))
    else if Fails(throws, Perform(InstallDaemon)) then Some(Perform(InstallDaemon))
    else if Fails(throws, Perform(VerifyInstall)) then Some(Perform(VerifyInstall))
    else if Fails(throws, PollRegistration) then Some(PollRegistration)
    else None
  }

  /** The first call that fails while the machine is created. */
  function FirstProvisioningFailure(throws: Oracle): (call: Option<ExternalCall>)
    ensures call.Some? ==> throws(call.value).Some?
  {
    if Fails(throws, EnsureSshKey) then Some(EnsureSshKey)
    else if Fails(throws, EnsureFirewall) then Some(EnsureFirewall)
    else if Fails(throws, CreateInstance) then Some(CreateInstance)
    else if Fails(throws, RecordInstance) then Some(RecordInstance)
    else if Fails(throws, WaitReady) then Some(WaitReady)
    else if Fails(throws, JoinFirewall) then Some(JoinFirewall)
    else if Fails(throws, RecordHost) then Some(RecordHost)
    else None
  }

  /** The first call that fails from the look-up of the role to the end of the bootstrap. */
  function FirstInstallFailure(throws: Oracle): (call: Option<ExternalCall>)
    ensures call.Some? ==> throws(call.value).Some?
  {
    if Fails(throws, GetRole) then Some(GetRole) else FirstBootFailure(throws, false)
  }

  /** The first call of a deploy that fails. */
  function FirstFailure(throws: Oracle): (call: Option<ExternalCall>)
    ensures call.Some? ==> throws(call.value).Some?
  {
    if FirstProvisioningFailure(throws).Some? then FirstProvisioningFailure(throws)
    else if FirstInstallFailure(throws).Some? then FirstInstallFailure(throws)
    else if Fails(throws, SetAgentIdle) then Some(SetAgentIdle)
    else if Fails(throws, ReportReady) then Some(ReportReady)
    else None
  }

  /** The calls of a deploy in the order in which they are made. */
  const CALL_ORDER: seq<ExternalCall> :=
    [EnsureSshKey, EnsureFirewall, CreateInstance, RecordInstance, WaitReady, JoinFirewall, RecordHost,
     GetRole, ConnectForCloudInit, WaitCloudInit, Disconnect, Connect,
     Perform(InjectSecrets), Perform(ConfigureOpenClaw), Perform(CopyRoleConfig), Perform(InstallDaemon),
     Perform(VerifyInstall), PollRegistration, SetAgentIdle, ReportReady]

  /** The calls from a place in the order up to another one all succeed. */
  ghost predicate Succeed(throws: Oracle, from: nat, end: nat) {
    forall i :: from <= i < end && i < |CALL_ORDER| ==> throws(CALL_ORDER[i]).None?
  }

  /** Where a call stands in the order. */
  ghost function Place(call: ExternalCall): nat {
    match call
    case EnsureSshKey => 0
    case EnsureFirewall => 1
    case CreateInstance => 2
    case RecordInstance => 3
    case WaitReady => 4
    case JoinFirewall => 5
    case RecordHost => 6
    case GetRole => 7
    case ConnectForCloudInit => 8
    case WaitCloudInit => 9
    case Disconnect => 10
    case Connect => 11
    case Perform(InjectSecrets) => 12
    case Perform(ConfigureOpenClaw) => 13
    case Perform(CopyRoleConfig) => 14
    case Perform(InstallDaemon) => 15
    case Perform(_) => 16
    case PollRegistration => 17
    case SetAgentIdle => 18
    case ReportReady => 19
  }

  lemma FirstFailureInOrder(throws: Oracle)
    requires FirstFailure(throws).Some?
    ensures var k := Place(FirstFailure(throws).value);
      k < 20 && CALL_ORDER[k] == FirstFailure(throws).value && Succeed(throws, 0, k)
  {
    var k := Place(FirstFailure(throws).value);
    forall i | 0 <= i < k ensures throws(CALL_ORDER[i]).None? {
    }
  }

  /** A deploy ends at the first call in this order that fails, and at none exactly when all succeed. */
  lemma FirstFailureIff(throws: Oracle, i: nat)
    requires i < |CALL_ORDER|
    ensures FirstFailure(throws) == Some(CALL_ORDER[i]) <==> throws(CALL_ORDER[i]).Some? && Succeed(throws, 0, i)
    ensures FirstFailure(throws) == None <==> Succeed(throws, 0, |CALL_ORDER|)
  {
    if FirstFailure(throws).Some? {
      var k := Place(FirstFailure(throws).value);
      FirstFailureInOrder(throws);
      assert i < k ==> throws(CALL_ORDER[i]).None?;
      assert i > k ==> !Succeed(throws, 0, i);
      assert i != k ==> CALL_ORDER[i] != CALL_ORDER[k];
    } else {
      assert Succeed(throws, 0, 7) && Succeed(throws, 7, 20);
    }
  }

  /** The message of a bootstrap that failed; no phase is named when it failed between two of them. */
  function BootMessage(failedPhase: Option<BootName>, message: string): string {
    "Bootstrap failed at phase \"" + (if failedPhase.Some? then PhaseText(failedPhase.value) else "undefined") + "\": "
    + message
  }

  function PhaseText(name: BootName): string {
    match name
    case CloudInit => "cloud-init"
    case SshConnect => "ssh-connect"
    case InjectSecrets => "inject-secrets"
    case ConfigureOpenClaw => "configure-openclaw"
    case CopyRoleConfig => "copy-role-config"
    case InstallDaemon => "install-daemon"
    case VerifyInstall => "verify-install"
    case WaitRegistration => "wait-registration"
  }

  /** The phase a failed call of a bootstrap is blamed on. */
  function BlamedPhase(call: ExternalCall): Option<BootName> {
    match call
    case ConnectForCloudInit => Some(CloudInit)
    case WaitCloudInit => Some(CloudInit)
    case Connect => Some(SshConnect)
    case Perform(name) => Some(name)
    case PollRegistration => Some(WaitRegistration)
    case _ => None
  }

  predicate OfBootstrap(call: ExternalCall) {
    call.ConnectForCloudInit? || call.WaitCloudInit? || call.Disconnect? || call.Connect? || call.Perform?
    || call.PollRegistration?
  }

  /** What the deploy and its row are told when a call fails with a message. */
  function DeployError(call: ExternalCall, message: string): string {
    if OfBootstrap(call) then BootMessage(BlamedPhase(call), message) else message
  }

  /** What the failed phase is told: the bootstrapper reports its own failures first, in its own words. */
  function PhaseError(call: ExternalCall, message: string): string {
    if call.Connect? || call.Perform? then OrUnknown(message) else DeployError(call, message)
  }

  function OrUnknown(message: string): string { if message != "" then message else "Unknown error" }

  /** The phases before the blamed one are done, that one has failed with the error, the later ones are pending. */
  ghost predicate Blames(boot: seq<BootPhase>, name: BootName, error: string) {
    exists k :: 0 <= k < 8 && BootAt(boot, k, BootFailed) && boot[k].name == name && BootTold(boot, k, error)
  }

  /** The bootstrap phase at this position has the error. */
  ghost predicate BootTold(boot: seq<BootPhase>, k: nat, error: string) {
    k < |boot| && boot[k].error == Some(error)
  }

  /** The position of the deploy phase a call belongs to; 4 for the calls after the last phase. */
  function Position(call: ExternalCall): (k: nat)
    ensures k <= 4
  {
    match call
    case EnsureSshKey => 0
    case EnsureFirewall => 0
    case CreateInstance => 0
    case RecordInstance => 0
    case WaitReady => 0
    case JoinFirewall => 0
    case RecordHost => 0
    case GetRole => 1
    case ConnectForCloudInit => 1
    case WaitCloudInit => 1
    case Disconnect => 1
    case Connect => 1
    case Perform(_) => 2
    case PollRegistration => 3
    case SetAgentIdle => 4
    case ReportReady => 4
  }

  lemma ConfigureByName(throws: Oracle)
    ensures ConfigureFailure(throws, 2) ==
      if Fails(throws, Perform(InjectSecrets)) then Some(2)
      else if Fails(throws, Perform(ConfigureOpenClaw)) then Some(3)
      else if Fails(throws, Perform(CopyRoleConfig)) then Some(4)
      else if Fails(throws, Perform(InstallDaemon)) then Some(5)
      else if Fails(throws, Perform(VerifyInstall)) then Some(6)
      else None
  {
    assert ConfigureFailure(throws, 7) == None;
    assert ConfigureFailure(throws, 5) == if Fails(throws, Perform(InstallDaemon)) then Some(5)
      else if Fails(throws, Perform(VerifyInstall)) then Some(6) else None;
    assert ConfigureFailure(throws, 3) == if Fails(throws, Perform(ConfigureOpenClaw)) then Some(3)
      else if Fails(throws, Perform(CopyRoleConfig)) then Some(4) else ConfigureFailure(throws, 5);
  }

  /** The first failing call of a bootstrap lies in the phase at which it fails. */
  lemma BootFailureByCall(throws: Oracle, skipCloudInit: bool)
    ensures BootFailure(throws, skipCloudInit).Some? <==> FirstBootFailure(throws, skipCloudInit).Some?
    ensures BootFailure(throws, skipCloudInit).Some? ==>
      var k, call := BootFailure(throws, skipCloudInit).value, FirstBootFailure(throws, skipCloudInit).value;
      && OfBootstrap(call)
      && (BlamedPhase(call).Some? ==> BlamedPhase(call) == Some(BOOT_ORDER[k]))
      && (BlamedPhase(call).None? <==> k == 0 && !CloudInitFails(throws))
      && (call.Connect? || call.Perform? <==> 1 <= k <= 6)
      && Position(call) == Target(k)
  {
    ConfigureByName(throws);
  }

  /** How the phases stand when a call has failed: the bootstrapper reports some failures itself, the others not. */
  ghost predicate LeftBy(phases: seq<DeployPhase>, call: ExternalCall, message: string) {
    var k := Position(call);
    if k == 4 then AllCompleted(phases)
    else if call.Connect? || call.Perform? then At(phases, k, Failed) && Told(phases, k, OrUnknown(message))
    else At(phases, k, Active)
  }

  /** How a deploy ends when a call has failed: in the phase it belongs to, with what is said of it. */
  ghost predicate EndsAt(phases: seq<DeployPhase>, call: ExternalCall, message: string) {
    var k := Position(call);
    if k == 4 then AllCompleted(phases) else At(phases, k, Failed) && Told(phases, k, PhaseError(call, message))
  }

  /** Exactly the phase of this name has failed. */
  ghost predicate FailedIs(phases: seq<DeployPhase>, name: PhaseName) {
    forall m :: 0 <= m < |phases| ==> (phases[m].status.Failed? <==> phases[m].name == name)
  }

  /** Where a deploy ends, by name. */
  lemma EndsByName(phases: seq<DeployPhase>, call: ExternalCall, message: string)
    requires EndsAt(phases, call, message)
    ensures call in {EnsureSshKey, EnsureFirewall, CreateInstance, RecordInstance, WaitReady, JoinFirewall, RecordHost} ==>
      FailedIs(phases, Provisioning)
    ensures call in {GetRole, ConnectForCloudInit, WaitCloudInit, Disconnect, Connect} ==> FailedIs(phases, Installing)
    ensures call.Perform? ==> FailedIs(phases, Configuring)
    ensures call == PollRegistration ==> FailedIs(phases, Registering)
    ensures call in {SetAgentIdle, ReportReady} ==> forall m :: 0 <= m < |phases| ==> phases[m].status.Completed?
  {
    var k := Position(call);
    if k < 4 {
      forall j | 0 <= j < 4 ensures phases[j].name == PHASE_ORDER[k] <==> j == k {
        assert phases[j].name == PHASE_ORDER[j];
      }
      assert FailedIs(phases, PHASE_ORDER[k]);
    }
  }

  /** What the deploy is told about a call that throws. */
  function ErrorOf(throws: Oracle, call: ExternalCall): string
    requires throws(call).Some?
  {
    DeployError(call, throws(call).value)
  }

  /** The deploy ends where the call belongs and says what it threw; an empty message leaves its error as it was. */
  ghost predicate EndsWith(throws: Oracle, phases: seq<DeployPhase>, error: Option<string>, call: ExternalCall)
    requires throws(call).Some?
  {
    EndsAt(phases, call, throws(call).value) && (ErrorOf(throws, call) != "" ==> error == Some(ErrorOf(throws, call)))
  }

  lemma EndsWithMessage(throws: Oracle, phases: seq<DeployPhase>, error: Option<string>, call: ExternalCall,
                        message: string)
    requires throws(call).Some? && EndsAt(phases, call, throws(call).value)
    requires message == ErrorOf(throws, call) && (message != "" ==> error == Some(message))
    ensures EndsWith(throws, phases, error, call)
  {
  }

  /** How the guarded part of the sequence ends: what it throws, and where the phases stand. */
  ghost predicate GuardedEnd(throws: Oracle, phases: seq<DeployPhase>, threw: Option<string>) {
    match FirstFailure(throws)
    case None => threw == None && AllCompleted(phases)
    case Some(call) =>
      threw == Some(DeployError(call, throws(call).value)) && LeftBy(phases, call, throws(call).value)
  }

  lemma EndedProvisioning(throws: Oracle, phases: seq<DeployPhase>)
    requires FirstProvisioningFailure(throws).Some? && At(phases, 0, Active)
    ensures GuardedEnd(throws, phases, throws(FirstProvisioningFailure(throws).value))
  {
    var call := FirstProvisioningFailure(throws).value;
    assert Position(call) == 0 && !OfBootstrap(call) && !call.Connect? && !call.Perform?;
  }

  lemma EndedInstalling(throws: Oracle, phases: seq<DeployPhase>)
    requires FirstProvisioningFailure(throws).None? && FirstInstallFailure(throws).Some?
    requires var call := FirstInstallFailure(throws).value; LeftBy(phases, call, throws(call).value)
    ensures var call := FirstInstallFailure(throws).value;
      GuardedEnd(throws, phases, Some(DeployError(call, throws(call).value)))
  {
  }

  lemma EndedGoingLive(throws: Oracle, phases: seq<DeployPhase>)
    requires FirstProvisioningFailure(throws).None? && FirstInstallFailure(throws).None? && AllCompleted(phases)
    ensures GuardedEnd(throws, phases, if Fails(throws, SetAgentIdle) then throws(SetAgentIdle) else throws(ReportReady))
  {
  }

  lemma ActiveWhenLeft(phases: seq<DeployPhase>, call: ExternalCall, message: string)
    requires LeftBy(phases, call, message)
    ensures |phases| == 4
    ensures if FindStatus(phases, Active) < |phases| then
              FindStatus(phases, Active) == Position(call) && At(phases, Position(call), Active)
              && PhaseError(call, message) == DeployError(call, message)
            else EndsAt(phases, call, message)
  {
    var k := Position(call);
    if k == 4 {
      NoneActive(phases, 4, Completed);
    } else if call.Connect? || call.Perform? {
      NoneActive(phases, k, Failed);
    } else {
      ActiveIsFound(phases, k);
    }
  }

  /**
   A broken deploy can be retried without naming a phase exactly when it broke inside one of them:
   when the agent cannot be set idle, or readiness not reported, no phase is marked as failed.
   The retry then keeps the completed phases as they are and takes up the failed one.
   */
  lemma BrokenDeployIsRetryableIff(phases: seq<DeployPhase>, call: ExternalCall, message: string, now: int)
    requires EndsAt(phases, call, message)
    ensures FindStatus(phases, Failed) < |phases| <==> call != SetAgentIdle && call != ReportReady
    ensures call != SetAgentIdle && call != ReportReady ==>
      var k := Position(call);
      && k < 4
      && OrderOf(phases[FindStatus(phases, Failed)].name) == k
      && At(ResetFrom(phases, k, now), k, Active)
      && ResetFrom(phases, k, now)[..k] == phases[..k]
      && DistinctNames(phases)
  {
    var k := Position(call);
    if k < 4 {
      assert FindStatus(phases, Failed) == k;
      RetryKeepsShapeIff(phases, k, k, now);
      OrderedNamesAreDistinct(phases);
    } else {
      assert forall i :: 0 <= i < |phases| ==> phases[i].status.Completed?;
    }
  }

  /** A deploy whose one failing call is the report that it is ready fails after its last phase. */
  lemma ReadyReportExample()
    ensures var call := FirstFailure((call: ExternalCall) => if call == ReportReady then Some("down") else None);
      call == Some(ReportReady) && Position(ReportReady) == 4
  {
  }

  /** An update request; a part that is absent changes nothing. */
  datatype DeployUpdate = DeployUpdate(
    nameonly status: Option<DeployStatus> := None,
    nameonly phase: Option<DeployPhase> := None,
    nameonly error: Option<string> := None,
    nameonly instanceId: Option<string> := None,
    nameonly agentId: Option<string> := None)

  /** What an update does to the agent linked to the deploy. */
  datatype AgentWrite = NoWrite | SetIdle(id: string) | SetError(id: string)

  predicate Truthy(text: Option<string>) { text.Some? && text.value != "" }

  /** The deploy row of the registry. */
  class DeployRow {
    var status: DeployStatus
    var phases: seq<DeployPhase>
    var error: Option<string>
    var completedAt: Option<int>
    var instanceId: Option<string>
    var agentId: Option<string>

    constructor (agentId: Option<string>, now: int)
      ensures status == InPhase(Provisioning) && phases == InitialPhases(now)
      ensures error == None && completedAt == None && instanceId == None && this.agentId == agentId
    {
      status, phases, error, completedAt := InPhase(Provisioning), InitialPhases(now), None, None;
      instanceId, this.agentId := None, agentId;
    }

    /**
     The update request: each part that is given is applied, a phase by its name. A ready deploy sets the agent it
     names to idle, a failed one sets the agent of the row to error.
     */
    method Update(update: DeployUpdate, now: int) returns (agentWrite: AgentWrite)
      modifies this
      ensures status == update.status.GetOr(old(status))
      ensures phases == if update.phase.Some? then Upsert(old(phases), update.phase.value) else old(phases)
      ensures error == if update.error.Some? then update.error else old(error)
      ensures completedAt ==
        if update.status in {Some(Ready), Some(Broken), Some(Destroyed)} then Some(now) else old(completedAt)
      ensures instanceId == if Truthy(update.instanceId) then update.instanceId else old(instanceId)
      ensures agentId == if Truthy(update.agentId) then update.agentId else old(agentId)
      ensures agentWrite ==
        if update.status == Some(Ready) && Truthy(update.agentId) then SetIdle(update.agentId.value)
        else if update.status == Some(Broken) && Truthy(old(agentId)) then SetError(old(agentId).value)
        else NoWrite
    {
      var linked := agentId;
      if update.status.Some? {
        status := update.status.value;
        if status.Ready? || status.Broken? || status.Destroyed? {
          completedAt := Some(now);
        }
      }
      if Truthy(update.instanceId) {
        instanceId := update.instanceId;
      }
      if Truthy(update.agentId) {
        agentId := update.agentId;
      }
      if update.error.Some? {
        error := update.error;
      }
      if update.phase.Some? {
        var existing := FindPhase(phases, update.phase.value.name);
        if existing < |phases| {
          phases := phases[existing := update.phase.value];
        } else {
          phases := phases + [update.phase.value];
        }
      }
      if update.status == Some(Ready) && Truthy(update.agentId) {
        return SetIdle(update.agentId.value);
      }
      if update.status == Some(Broken) && Truthy(linked) {
        return SetError(linked.value);
      }
      return NoWrite;
    }
  }

  /** One report of the bootstrapper, with the deploy phases it left behind. */
  datatype BootReport = BootReport(boot: seq<BootPhase>, deploy: seq<DeployPhase>)

  /** Every report found the deploy where the bootstrapper had arrived. */
  ghost predicate AllSimulated(reports: seq<BootReport>) {
    reports != [] ==>
      && Simulates(reports[|reports| - 1].boot, reports[|reports| - 1].deploy)
      && AllSimulated(reports[..|reports| - 1])
  }

  lemma {:induction false} AllSimulatedMeans(reports: seq<BootReport>, i: nat)
    requires AllSimulated(reports) && i < |reports|
    ensures Simulates(reports[i].boot, reports[i].deploy)
  {
    if i == |reports| - 1 {
    } else {
      AllSimulatedMeans(reports[..|reports| - 1], i);
    }
  }

  lemma OneMoreSimulated(reports: seq<BootReport>, report: BootReport)
    requires AllSimulated(reports) && Simulates(report.boot, report.deploy)
    ensures AllSimulated(reports + [report])
  {
    assert (reports + [report])[..|reports|] == reports;
  }

  lemma OneMoreShaped(history: seq<seq<DeployPhase>>, phases: seq<DeployPhase>, k: nat, status: PhaseStatus)
    requires AllShaped(history) && k <= 4 && At(phases, k, status)
    ensures AllShaped(history + [phases])
  {
    AtIsShaped(phases, k, status);
    assert (history + [phases])[..|history|] == history;
  }

  /** What the first writes of a retry leave of the row: the status is written first, then the reset phases in order. */
  ghost predicate RetryWritten(status: DeployStatus, phases: seq<DeployPhase>, newStatus: DeployStatus,
                               newPhases: seq<DeployPhase>, from: nat, written: nat, lost: nat -> bool, first: nat,
                               now: int)
    requires from < 4 && written <= |phases| + 1
  {
    && newStatus == (if written > 0 && !lost(first) then InPhase(PHASE_ORDER[from]) else status)
    && newPhases ==
         UpsertApplied(phases, ResetFrom(phases, from, now)[..if written > 0 then written - 1 else 0], lost, first + 1)
  }

  lemma StatusThenPhases(status: DeployStatus, phases: seq<DeployPhase>, newStatus: DeployStatus,
                         newPhases: seq<DeployPhase>, from: nat, n: nat, lost: nat -> bool, first: nat, now: int)
    requires from < 4 && n <= |phases|
    requires newStatus == if lost(first) then status else InPhase(PHASE_ORDER[from])
    requires newPhases == UpsertApplied(phases, ResetFrom(phases, from, now)[..n], lost, first + 1)
    ensures RetryWritten(status, phases, newStatus, newPhases, from, n + 1, lost, first, now)
  {
  }

  lemma RetryReplaces(status: DeployStatus, phases: seq<DeployPhase>, newStatus: DeployStatus,
                      newPhases: seq<DeployPhase>, from: nat, lost: nat -> bool, first: nat, now: int)
    requires from < 4 && DistinctNames(phases) && forall n :: !lost(n)
    requires RetryWritten(status, phases, newStatus, newPhases, from, |phases| + 1, lost, first, now)
    ensures newPhases == ResetFrom(phases, from, now)
  {
    var reset := ResetFrom(phases, from, now);
    assert reset[..|phases|] == reset;
    UpsertAllReplaces(phases, reset, lost, first + 1);
  }

  /** What a retry leaves of the row when it is interrupted and no update is lost. */
  lemma RetryStopsMidway(status: DeployStatus, phases: seq<DeployPhase>, newStatus: DeployStatus,
                         newPhases: seq<DeployPhase>, from: nat, written: nat, lost: nat -> bool, first: nat, now: int)
    requires from < 4 && written <= |phases| && DistinctNames(phases) && forall n :: !lost(n)
    requires RetryWritten(status, phases, newStatus, newPhases, from, written, lost, first, now)
    ensures written == 0 ==> newStatus == status && newPhases == phases
    ensures written > 0 ==> newStatus == InPhase(PHASE_ORDER[from]) && newPhases == Midway(phases, from, written - 1, now)
  {
    if written > 0 {
      MidwayIsWritten(phases, from, written - 1, now, lost, first + 1);
    }
  }

  /** A retry is refused, carried out, or interrupted by a write to the registry that throws. */
  datatype RetryOutcome = NotBroken | NothingToRetry | UnknownPhase | Retrying(from: nat) | Interrupted(from: nat)

  class Orchestrator {
    const row: DeployRow
    const throws: Oracle
    /** Which updates of the row, counted from the first one sent, never arrive or are refused. */
    const lost: nat -> bool
    var phases: seq<DeployPhase>
    var status: DeployStatus
    var error: Option<string>
    var clock: int
    /** The number of updates sent. */
    var sent: nat
    /** Every phase list the deploy has gone through, and every bootstrapper report. */
    ghost var history: seq<seq<DeployPhase>>
    ghost var reports: seq<BootReport>

    constructor (row: DeployRow, throws: Oracle, lost: nat -> bool, now: int)
      ensures this.row == row && this.throws == throws && this.lost == lost && clock == now
      ensures phases == InitialPhases(now) && status == InPhase(Provisioning) && error == None
      ensures history == [InitialPhases(now)] && reports == [] && sent == 0
    {
      this.row, this.throws, this.lost, clock := row, throws, lost, now;
      phases, status, error := InitialPhases(now), InPhase(Provisioning), None;
      sent, history, reports := 0, [InitialPhases(now)], [];
    }

    ghost predicate NothingLost() {
      forall n :: !lost(n)
    }

    /**
     The registry's list is the one in memory if no update is lost; in any case it has the same phases in the same
     order, each as it is now or as it was at some time.
     */
    ghost predicate Mirrored()
      reads this, row
    {
      Mirrors(row.phases, phases, history)
    }

    ghost predicate Mirrors(copy: seq<DeployPhase>, list: seq<DeployPhase>, past: seq<seq<DeployPhase>>) {
      (NothingLost() ==> copy == list) && Faithful(copy, list, past)
    }

    /** Everything the deploy has gone through has the shape, and every report was simulated. */
    ghost predicate Orderly()
      reads this
    {
      AllShaped(history) && AllSimulated(reports)
    }

    // -------------------------------------------------------------------------
    // Phase tracking
    // -------------------------------------------------------------------------

    /** Sends an update without waiting for its answer. */
    method Send(update: DeployUpdate)
      modifies row, `sent
      ensures sent == old(sent) + 1
      ensures lost(old(sent)) ==> unchanged(row)
      ensures !lost(old(sent)) ==>
        && row.status == update.status.GetOr(old(row.status))
        && row.phases == (if update.phase.Some? then Upsert(old(row.phases), update.phase.value) else old(row.phases))
        && row.error == (if update.error.Some? then update.error else old(row.error))
        && row.completedAt ==
             (if update.status.Some? && update.status.value.Terminal() then Some(clock) else old(row.completedAt))
    {
      var arrives := !lost(sent);
      sent := sent + 1;
      if arrives {
        var agentWrite := row.Update(update, clock);
      }
    }

    /** Sends the phase at a position, if there is one, after it has changed from what it was `before`. */
    method SendPhase(ghost before: seq<DeployPhase>, i: nat, newStatus: Option<DeployStatus>, newError: Option<string>)
      requires i <= |before| == |phases|
      requires if i < |phases| then phases == before[i := phases[i]] && FindPhase(before, phases[i].name) == i
               else phases == before
      modifies row, `sent, `history
      ensures history == old(history) + [phases] && sent == old(sent) + 1
      ensures old(Mirrors(row.phases, before, history)) ==> Mirrored()
      ensures row.status == if lost(old(sent)) then old(row.status) else newStatus.GetOr(old(row.status))
      ensures row.error == if lost(old(sent)) || newError.None? then old(row.error) else newError
    {
      ghost var copy := row.phases;
      if Faithful(copy, before, history) {
        if i < |phases| {
          UpdateKeepsFaithful(copy, before, i, phases[i], history);
        } else {
          RepeatKeepsFaithful(copy, phases, history);
        }
      }
      history := history + [phases];
      Send(DeployUpdate(status := newStatus, phase := if i < |phases| then Some(phases[i]) else None,
                        error := newError));
    }

    method StartPhase(name: PhaseName)
      modifies this, row
      ensures phases == StartIn(old(phases), name, clock) && status == InPhase(name)
      ensures history == old(history) + [phases]
      ensures clock == old(clock) && reports == old(reports) && error == old(error)
      ensures old(Mirrored()) ==> Mirrored()
      ensures row.status == (if lost(old(sent)) then old(row.status) else InPhase(name)) && row.error == old(row.error)
    {
      ghost var before := phases;
      var i := FindPhase(phases, name);
      if i < |phases| {
        phases := phases[i := phases[i].(status := Active, startedAt := Some(clock))];
      }
      status := InPhase(name);
      SendPhase(before, i, Some(InPhase(name)), None);
    }

    method CompletePhase(name: PhaseName)
      modifies this, row
      ensures phases == CompleteIn(old(phases), name, clock)
      ensures history == old(history) + [phases]
      ensures clock == old(clock) && reports == old(reports) && status == old(status) && error == old(error)
      ensures old(Mirrored()) ==> Mirrored()
      ensures row.status == old(row.status) && row.error == old(row.error)
    {
      ghost var before := phases;
      var i := FindPhase(phases, name);
      if i < |phases| {
        phases := phases[i := phases[i].(status := Completed, completedAt := Some(clock))];
      }
      SendPhase(before, i, None, None);
    }

    method FailPhase(name: PhaseName, message: string)
      modifies this, row
      ensures phases == FailIn(old(phases), name, message, clock) && error == Some(message)
      ensures history == old(history) + [phases]
      ensures clock == old(clock) && reports == old(reports) && status == old(status)
      ensures old(Mirrored()) ==> Mirrored()
      ensures row.status == old(row.status) && row.error == if lost(old(sent)) then old(row.error) else Some(message)
    {
      ghost var before := phases;
      var i := FindPhase(phases, name);
      if i < |phases| {
        phases := phases[i := phases[i].(status := Failed, completedAt := Some(clock), error := Some(message))];
      }
      error := Some(message);
      SendPhase(before, i, None, Some(message));
    }

    /** Follows a report of the bootstrapper, phase by phase. */
    method UpdateBootstrapPhases(boot: seq<BootPhase>)
      modifies this, row
      ensures history == old(history) + Follow(old(phases), boot, clock)
      ensures phases == LastOr(Follow(old(phases), boot, clock), old(phases))
      ensures reports == old(reports) + [BootReport(boot, phases)]
      ensures clock == old(clock)
      ensures old(Mirrored()) ==> Mirrored()
    {
      ghost var start, before, all := phases, history, Follow(phases, boot, clock);
      ghost var done: seq<seq<DeployPhase>>, rest, mirrored := [], boot, Mirrored();
      assert done + all == all && before + done == before;
      var i := 0;
      while i < |boot|
        invariant 0 <= i <= |boot| && rest == boot[i..]
        invariant clock == old(clock) && reports == old(reports)
        invariant Following(start, done, rest, clock, all)
        invariant history == before + done && phases == LastOr(done, start)
        invariant mirrored ==> Mirrored()
      {
        FollowingNext(start, done, rest, clock, all);
        done := FollowNext(before, done, start, boot[i]);
        rest := rest[1..];
        i := i + 1;
      }
      FollowingOver(start, done, clock, all);
      reports := reports + [BootReport(boot, phases)];
    }

    /** One turn of the loop over a report. */
    method FollowNext(ghost before: seq<seq<DeployPhase>>, ghost done: seq<seq<DeployPhase>>,
                      ghost start: seq<DeployPhase>, b: BootPhase)
      returns (ghost next: seq<seq<DeployPhase>>)
      requires history == before + done && phases == LastOr(done, start)
      modifies this, row
      ensures next == done + FollowOne(LastOr(done, start), b, clock)
      ensures history == before + next && phases == LastOr(next, start)
      ensures clock == old(clock) && reports == old(reports)
      ensures old(Mirrored()) ==> Mirrored()
    {
      ghost var lists := FollowOne(phases, b, clock);
      FollowBoot(b);
      next := done + lists;
      assert before + (done + lists) == before + done + lists;
    }

    /** Follows one bootstrap phase of a report. */
    method FollowBoot(b: BootPhase)
      modifies this, row
      ensures history == old(history) + FollowOne(old(phases), b, clock)
      ensures phases == LastOr(FollowOne(old(phases), b, clock), old(phases))
      ensures clock == old(clock) && reports == old(reports)
      ensures old(Mirrored()) ==> Mirrored()
    {
      var name := Mapping(b.name);
      if b.status.BootRunning? {
        var current := FindStatus(phases, Active);
        if current < |phases| && phases[current].name != name {
          CompletePhase(phases[current].name);
          StartPhase(name);
        } else if current == |phases| {
          StartPhase(name);
        }
      }
      if b.status.BootFailed? {
        FailPhase(name, if b.error.Some? && b.error.value != "" then b.error.value else "Unknown error");
      }
    }

    // -------------------------------------------------------------------------
    // Deploy sequence
    // -------------------------------------------------------------------------

    /**
     Runs a whole deploy. Whatever throws, every phase list on the way has the shape and every report was simulated.
     The deploy ends where the first failing call belongs, and says what that call threw: in the failed phase, in the
     deploy, and in its row.
     */
    method RunDeploySequence()
      requires phases == InitialPhases(clock) && Mirrored() && Orderly()
      modifies this, row
      ensures Orderly() && Mirrored()
      ensures status == if FirstFailure(throws).None? then Ready else Broken
      ensures NothingLost() ==> row.status == status
      ensures FirstFailure(throws).None? ==> AllCompleted(phases)
      ensures FirstFailure(throws).Some? ==> EndsWith(throws, phases, error, FirstFailure(throws).value)
      ensures FirstFailure(throws).Some? && NothingLost() ==>
        row.error == Some(ErrorOf(throws, FirstFailure(throws).value)) && row.completedAt == Some(clock)
    {
      var threw := DeployAll();
      if threw.Some? {
        ghost var call := FirstFailure(throws).value;
        FailActivePhase(call, threw.value);
        Break(threw.value);
        EndsWithMessage(throws, phases, error, call, threw.value);
      }
    }

    /** The deploy and its row say that it has failed; the phases stay what they are. */
    method Break(message: string)
      requires Mirrored()
      modifies row, `status, `error, `sent
      ensures Mirrored() && status == Broken
      ensures error == if message != "" then Some(message) else old(error)
      ensures NothingLost() ==> row.status == Broken && row.error == Some(message) && row.completedAt == Some(clock)
    {
      status := Broken;
      if message != "" {
        error := Some(message);
      }
      SendOutcome(Broken, Some(message));
    }

    /** Sends the outcome of the deploy; the phases stay what they are. */
    method SendOutcome(outcome: DeployStatus, message: Option<string>)
      requires Mirrored()
      modifies row, `sent
      ensures Mirrored()
      ensures NothingLost() ==>
        && row.status == outcome
        && row.error == (if message.Some? then message else old(row.error))
        && (outcome.Ready? || outcome.Broken? ==> row.completedAt == Some(clock))
    {
      assert Mirrors(row.phases, phases, history);
      Send(DeployUpdate(status := Some(outcome), error := message));
      assert Mirrors(row.phases, phases, history);
    }

    /** Fails the phase that was under way when the sequence threw, if one was. */
    method FailActivePhase(ghost call: ExternalCall, message: string)
      requires throws(call).Some? && LeftBy(phases, call, throws(call).value) && Mirrored() && Orderly()
      requires message == DeployError(call, throws(call).value)
      modifies this, row
      ensures Orderly() && Mirrored() && clock == old(clock)
      ensures EndsAt(phases, call, throws(call).value)
    {
      var active := FindStatus(phases, Active);
      ActiveWhenLeft(phases, call, throws(call).value);
      if active < |phases| {
        FailKeepsShape(phases, active, message, clock);
        OneMoreShaped(history, FailIn(phases, PHASE_ORDER[active], message, clock), active, Failed);
        ActiveIsFound(phases, active);
        FailPhase(phases[active].name, message);
      }
    }

    /** The guarded part of the sequence, with the message of what was thrown in it. */
    method DeployAll() returns (threw: Option<string>)
      requires phases == InitialPhases(clock) && Mirrored() && Orderly()
      modifies this, row
      ensures Orderly() && Mirrored() && clock == old(clock)
      ensures threw.None? ==> status == Ready && (NothingLost() ==> row.status == Ready)
      ensures GuardedEnd(throws, phases, threw)
    {
      StartOfDeploy(clock);
      threw := Provision();
      if threw.Some? {
        EndedProvisioning(throws, phases);
        return;
      }
      BeginInstalling();
      threw := Install();
      if threw.Some? {
        EndedInstalling(throws, phases);
        return;
      }
      threw := GoLive();
      EndedGoingLive(throws, phases);
    }

    /** From the look-up of the role to the end of the bootstrap. */
    method Install() returns (threw: Option<string>)
      requires At(phases, 1, Active) && Mirrored() && Orderly()
      modifies this, row
      ensures Orderly() && Mirrored() && clock == old(clock)
      ensures match FirstInstallFailure(throws)
        case None => threw == None && At(phases, 3, Active)
        case Some(call) =>
          threw == Some(DeployError(call, throws(call).value)) && LeftBy(phases, call, throws(call).value)
    {
      if throws(GetRole).Some? {
        return throws(GetRole);
      }
      BootFailureByCall(throws, false);
      var bootstrapper := new Bootstrapper(this);
      var result := bootstrapper.Bootstrap(false);
      if !result.success {
        return Some(BootMessage(result.failedPhase, result.error));
      }
      return None;
    }

    /** The machine is there: on to the second phase. */
    method BeginInstalling()
      requires At(phases, 0, Active) && Mirrored() && Orderly()
      modifies this, row
      ensures Orderly() && Mirrored() && clock == old(clock)
      ensures At(phases, 1, Active)
    {
      CompleteKeepsShape(phases, 0, clock);
      OneMoreShaped(history, CompleteIn(phases, Provisioning, clock), 1, Pending);
      CompletePhase(Provisioning);
      StartKeepsShape(phases, 1, clock);
      OneMoreShaped(history, StartIn(phases, Installing, clock), 1, Active);
      StartPhase(Installing);
    }

    /** The last phase done, the agent is set idle and the deploy reported as ready. */
    method GoLive() returns (threw: Option<string>)
      requires At(phases, 3, Active) && Mirrored() && Orderly()
      modifies this, row
      ensures Orderly() && Mirrored() && clock == old(clock)
      ensures AllCompleted(phases)
      ensures threw == if Fails(throws, SetAgentIdle) then throws(SetAgentIdle) else throws(ReportReady)
      ensures threw.None? ==> status == Ready && (NothingLost() ==> row.status == Ready)
    {
      CompleteKeepsShape(phases, 3, clock);
      OneMoreShaped(history, CompleteIn(phases, Registering, clock), 4, Completed);
      CompletePhase(Registering);
      status := Ready;
      if throws(SetAgentIdle).Some? {
        return throws(SetAgentIdle);
      }
      if throws(ReportReady).Some? {
        return throws(ReportReady);
      }
      SendOutcome(Ready, None);
      return None;
    }

    /** The calls that create the machine; the first one that throws ends them. */
    method Provision() returns (threw: Option<string>)
      ensures match FirstProvisioningFailure(throws)
        case None => threw.None?
        case Some(call) => threw == throws(call)
    {
      if throws(EnsureSshKey).Some? { return throws(EnsureSshKey); }
      if throws(EnsureFirewall).Some? { return throws(EnsureFirewall); }
      if throws(CreateInstance).Some? { return throws(CreateInstance); }
      if throws(RecordInstance).Some? { return throws(RecordInstance); }
      if throws(WaitReady).Some? { return throws(WaitReady); }
      if throws(JoinFirewall).Some? { return throws(JoinFirewall); }
      return throws(RecordHost);
    }

    // -------------------------------------------------------------------------
    // Retry
    // -------------------------------------------------------------------------

    /**
     Resets the registry's phases from the failed or the named one on, and takes the deploy up again. The write with
     the number `throwsAt`, if there is one, throws and ends the retry; any other write may be lost. The row keeps its
     old error and its old completion time.
     */
    method RetryPhase(name: Option<PhaseName>, throwsAt: Option<nat>) returns (outcome: RetryOutcome)
      modifies this, row
      ensures var i := if name.Some? then FindPhase(old(row.phases), name.value) else FindStatus(old(row.phases), Failed);
        outcome ==
          if !old(row.status).Broken? then NotBroken
          else if i == |old(row.phases)| then NothingToRetry
          else if old(row.phases)[i].name.Other? then UnknownPhase
          else if throwsAt.Some? && throwsAt.value <= |old(row.phases)| then
            Interrupted(OrderOf(old(row.phases)[i].name))
          else Retrying(OrderOf(old(row.phases)[i].name))
      ensures !outcome.Retrying? && !outcome.Interrupted? ==> unchanged(this) && unchanged(row)
      ensures outcome.Retrying? || outcome.Interrupted? ==>
        var written := if outcome.Retrying? then |old(row.phases)| + 1 else throwsAt.value;
        && RetryWritten(old(row.status), old(row.phases), row.status, row.phases, outcome.from, written, lost, old(sent),
                        clock)
        && row.error == old(row.error) && row.completedAt == old(row.completedAt) && clock == old(clock)
      ensures outcome.Interrupted? ==> phases == old(phases) && status == old(status) && error == old(error)
      ensures outcome.Retrying? ==>
        && phases == ResetFrom(old(row.phases), outcome.from, clock)
        && status == InPhase(PHASE_ORDER[outcome.from]) && error == None
      ensures NothingLost() && DistinctNames(old(row.phases)) ==>
        && (outcome.Retrying? ==> row.phases == phases && row.status == status)
        && (outcome.Interrupted? ==>
              if throwsAt == Some(0) then row.phases == old(row.phases) && row.status.Broken?
              else row.phases == Midway(old(row.phases), outcome.from, throwsAt.value - 1, clock)
                   && row.status == InPhase(PHASE_ORDER[outcome.from]))
    {
      if !row.status.Broken? {
        return NotBroken;
      }
      var i := if name.Some? then FindPhase(row.phases, name.value) else FindStatus(row.phases, Failed);
      if i == |row.phases| {
        return NothingToRetry;
      }
      var failed := row.phases[i];
      var from := OrderOf(failed.name);
      if from == -1 {
        return UnknownPhase;
      }
      outcome := TakeUp(from, throwsAt);
      if NothingLost() && DistinctNames(old(row.phases)) {
        if outcome.Retrying? {
          RetryReplaces(old(row.status), old(row.phases), row.status, row.phases, from, lost, old(sent), clock);
        } else {
          RetryStopsMidway(old(row.status), old(row.phases), row.status, row.phases, from, throwsAt.value, lost, old(sent),
                           clock);
        }
      }
    }

    /** Writes the reset deploy to the registry, and takes it up in memory once that has gone through. */
    method TakeUp(from: nat, throwsAt: Option<nat>) returns (outcome: RetryOutcome)
      requires from < 4
      modifies this, row
      ensures outcome ==
        if throwsAt.Some? && throwsAt.value <= |old(row.phases)| then Interrupted(from) else Retrying(from)
      ensures var written := if outcome.Retrying? then |old(row.phases)| + 1 else throwsAt.value;
        RetryWritten(old(row.status), old(row.phases), row.status, row.phases, from, written, lost, old(sent), clock)
      ensures row.error == old(row.error) && row.completedAt == old(row.completedAt) && clock == old(clock)
      ensures outcome.Interrupted? ==> phases == old(phases) && status == old(status) && error == old(error)
      ensures outcome.Retrying? ==>
        phases == ResetFrom(old(row.phases), from, clock) && status == InPhase(PHASE_ORDER[from]) && error == None
    {
      var updated := ResetFrom(row.phases, from, clock);
      if throwsAt == Some(0) {
        assert updated[..0] == [];
        return Interrupted(from);
      }
      ghost var status0, phases0 := row.status, row.phases;
      Send(DeployUpdate(status := Some(InPhase(PHASE_ORDER[from]))));
      var done := WritePhases(updated, if throwsAt.Some? then Some(throwsAt.value - 1) else None);
      ghost var n := if done then |updated| else throwsAt.value - 1;
      StatusThenPhases(status0, phases0, row.status, row.phases, from, n, lost, old(sent), clock);
      if !done {
        return Interrupted(from);
      }
      phases, status, error := updated, InPhase(PHASE_ORDER[from]), None;
      return Retrying(from);
    }

    /** Writes the phases to the registry one update at a time, up to the first write that throws. */
    method WritePhases(updated: seq<DeployPhase>, throwsAt: Option<nat>) returns (done: bool)
      modifies row, `sent
      ensures done <==> throwsAt.None? || throwsAt.value >= |updated|
      ensures var written := if done then |updated| else throwsAt.value;
        row.phases == UpsertApplied(old(row.phases), updated[..written], lost, old(sent))
      ensures row.status == old(row.status) && row.error == old(row.error) && row.completedAt == old(row.completedAt)
    {
      ghost var written := if throwsAt.Some? && throwsAt.value < |updated| then throwsAt.value else |updated|;
      ghost var todo := updated[..written];
      ghost var rest, all := todo, UpsertApplied(row.phases, todo, lost, sent);
      var j := 0;
      while j < |updated|
        invariant 0 <= j <= written && sent == old(sent) + j && rest == todo[j..]
        invariant UpsertApplied(row.phases, rest, lost, sent) == all
        invariant row.status == old(row.status) && row.error == old(row.error)
        invariant row.completedAt == old(row.completedAt)
      {
        if throwsAt == Some(j) {
          return false;
        }
        assert rest[0] == updated[j];
        Send(DeployUpdate(phase := Some(updated[j])));
        rest := rest[1..];
        j := j + 1;
      }
      return true;
    }
  }

  // ---------------------------------------------------------------------------
  // Bootstrapper
  // ---------------------------------------------------------------------------

  datatype BootResult = BootResult(success: bool, error: string, failedPhase: Option<BootName>)

  function Marked(boot: seq<BootPhase>, name: BootName, status: BootStatus, error: Option<string>): seq<BootPhase> {
    var i := FindBoot(boot, name);
    if i < |boot| then boot[i := boot[i].(status := status, error := error)] else boot
  }

  lemma MarkedAt(boot: seq<BootPhase>, k: nat, from: BootStatus, status: BootStatus, error: Option<string>)
    requires k < 8 && BootAt(boot, k, from)
    ensures var marked := Marked(boot, BOOT_ORDER[k], status, error);
      if status.BootCompleted? || status.BootSkipped? then BootAt(marked, k + 1, BootPending)
      else BootAt(marked, k, status)
  {
    FindBootInOrder(boot, k);
  }

  /** A bootstrap throws what its first failing call threw, and a step it reports itself says so in both lists. */
  ghost predicate SaysWhy(throws: Oracle, skipCloudInit: bool, boot: seq<BootPhase>, phases: seq<DeployPhase>,
                          threw: Option<string>)
  {
    match FirstBootFailure(throws, skipCloudInit)
    case None => threw == None
    case Some(call) =>
      && threw == throws(call)
      && (call.Connect? || call.Perform? ==>
            && BootTold(boot, BootFailure(throws, skipCloudInit).GetOr(0), threw.value)
            && Told(phases, Position(call), OrUnknown(threw.value)))
  }

  lemma WhyCloudInit(throws: Oracle, boot: seq<BootPhase>, phases: seq<DeployPhase>, threw: Option<string>)
    requires threw.Some?
    requires threw == throws(if Fails(throws, ConnectForCloudInit) then ConnectForCloudInit
                             else if Fails(throws, WaitCloudInit) then WaitCloudInit else Disconnect)
    ensures SaysWhy(throws, false, boot, phases, threw)
  {
  }

  lemma WhyConnect(throws: Oracle, skipCloudInit: bool, boot: seq<BootPhase>, phases: seq<DeployPhase>,
                   threw: Option<string>)
    requires skipCloudInit || !(CloudInitFails(throws) || Fails(throws, Disconnect))
    requires threw.Some? && threw == throws(Connect)
    requires BootTold(boot, 1, threw.value) && Told(phases, 1, OrUnknown(threw.value))
    ensures SaysWhy(throws, skipCloudInit, boot, phases, threw)
  {
  }

  lemma WhyConfigure(throws: Oracle, skipCloudInit: bool, boot: seq<BootPhase>, phases: seq<DeployPhase>,
                     threw: Option<string>)
    requires skipCloudInit || !(CloudInitFails(throws) || Fails(throws, Disconnect))
    requires !Fails(throws, Connect) && ConfigureFailure(throws, 2).Some?
    requires var k := ConfigureFailure(throws, 2).value;
      threw == throws(Perform(BOOT_ORDER[k])) && threw.Some? && BootTold(boot, k, threw.value)
    requires Told(phases, 2, OrUnknown(threw.value))
    ensures SaysWhy(throws, skipCloudInit, boot, phases, threw)
  {
    ConfigureByName(throws);
  }

  lemma WhyPoll(throws: Oracle, skipCloudInit: bool, boot: seq<BootPhase>, phases: seq<DeployPhase>,
                threw: Option<string>)
    requires skipCloudInit || !(CloudInitFails(throws) || Fails(throws, Disconnect))
    requires !Fails(throws, Connect) && ConfigureFailure(throws, 2).None? && threw == throws(PollRegistration)
    ensures SaysWhy(throws, skipCloudInit, boot, phases, threw)
  {
    ConfigureByName(throws);
  }

  lemma MarkedTold(boot: seq<BootPhase>, k: nat, status: BootStatus, error: Option<string>)
    requires k < 8 && BootInOrder(boot) && error.Some?
    ensures BootTold(Marked(boot, BOOT_ORDER[k], status, error), k, error.value)
  {
    FindBootInOrder(boot, k);
  }

  lemma BlameIsClear(boot: seq<BootPhase>, k: nat, error: string)
    requires k < 8 && BootAt(boot, k, BootFailed) && BootTold(boot, k, error)
    ensures Blames(boot, BOOT_ORDER[k], error)
  {
    assert boot[k].name == BOOT_ORDER[k];
  }

  class Bootstrapper {
    const deploy: Orchestrator
    var phases: seq<BootPhase>

    constructor (deploy: Orchestrator)
      ensures this.deploy == deploy
      ensures BootAt(phases, 0, BootPending)
    {
      this.deploy := deploy;
      phases := seq(8, i requires 0 <= i < 8 => BootPhase(BOOT_ORDER[i], BootPending, None));
    }

    /** The bootstrap has come to phase `k`, and the deploy shows it. */
    ghost predicate Arrived(k: nat, status: BootStatus)
      reads this, deploy, deploy.row
    {
      && k <= 8
      && BootAt(phases, k, status)
      && Follows(deploy.phases, k, status)
      && deploy.Orderly()
      && deploy.Mirrored()
    }

    method EmitPhases()
      modifies deploy, deploy.row
      ensures deploy.history == old(deploy.history) + Follow(old(deploy.phases), phases, deploy.clock)
      ensures deploy.phases == LastOr(Follow(old(deploy.phases), phases, deploy.clock), old(deploy.phases))
      ensures deploy.reports == old(deploy.reports) + [BootReport(phases, deploy.phases)]
      ensures deploy.clock == old(deploy.clock)
      ensures old(deploy.Mirrored()) ==> deploy.Mirrored()
    {
      deploy.UpdateBootstrapPhases(phases);
    }

    /** Reports the phases when the deploy follows in good order. */
    method Report(k: nat, status: BootStatus)
      requires k <= 8 && BootAt(phases, k, status) && deploy.Orderly() && deploy.Mirrored()
      requires var lists := Follow(deploy.phases, phases, deploy.clock);
        AllShaped(lists) && Follows(LastOr(lists, deploy.phases), k, status)
      modifies deploy, deploy.row
      ensures Arrived(k, status) && deploy.clock == old(deploy.clock)
      ensures deploy.phases == LastOr(Follow(old(deploy.phases), phases, deploy.clock), old(deploy.phases))
    {
      AllShapedConcat(deploy.history, Follow(deploy.phases, phases, deploy.clock));
      EmitPhases();
      assert Simulates(phases, deploy.phases);
      OneMoreSimulated(old(deploy.reports), BootReport(phases, deploy.phases));
    }

    /** Marks phase `k` as running and reports it. */
    method Begin(k: nat)
      requires k < 8 && Arrived(k, BootPending)
      modifies this, deploy, deploy.row
      ensures Arrived(k, BootRunning) && deploy.clock == old(deploy.clock)
    {
      MarkedAt(phases, k, BootPending, BootRunning, None);
      phases := Marked(phases, BOOT_ORDER[k], BootRunning, None);
      RunningIsFollowed(deploy.phases, phases, k, deploy.clock);
      Report(k, BootRunning);
    }

    /** Marks phase `k` as completed, or skipped, and reports it. */
    method Finish(k: nat, status: BootStatus)
      requires k < 8 && Arrived(k, if status.BootSkipped? then BootPending else BootRunning)
      requires status.BootCompleted? || (status.BootSkipped? && k == 0)
      modifies this, deploy, deploy.row
      ensures Arrived(k + 1, BootPending) && deploy.clock == old(deploy.clock)
    {
      MarkedAt(phases, k, if status.BootSkipped? then BootPending else BootRunning, status, None);
      phases := Marked(phases, BOOT_ORDER[k], status, None);
      ProgressIsQuiet(deploy.phases, phases, k + 1, deploy.clock);
      Report(k + 1, BootPending);
    }

    /** Marks phase `k` as failed and reports it. */
    method ReportFailure(k: nat, message: string)
      requires k < 8 && Arrived(k, BootRunning)
      modifies this, deploy, deploy.row
      ensures Arrived(k, BootFailed) && deploy.clock == old(deploy.clock)
      ensures BootTold(phases, k, message)
      ensures Told(deploy.phases, Target(k), OrUnknown(message))
    {
      MarkedAt(phases, k, BootRunning, BootFailed, Some(message));
      phases := Marked(phases, BOOT_ORDER[k], BootFailed, Some(message));
      FailureIsFollowed(deploy.phases, phases, k, deploy.clock);
      Report(k, BootFailed);
    }

    /** One configuration step: start, perform, then complete, or report the failure and pass it on. */
    method Step(k: nat, call: ExternalCall) returns (threw: Option<string>)
      requires k < 8 && Arrived(k, BootPending)
      modifies this, deploy, deploy.row
      ensures threw == deploy.throws(call) && deploy.clock == old(deploy.clock)
      ensures threw.None? ==> Arrived(k + 1, BootPending)
      ensures threw.Some? ==>
        && Arrived(k, BootFailed)
        && BootTold(phases, k, threw.value)
        && Told(deploy.phases, Target(k), OrUnknown(threw.value))
    {
      Begin(k);
      threw := deploy.throws(call);
      if threw.Some? {
        ReportFailure(k, threw.value);
      } else {
        Finish(k, BootCompleted);
      }
    }

    /** The guarded part of the bootstrap, with the message of what was thrown in it. */
    method RunPhases(skipCloudInit: bool) returns (threw: Option<string>)
      requires Arrived(0, BootPending)
      modifies this, deploy, deploy.row
      ensures deploy.clock == old(deploy.clock)
      ensures var failure := BootFailure(deploy.throws, skipCloudInit);
        && (threw.None? <==> failure.None?)
        && (threw.None? ==> Arrived(8, BootPending))
        && (threw.Some? ==>
              if failure == Some(0) then
                if CloudInitFails(deploy.throws) then Arrived(0, BootRunning) else Arrived(1, BootPending)
              else Arrived(failure.value, if failure == Some(7) then BootRunning else BootFailed))
      ensures SaysWhy(deploy.throws, skipCloudInit, phases, deploy.phases, threw)
    {
      threw := AwaitCloudInit(skipCloudInit);
      if threw.Some? {
        WhyCloudInit(deploy.throws, phases, deploy.phases, threw);
        return;
      }
      threw := Step(1, Connect);
      if threw.Some? {
        WhyConnect(deploy.throws, skipCloudInit, phases, deploy.phases, threw);
        return;
      }
      threw := Configure(2);
      if threw.Some? {
        WhyConfigure(deploy.throws, skipCloudInit, phases, deploy.phases, threw);
        return;
      }
      threw := AwaitRegistration();
      WhyPoll(deploy.throws, skipCloudInit, phases, deploy.phases, threw);
    }

    /** Polls until the agent has registered. */
    method AwaitRegistration() returns (threw: Option<string>)
      requires Arrived(7, BootPending)
      modifies this, deploy, deploy.row
      ensures deploy.clock == old(deploy.clock) && threw == deploy.throws(PollRegistration)
      ensures if threw.Some? then Arrived(7, BootRunning) else Arrived(8, BootPending)
    {
      Begin(7);
      threw := deploy.throws(PollRegistration);
      if threw.None? {
        Finish(7, BootCompleted);
      }
    }

    /** Waits for the machine to come up, unless that is skipped. */
    method AwaitCloudInit(skipCloudInit: bool) returns (threw: Option<string>)
      requires Arrived(0, BootPending)
      modifies this, deploy, deploy.row
      ensures deploy.clock == old(deploy.clock)
      ensures threw.Some? <==> !skipCloudInit && (CloudInitFails(deploy.throws) || Fails(deploy.throws, Disconnect))
      ensures if threw.Some? && CloudInitFails(deploy.throws) then Arrived(0, BootRunning) else Arrived(1, BootPending)
      ensures threw.Some? ==>
        threw == deploy.throws(if Fails(deploy.throws, ConnectForCloudInit) then ConnectForCloudInit
                               else if Fails(deploy.throws, WaitCloudInit) then WaitCloudInit else Disconnect)
    {
      if skipCloudInit {
        Finish(0, BootSkipped);
        return None;
      }
      Begin(0);
      if deploy.throws(ConnectForCloudInit).Some? { return deploy.throws(ConnectForCloudInit); }
      if deploy.throws(WaitCloudInit).Some? { return deploy.throws(WaitCloudInit); }
      Finish(0, BootCompleted);
      return deploy.throws(Disconnect);
    }

    /** The configuration steps from the given one on; the source writes the five of them out. */
    method Configure(from: nat) returns (threw: Option<string>)
      requires 2 <= from <= 7 && Arrived(from, BootPending)
      modifies this, deploy, deploy.row
      ensures deploy.clock == old(deploy.clock)
      ensures var failure := ConfigureFailure(deploy.throws, from);
        && (threw.None? <==> failure.None?)
        && (threw.None? ==> Arrived(7, BootPending))
        && (threw.Some? ==>
              && Arrived(failure.value, BootFailed)
              && threw == deploy.throws(Perform(BOOT_ORDER[failure.value])) && BootTold(phases, failure.value, threw.value)
              && Told(deploy.phases, 2, OrUnknown(threw.value)))
      decreases 7 - from
    {
      if from == 7 {
        return None;
      }
      threw := Step(from, Perform(BOOT_ORDER[from]));
      if threw.None? {
        threw := Configure(from + 1);
      }
    }

    /**
     Runs the bootstrap. A failure is blamed on the phase it happened in, except one that strikes
     between two phases; the deploy shows the blamed phase's image as active or failed.
     */
    method Bootstrap(skipCloudInit: bool) returns (result: BootResult)
      requires Arrived(0, BootPending)
      modifies this, deploy, deploy.row
      ensures deploy.Orderly() && deploy.Mirrored() && deploy.clock == old(deploy.clock)
      ensures match FirstBootFailure(deploy.throws, skipCloudInit)
        case None => result.success && BootAt(phases, 8, BootPending) && At(deploy.phases, 3, Active)
        case Some(call) =>
          && result == BootResult(false, deploy.throws(call).value, BlamedPhase(call))
          && LeftBy(deploy.phases, call, result.error)
          && (result.failedPhase.Some? ==> Blames(phases, result.failedPhase.value, result.error))
    {
      BootFailureByCall(deploy.throws, skipCloudInit);
      var threw := RunPhases(skipCloudInit);
      if threw.None? {
        return BootResult(true, "", None);
      }
      ghost var before := phases;
      ghost var at := StoppedAt(deploy.throws, skipCloudInit);
      ghost var k, status := at.0, at.1;
      FirstLoud(phases, k, status);
      var failed := FindBootStatus(phases, BootFailed);
      var running := FindBootStatus(phases, BootRunning);
      var blamed :=
        if failed < |phases| then Some(phases[failed].name)
        else if running < |phases| then Some(phases[running].name) else None;
      if running < |phases| && failed == |phases| {
        MarkedAt(phases, k, BootRunning, BootFailed, threw);
        phases := Marked(phases, phases[running].name, BootFailed, threw);
        MarkedTold(before, k, BootFailed, threw);
      }
      if blamed.Some? {
        BlameIsClear(phases, k, threw.value);
      }
      return BootResult(false, threw.value, blamed);
    }
  }

  /** Where the bootstrap phases stand when the bootstrap throws. */
  ghost function StoppedAt(throws: Oracle, skipCloudInit: bool): (at: (nat, BootStatus))
    requires BootFailure(throws, skipCloudInit).Some?
  {
    var k := BootFailure(throws, skipCloudInit).value;
    if k == 0 then if CloudInitFails(throws) then (0, BootRunning) else (1, BootPending)
    else (k, if k == 7 then BootRunning else BootFailed)
  }

  /** The failed and the running phase are found where the bootstrap has stopped. */
  lemma FirstLoud(boot: seq<BootPhase>, k: nat, status: BootStatus)
    requires k < 8 && BootAt(boot, k, status)
    requires status.BootPending? || status.BootRunning? || status.BootFailed?
    ensures FindBootStatus(boot, BootFailed) == if status.BootFailed? then k else 8
    ensures FindBootStatus(boot, BootRunning) == if status.BootRunning? then k else 8
    ensures boot[k].name == BOOT_ORDER[k]
  {
    forall i | 0 <= i < 8 && i != k ensures !boot[i].status.BootFailed? && !boot[i].status.BootRunning? {
      assert i < k || i > k;
    }
  }
}
