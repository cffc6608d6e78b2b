/**
 The drive state machine: what each reply, timer expiry and D-Bus call does to the
 state of one drive, which commands it issues, and whether it re-arms the poll timer.
 */
module Device {
  import opened Types
  import opened DriveTypes
  import Progress
  import LinkSpeed

  const MAX_IDENTIFY_RETRY: nat := 3
  const DEFAULT_LOCATION := "/xyz/openbmc_project/inventory/system/chassis/Baseboard_0"

  // ------------------------------------------------------------ state

  datatype Status = NoStatus | InProgress | Completed | Failed

  datatype HealthLevel = OK | Warning | Critical

  type Association = (string, string, string)

  /** The five faults that SMART reports and that D-Bus can inject. */
  datatype Faults = Faults(backup: bool, temperature: bool, degrades: bool, media: bool, capacity: bool)

  const NO_FAULTS := Faults(false, false, false, false, false)

  datatype FaultKind = BackupDevice | Temperature | Degrades | Media | Capacity

  datatype LogEntry = DriveFailure | SmartEvent(bit: bv8)

  datatype Control = Control(presence: bool, present: bool, ctrl: nat, retry: nat)

  datatype Sani = Sani(
    inProgress: bool, sanitizing: bool, eraseType: EraseMethod, estimated: nat, nodmmas: bv32,
    capability: seq<EraseMethod>, status: Status, progress: nat,
    // history: the in-progress replies since the last acknowledgement, and every progress value with its status
    acked: bool, replies: nat, writes: seq<(nat, Status)>)

  datatype HealthState = HealthState(
    objPath: string, driveAssociation: string, assocs: seq<Association>, health: HealthLevel,
    driveFunctional: bool, functional: bool, fault: bool,
    smartWarning: bv8, injected: Faults, published: Faults, warnings: string, events: seq<LogEntry>,
    // history: the effective SMART readings and the functional bits of the health replies
    readings: seq<bv8>, functionalBits: seq<bool>)

  datatype Info = Info(maxSpeed: nat, currentSpeed: nat, lifeUsed: string, lifeLeft: nat)

  datatype Dev = Dev(control: Control, sani: Sani, healthState: HealthState, info: Info, halted: bool)

  /** A step's result: the new state, the commands handed to the endpoint, and whether the timer was re-armed. */
  datatype Outcome = Outcome(dev: Dev, issue: seq<Command>, rearm: bool)

  datatype DevAction =
    | Initialize
    | Replied(command: Command, reply: Reply)
    | TimerFired
    | Erase(eraseMethod: EraseMethod)
    | Inject(kind: FaultKind, value: bool)
    | Associate(association: string)

  /** A successful reply carries the kind of data its command asks for. */
  predicate Fits(c: Command, r: Reply) {
    r.Bad? ||
    match c
    case ScanControllers => r.payload.Controllers?
    case Identify => r.payload.Identity? || r.payload.NoData?
    case PortInformation => r.payload.Port? || r.payload.NoData?
    case HealthPoll => r.payload.Health? || r.payload.NoData?
    case GetLog(SmartLog, _) => r.payload.Smart? || r.payload.NoData?
    case GetLog(SanitizeLog, _) => r.payload.SanitizeStatus?
    case _ => true
  }

  /** A reply without an error and without the data that its handler reads through a pointer. */
  predicate LacksData(c: Command, r: Reply) {
    r.Good? && r.payload.NoData? &&
    (c == Identify || c == PortInformation || c == HealthPoll || (c.GetLog? && c.lid == SmartLog))
  }

  // ------------------------------------------------------------ health

  const SPARE_BIT: bv8 := 0x01
  const TEMPERATURE_BIT: bv8 := 0x02
  const DEGRADED_BIT: bv8 := 0x04
  const MEDIA_BIT: bv8 := 0x08
  const VOLATILE_BIT: bv8 := 0x10
  const PMR_BIT: bv8 := 0x20
  const FUNCTIONAL_BIT: bv8 := 0x20
  const UNREAD: bv8 := 0xff

  function MaskOf(k: FaultKind): bv8 {
    match k
    case BackupDevice => VOLATILE_BIT
    case Temperature => TEMPERATURE_BIT
    case Degrades => DEGRADED_BIT
    case Media => MEDIA_BIT
    case Capacity => SPARE_BIT
  }

  /** The drive's warning byte with the injected faults added. */
  function WithInjected(warning: bv8, f: Faults): bv8 {
    warning | (if f.backup then VOLATILE_BIT else 0) | (if f.capacity then SPARE_BIT else 0)
    | (if f.temperature then TEMPERATURE_BIT else 0) | (if f.degrades then DEGRADED_BIT else 0)
    | (if f.media then MEDIA_BIT else 0)
  }

  function FaultsOf(warning: bv8): Faults {
    Faults(warning & VOLATILE_BIT != 0, warning & TEMPERATURE_BIT != 0, warning & DEGRADED_BIT != 0,
           warning & MEDIA_BIT != 0, warning & SPARE_BIT != 0)
  }

  function Decimal(n: nat): string {
    (if n < 10 then "" else Decimal(n / 10)) + ["0123456789"[n % 10]]
  }

  function SetFault(f: Faults, k: FaultKind, value: bool): Faults {
    match k
    case BackupDevice => f.(backup := value)
    case Temperature => f.(temperature := value)
    case Degrades => f.(degrades := value)
    case Media => f.(media := value)
    case Capacity => f.(capacity := value)
  }

  function EventIf(warning: bv8, bit: bv8): seq<LogEntry> {
    if warning & bit != 0 then [SmartEvent(bit)] else []
  }

  function SmartEvents(warning: bv8): seq<LogEntry> {
    EventIf(warning, PMR_BIT) + EventIf(warning, VOLATILE_BIT) + EventIf(warning, SPARE_BIT)
    + EventIf(warning, DEGRADED_BIT) + EventIf(warning, MEDIA_BIT) + EventIf(warning, TEMPERATURE_BIT)
  }


  function MarkStatus(h: HealthState, status: string): HealthState {
    var level := if status == "critical" then Critical else if status == "warning" then Warning else OK;
    var entry := if status == "critical" || status == "warning" then [("health", status, h.objPath)] else [];
    var location := if h.driveAssociation != "" then h.driveAssociation else DEFAULT_LOCATION;
    h.(health := level, assocs := entry + [("chassis", "drive", location)])
  }

  function MarkFunctional(h: HealthState, functional: bool): HealthState {
    if h.driveFunctional == functional then h
    else if !functional then
      var m := MarkStatus(h.(functional := false, fault := true), "critical");
      m.(driveFunctional := false, events := m.events + [DriveFailure])
    else
      MarkStatus(h.(functional := true, fault := false), "ok").(driveFunctional := true)
  }

  function UpdateDriveAssociations(h: HealthState): HealthState {
    var entry := match h.health
      case Critical => [("health", "critical", h.objPath)]
      case Warning => [("health", "warning", h.objPath)]
      case OK => [];
    h.(assocs := entry + [("chassis", "drive", h.driveAssociation)])
  }

  /** A successful SMART reply: publish only if the effective warning byte changed. */
  function OnSmartPage(h: HealthState, warning: bv8): HealthState {
    var cw := WithInjected(warning, h.injected);
    var p :=
      if cw == h.smartWarning then h
      else
        var m := MarkStatus(h.(published := FaultsOf(cw), warnings := Decimal(cw as nat)),
                            if cw != 0 then "warning" else "ok");
        m.(events := m.events + SmartEvents(cw));
    p.(smartWarning := cw, readings := h.readings + [cw])
  }

  function OnHealthPage(d: Dev, page: HealthPage): Dev {
    var percentage := if page.lifeUsed > 100 then 100 else page.lifeUsed as nat;
    var functional := page.status & FUNCTIONAL_BIT != 0;
    var h := MarkFunctional(d.healthState, functional);
    d.(info := d.info.(lifeUsed := Decimal(page.lifeUsed as nat), lifeLeft := 100 - percentage),
       healthState := h.(functionalBits := h.functionalBits + [functional]))
  }

  // ------------------------------------------------------------ sanitize

  function SetNodmmas(value: bv8): bv32 {
    (value as bv32) & 0x8000_0000
  }

  function Capabilities(sanicap: bv32): seq<EraseMethod> {
    (if sanicap & 4 != 0 then [Overwrite] else [])
    + (if sanicap & 2 != 0 then [BlockErase] else [])
    + (if sanicap & 1 != 0 then [CryptoErase] else [])
  }

  function WriteProgress(s: Sani, value: nat): Sani {
    s.(progress := value, writes := s.writes + [(value, s.status)])
  }

  function UpdateSanitizeStatus(s: Sani, m: EraseMethod): Sani {
    s.(estimated := 0, status := InProgress, inProgress := true, eraseType := m, sanitizing := true,
       acked := true, replies := 0)
  }

  /** The estimate that matches the erase method and the no-deallocate flag. */
  function EstimateFor(s: Sani, log: SanitizePage): nat {
    var nd := s.nodmmas != 0;
    match s.eraseType
    case CryptoErase => if nd then log.cryptoEraseNd else log.cryptoErase
    case BlockErase => if nd then log.blockEraseNd else log.blockErase
    case Overwrite => if nd then log.overwriteNd else log.overwrite
  }

  /** Nothing if the division by a zero end time traps. */
  function UpdatePercent(s: Sani, endTime: nat): Option<Sani> {
    var time := Progress.NextTime(s.estimated);
    match Progress.Percent(time, endTime)
    case None => None
    case Some(p) => Some(WriteProgress(s, p).(estimated := time, replies := s.replies + 1))
  }

  // the low three bits of the sanitize status, NVM Express Base Specification 1.4, section 5.14.1.16.2
  const COMPLETE_SUCCESS: nat := 1
  const IN_PROGRESS: nat := 2
  const COMPLETED_FAILED: nat := 3
  const ND_COMPLETE_SUCCESS: nat := 4

  function Verdict(log: SanitizePage): nat {
    log.status % 8
  }

  function ApplyVerdict(s: Sani, res: nat): Sani {
    if res == COMPLETE_SUCCESS || res == ND_COMPLETE_SUCCESS then
      WriteProgress(s.(status := Completed), 100).(inProgress := false)
    else if res == COMPLETED_FAILED then
      WriteProgress(s.(status := Failed), 0).(inProgress := false)
    else s
  }

  function OnSanitizePage(d: Dev, log: SanitizePage): Outcome {
    var res := Verdict(log);
    if res != IN_PROGRESS then Outcome(d.(sani := ApplyVerdict(d.sani, res)), [], true)
    else
      match UpdatePercent(d.sani, EstimateFor(d.sani, log))
      case None => Outcome(d.(halted := true), [], false)
      case Some(s) => Outcome(d.(sani := s), [], false)
  }

  // ------------------------------------------------------------ the steps

  function OnScan(d: Dev, r: Reply): Outcome
    requires Fits(ScanControllers, r)
  {
    if r.Bad? || r.payload.list == [] then
      Outcome(d.(control := d.control.(presence := false, present := false)), [], false)
    else
      Outcome(d.(control := d.control.(presence := true, present := true,
                                        ctrl := r.payload.list[|r.payload.list| - 1])),
              [Identify], false)
  }

  function OnIdentify(d: Dev, r: Reply): Outcome
    requires Fits(Identify, r) && !LacksData(Identify, r)
  {
    if r.Bad? then
      if d.control.retry < MAX_IDENTIFY_RETRY then
        Outcome(d.(control := d.control.(retry := d.control.retry + 1)), [Identify], false)
      else
        Outcome(d.(control := d.control.(retry := 0)), [PortInformation], false)
    else
      var cap := r.payload.sanicap;
      Outcome(d.(sani := d.sani.(capability := Capabilities(cap), nodmmas := SetNodmmas((cap & 0xff) as bv8))),
              [PortInformation], false)
  }

  function OnPort(d: Dev, r: Reply): Outcome
    requires Fits(PortInformation, r) && !LacksData(PortInformation, r)
  {
    if r.Bad? then Outcome(d, [], true)
    else
      var p := r.payload.port;
      Outcome(d.(info := d.info.(maxSpeed := LinkSpeed.MaxLinkSpeed(p.supported, p.maxLanes),
                                 currentSpeed := LinkSpeed.CurrLinkSpeed(p.speed, p.lanes))), [], true)
  }

  function OnSanitizeReply(d: Dev, m: EraseMethod, r: Reply): Outcome {
    if r.Bad? then Outcome(d.(sani := d.sani.(status := Failed, inProgress := false)), [], false)
    else Outcome(d.(sani := UpdateSanitizeStatus(d.sani, m)), [], false)
  }

  function OnReply(d: Dev, c: Command, r: Reply): Outcome
    requires Fits(c, r)
  {
    if LacksData(c, r) then Outcome(d.(halted := true), [], false) else
    match c
    case ScanControllers => OnScan(d, r)
    case Identify => OnIdentify(d, r)
    case PortInformation => OnPort(d, r)
    case HealthPoll => if r.Bad? then Outcome(d, [], false) else Outcome(OnHealthPage(d, r.payload.health), [], false)
    case GetLog(SmartLog, _) =>
      if r.Bad? then Outcome(d, [], true)
      else Outcome(d.(healthState := OnSmartPage(d.healthState, r.payload.warning)), [], true)
    case GetLog(SanitizeLog, _) => if r.Bad? then Outcome(d, [], false) else OnSanitizePage(d, r.payload.log)
    case Sanitize(m) => OnSanitizeReply(d, m, r)
    case _ => Outcome(d, [], false)
  }

  function OnInitialize(d: Dev): Outcome {
    Outcome(d.(control := d.control.(presence := false)), [ScanControllers], false)
  }

  function OnTimer(d: Dev): Outcome {
    if !d.control.presence then OnInitialize(d)
    else if d.sani.sanitizing && d.sani.inProgress then Outcome(d, [READ_SANITIZE], true)
    else Outcome(d, [HealthPoll, READ_SMART], false)
  }

  datatype EraseResult = NotAllowed | Unsupported | Started

  function EraseOutcome(d: Dev, m: EraseMethod): EraseResult {
    if d.sani.inProgress then NotAllowed
    else if m !in d.sani.capability then Unsupported
    else Started
  }

  function OnErase(d: Dev, m: EraseMethod): Outcome {
    Outcome(d, if EraseOutcome(d, m) == Started then [Sanitize(m)] else [], false)
  }

  function OnInject(d: Dev, k: FaultKind, value: bool): Outcome {
    Outcome(d.(healthState := d.healthState.(injected := SetFault(d.healthState.injected, k, value))), [], false)
  }

  function OnAssociate(d: Dev, association: string): Outcome {
    if association == "" then Outcome(d, [], false)
    else Outcome(d.(healthState := UpdateDriveAssociations(d.healthState.(driveAssociation := association))), [], false)
  }

  /** One step of the drive; a reply of the wrong kind never comes, and a trapped program does nothing more. */
  function DevStep(d: Dev, a: DevAction): Outcome {
    if d.halted then Outcome(d, [], false) else
    match a
    case Initialize => OnInitialize(d)
    case Replied(c, r) => if Fits(c, r) then OnReply(d, c, r) else Outcome(d, [], false)
    case TimerFired => OnTimer(d)
    case Erase(m) => OnErase(d, m)
    case Inject(k, v) => OnInject(d, k, v)
    case Associate(s) => OnAssociate(d, s)
  }

  /** What the constructor leaves uninitialised. */
  datatype Garbage = Garbage(presence: bool, ctrl: nat, eraseType: EraseMethod, estimated: nat, nodmmas: bv32)

  function Unmarked(path: string): HealthState {
    HealthState(path, "", [], OK, false, false, false, UNREAD, NO_FAULTS, NO_FAULTS, "", [], [], [])
  }

  /** The state after construction: the drive is assumed good and marked functional at once. */
  function NewDrive(path: string, g: Garbage): Dev {
    Dev(Control(g.presence, false, g.ctrl, 1),
        Sani(false, false, g.eraseType, g.estimated, g.nodmmas, [], NoStatus, 0, false, 0, []),
        MarkFunctional(Unmarked(path), true),
        Info(0, 0, "", 0), false)
  }

  function DevExec(path: string, g: Garbage, run: Run<DevAction>): Dev {
    match run
    case Start => NewDrive(path, g)
    case Then(before, a) => DevStep(DevExec(path, g, before), a).dev
  }

  /** What follows a run when further actions come. */
  function Extend(run: Run<DevAction>, later: seq<DevAction>): Run<DevAction> {
    if later == [] then run else Then(Extend(run, later[..|later| - 1]), later[|later| - 1])
  }

  lemma ExtendSnoc(run: Run<DevAction>, later: seq<DevAction>, a: DevAction)
    ensures Extend(run, later + [a]) == Then(Extend(run, later), a)
    ensures Extend(run, later + []) == Extend(run, later)
  {
    assert (later + [a])[..|later|] == later;
    assert later + [] == later;
  }

  /** What a step is while the program has not trapped. */
  lemma StepIs(d: Dev, a: DevAction)
    requires !d.halted && (a.Replied? ==> Fits(a.command, a.reply))
    ensures DevStep(d, a) ==
            match a
            case Initialize => OnInitialize(d)
            case Replied(c, r) => OnReply(d, c, r)
            case TimerFired => OnTimer(d)
            case Erase(m) => OnErase(d, m)
            case Inject(k, v) => OnInject(d, k, v)
            case Associate(s) => OnAssociate(d, s)
  {
    hide OnInitialize, OnReply, OnTimer, OnErase, OnInject, OnAssociate;
  }

  lemma ExecIs(path: string, g: Garbage, run: Run<DevAction>, a: DevAction)
    ensures DevExec(path, g, Start) == NewDrive(path, g)
    ensures DevExec(path, g, Then(run, a)) == DevStep(DevExec(path, g, run), a).dev
  {
    hide DevStep, NewDrive;
  }

  lemma HaltStays(d: Dev, a: DevAction)
    requires d.halted
    ensures DevStep(d, a) == Outcome(d, [], false)
  {
  }
}
