/**
 The drive object: its fields, grouped as in module Device and changed in place by the
 reply handlers, the timer handler and the D-Bus calls.  Each method is proved against
 the step of module Device that it carries out.
 */
module NVMeDrive {
  import opened Types
  import opened DriveTypes
  import opened Device
  import DP = DeviceProperties
  import Progress
  import LinkSpeed

  /** A drive object at one moment: its state, what it has issued and armed, and what it has been through. */
  datatype Record = Record(dev: Dev, issued: seq<Command>, arms: nat, history: Run<DevAction>)

  /** A handler has carried out a step of the machine. */
  predicate Stepped(before: Record, after: Record, a: DevAction) {
    var o := DevStep(before.dev, a);
    after == Record(o.dev, before.issued + o.issue, before.arms + (if o.rearm then 1 else 0), Then(before.history, a))
  }

  class NVMeDevice {
    const eid: byte            // the endpoint that the drive talks to
    const bus: nat

    var control: Control
    var sani: Sani
    var healthState: HealthState
    var info: Info
    var halted: bool

    // the commands handed to the endpoint, and how often the poll timer has been re-armed
    var issued: seq<Command>
    var arms: nat

    // what the drive has been through since it was made
    ghost const path: string
    ghost const garbage: Garbage
    ghost var history: Run<DevAction>

    ghost function View(): Dev
      reads this
    {
      Dev(control, sani, healthState, info, halted)
    }

    ghost function Now(): Record
      reads this
    {
      Record(View(), issued, arms, history)
    }

    /** The object is where its history takes the drive machine, so what holds of every run holds of the object. */
    ghost predicate Valid()
      reads this
    {
      View() == DevExec(path, garbage, history)
    }

    lemma Consistent()
      requires Valid()
      ensures DP.HealthInv(healthState) && DP.SmartInv(healthState) && DP.SaniInv(sani)
    {
      hide DevExec;
      DP.HealthConsistent(path, garbage, history);
      DP.SmartEntriesCounted(path, garbage, history);
      DP.SanitizeConsistent(path, garbage, history);
    }

    constructor (objPath: string, number: byte, busNumber: nat, g: Garbage)
      ensures Valid() && history == Start && path == objPath && garbage == g
      ensures View() == NewDrive(objPath, g) && issued == [] && arms == 0 && eid == number && bus == busNumber
    {
      eid, bus := number, busNumber;
      path, garbage, history := objPath, g, Start;
      control := Control(g.presence, false, g.ctrl, 1);
      sani := Sani(false, false, g.eraseType, g.estimated, g.nodmmas, [], NoStatus, 0, false, 0, []);
      healthState := Unmarked(objPath);
      info := Info(0, 0, "", 0);
      halted, issued, arms := false, [], 0;
      new;
      SetFunctional(true);
    }

    /** What a step will be, and where it takes the machine. */
    lemma Takes(a: DevAction)
      requires Valid() && !halted && (a.Replied? ==> Fits(a.command, a.reply))
      ensures DevStep(View(), a) ==
              match a
              case Initialize => OnInitialize(View())
              case Replied(c, r) => OnReply(View(), c, r)
              case TimerFired => OnTimer(View())
              case Erase(m) => OnErase(View(), m)
              case Inject(k, v) => OnInject(View(), k, v)
              case Associate(s) => OnAssociate(View(), s)
      ensures DevExec(path, garbage, Then(history, a)) == DevStep(View(), a).dev
    {
      StepIs(View(), a);
      ExecIs(path, garbage, history, a);
    }

    // ---------------------------------------------------------- commands and timer

    method Issue(c: Command)
      modifies this`issued
      ensures issued == old(issued) + [c]
    {
      issued := issued + [c];
    }

    /** Cancels the pending wait, if any, and starts a new one. */
    method PollDrive()
      modifies this`arms
      ensures arms == old(arms) + 1
    {
      arms := arms + 1;
    }

    method GetDriveInfo()
      modifies this`issued
      ensures issued == old(issued) + [Identify]
    {
      Issue(Identify);
    }

    method GetDriveLink()
      modifies this`issued
      ensures issued == old(issued) + [PortInformation]
    {
      Issue(PortInformation);
    }

    method StartScan()
      modifies this`control, this`issued
      ensures control == old(control).(presence := false) && issued == old(issued) + [ScanControllers]
    {
      control := control.(presence := false);
      Issue(ScanControllers);
    }

    method Initialize()
      requires Valid() && !halted
      modifies this`control, this`issued, this`history
      ensures Valid() && Stepped(old(Now()), Now(), DevAction.Initialize)
    {
      Takes(DevAction.Initialize);
      hide DevStep, DevExec;
      history := Then(history, DevAction.Initialize);
      StartScan();
    }

    method ScanReplied(r: Reply)
      requires Valid() && !halted
      requires Fits(ScanControllers, r)
      modifies this`control, this`issued, this`history
      ensures Valid() && Stepped(old(Now()), Now(), Replied(ScanControllers, r))
    {
      Takes(Replied(ScanControllers, r));
      hide DevStep, DevExec;
      history := Then(history, Replied(ScanControllers, r));
      if r.Bad? || |r.payload.list| == 0 {
        control := control.(presence := false);
        control := control.(present := false);
        return;
      }
      control := control.(presence := true);
      control := control.(present := true);
      control := control.(ctrl := r.payload.list[|r.payload.list| - 1]);
      GetDriveInfo();
    }

    method ReadCapabilities(cap: bv32) returns (methods: seq<EraseMethod>)
      ensures methods == Capabilities(cap)
    {
      methods := [];
      if cap & 4 != 0 { methods := methods + [Overwrite]; }
      if cap & 2 != 0 { methods := methods + [BlockErase]; }
      if cap & 1 != 0 { methods := methods + [CryptoErase]; }
    }

    method IdentifyReplied(r: Reply)
      requires Valid() && !halted
      requires Fits(Identify, r)
      modifies this`control, this`sani, this`issued, this`halted, this`history
      ensures Valid() && Stepped(old(Now()), Now(), Replied(Identify, r))
    {
      Takes(Replied(Identify, r));
      hide DevStep, DevExec, Capabilities;
      history := Then(history, Replied(Identify, r));
      if r.Bad? {
        if control.retry < MAX_IDENTIFY_RETRY {
          control := control.(retry := control.retry + 1);
          GetDriveInfo();
        } else {
          control := control.(retry := 0);
          GetDriveLink();
        }
        return;
      }
      if r.Good? && r.payload.NoData? {
        halted := true;
        return;
      }
      hide SetNodmmas;
      var cap := r.payload.sanicap;
      var methods := ReadCapabilities(cap);
      sani := sani.(capability := methods);
      sani := sani.(nodmmas := SetNodmmas((cap & 0xff) as bv8));
      GetDriveLink();
    }

    method PortReplied(r: Reply)
      requires Valid() && !halted
      requires Fits(PortInformation, r)
      modifies this`info, this`arms, this`halted, this`history
      ensures Valid() && Stepped(old(Now()), Now(), Replied(PortInformation, r))
    {
      Takes(Replied(PortInformation, r));
      hide DevStep, DevExec;
      history := Then(history, Replied(PortInformation, r));
      if r.Bad? {
        PollDrive();
        return;
      }
      if r.Good? && r.payload.NoData? {
        halted := true;
        return;
      }
      var port := r.payload.port;
      var maximum := LinkSpeed.GetMaxLinkSpeed(port.supported, port.maxLanes);
      var current := LinkSpeed.GetCurrLinkSpeed(port.speed, port.lanes);
      info := info.(maxSpeed := maximum);
      info := info.(currentSpeed := current);
      PollDrive();
    }

    method TimerExpired()
      requires Valid() && !halted
      modifies this`control, this`issued, this`arms, this`history
      ensures Valid() && Stepped(old(Now()), Now(), TimerFired)
    {
      Takes(TimerFired);
      hide DevStep, DevExec;
      history := Then(history, TimerFired);
      if control.presence == false {
        StartScan();
        return;
      }
      if sani.sanitizing && sani.inProgress == true {
        Issue(READ_SANITIZE);
        PollDrive();
        return;
      }
      Issue(HealthPoll);
      Issue(READ_SMART);
    }

    // ---------------------------------------------------------- health

    method SetAssociations(assocs: seq<Association>)
      modifies this`healthState
      ensures healthState == old(healthState).(assocs := assocs)
    {
      healthState := healthState.(assocs := assocs);
    }

    method SetStatus(word: string)
      modifies this`healthState
      ensures healthState == MarkStatus(old(healthState), word)
      ensures healthState.assocs ==
              DP.AssociationsFor(healthState.health, healthState.objPath, healthState.driveAssociation)
    {
      var assocs := [];
      if word == "critical" {
        assocs := assocs + [("health", word, healthState.objPath)];
        healthState := healthState.(health := Critical);
      } else if word == "warning" {
        assocs := assocs + [("health", word, healthState.objPath)];
        healthState := healthState.(health := Warning);
      } else {
        healthState := healthState.(health := OK);
      }
      if healthState.driveAssociation != "" {
        assocs := assocs + [("chassis", "drive", healthState.driveAssociation)];
      } else {
        assocs := assocs + [("chassis", "drive", DEFAULT_LOCATION)];
      }
      SetAssociations(assocs);
    }

    method SetFunctional(now: bool)
      modifies this`healthState
      ensures healthState == MarkFunctional(old(healthState), now)
    {
      if healthState.driveFunctional != now {
        if now == false {
          healthState := healthState.(functional := false, fault := true);
          SetStatus("critical");
          healthState := healthState.(events := healthState.events + [DriveFailure]);
        } else {
          healthState := healthState.(functional := true, fault := false);
          SetStatus("ok");
        }
      }
      healthState := healthState.(driveFunctional := now);
    }

    method RefreshAssociations()
      modifies this`healthState
      ensures healthState == UpdateDriveAssociations(old(healthState))
      ensures healthState.assocs ==
              DP.AssociationsFor(healthState.health, healthState.objPath, healthState.driveAssociation) <==>
              healthState.driveAssociation != ""
    {
      var assocs := [];
      if healthState.health == Critical {
        assocs := assocs + [("health", "critical", healthState.objPath)];
      } else if healthState.health == Warning {
        assocs := assocs + [("health", "warning", healthState.objPath)];
      }
      assocs := assocs + [("chassis", "drive", healthState.driveAssociation)];
      SetAssociations(assocs);
      hide DP.AssociationsFor;
      DP.RefreshedExactly(old(healthState));
    }

    method AddEntry(log: seq<LogEntry>, sw: bv8, bit: bv8) returns (r: seq<LogEntry>)
      ensures r == log + EventIf(sw, bit)
    {
      r := log;
      if sw & bit != 0 {
        r := r + [SmartEvent(bit)];
      }
    }

    method GenerateRedfishEventBySmart(sw: bv8)
      modifies this`healthState
      ensures healthState == old(healthState).(events := old(healthState).events + SmartEvents(sw))
    {
      var log := AddEntry([], sw, PMR_BIT);
      assert log == EventIf(sw, PMR_BIT);
      log := AddEntry(log, sw, VOLATILE_BIT);
      log := AddEntry(log, sw, SPARE_BIT);
      log := AddEntry(log, sw, DEGRADED_BIT);
      log := AddEntry(log, sw, MEDIA_BIT);
      log := AddEntry(log, sw, TEMPERATURE_BIT);
      healthState := healthState.(events := healthState.events + log);
    }

    method HealthReplied(r: Reply)
      requires Valid() && !halted
      requires Fits(HealthPoll, r)
      modifies this`info, this`healthState, this`halted, this`history
      ensures Valid() && Stepped(old(Now()), Now(), Replied(HealthPoll, r))
    {
      Takes(Replied(HealthPoll, r));
      hide DevStep, DevExec;
      history := Then(history, Replied(HealthPoll, r));
      if r.Bad? { return; }
      if r.Good? && r.payload.NoData? {
        halted := true;
        return;
      }
      var page := r.payload.health;
      info := info.(lifeUsed := Decimal(page.lifeUsed as nat));
      var percentage := if page.lifeUsed > 100 then 100 else page.lifeUsed as nat;
      info := info.(lifeLeft := 100 - percentage);
      var functional := page.status & FUNCTIONAL_BIT != 0;
      SetFunctional(functional);
      healthState := healthState.(functionalBits := healthState.functionalBits + [functional]);
    }

    /** Adds the faults injected over D-Bus to the drive's warning byte. */
    method EffectiveWarning(warning: bv8) returns (cw: bv8)
      ensures cw == WithInjected(warning, healthState.injected)
    {
      cw := warning;
      if healthState.injected.backup { cw := cw | VOLATILE_BIT; }
      if healthState.injected.capacity { cw := cw | SPARE_BIT; }
      if healthState.injected.temperature { cw := cw | TEMPERATURE_BIT; }
      if healthState.injected.degrades { cw := cw | DEGRADED_BIT; }
      if healthState.injected.media { cw := cw | MEDIA_BIT; }
    }

    method SmartPage(warning: bv8)
      modifies this`healthState
      ensures healthState == OnSmartPage(old(healthState), warning)
    {
      var cw := EffectiveWarning(warning);
      if cw != healthState.smartWarning {
        healthState := healthState.(published := FaultsOf(cw), warnings := Decimal(cw as nat));
        if cw != 0 {
          SetStatus("warning");
        } else {
          SetStatus("ok");
        }
        GenerateRedfishEventBySmart(cw);
      }
      healthState := healthState.(smartWarning := cw, readings := healthState.readings + [cw]);
    }

    method SmartReplied(r: Reply)
      requires Valid() && !halted
      requires Fits(READ_SMART, r)
      modifies this`healthState, this`arms, this`halted, this`history
      ensures Valid() && Stepped(old(Now()), Now(), Replied(READ_SMART, r))
    {
      Takes(Replied(READ_SMART, r));
      hide DevStep, DevExec;
      history := Then(history, Replied(READ_SMART, r));
      if r.Bad? {
        PollDrive();
        return;
      }
      if r.Good? && r.payload.NoData? {
        halted := true;
        return;
      }
      SmartPage(r.payload.warning);
      PollDrive();
    }

    method InjectFault(k: FaultKind, value: bool)
      requires Valid() && !halted
      modifies this`healthState, this`history
      ensures Valid() && Stepped(old(Now()), Now(), Inject(k, value))
    {
      Takes(Inject(k, value));
      hide DevStep, DevExec;
      history := Then(history, Inject(k, value));
      healthState := healthState.(injected := SetFault(healthState.injected, k, value));
    }

    /** Takes over the association found for the drive. */
    method SetAssociation(association: string)
      requires Valid() && !halted
      requires association != ""
      modifies this`healthState, this`history
      ensures Valid() && Stepped(old(Now()), Now(), Associate(association))
    {
      Takes(Associate(association));
      hide DevStep, DevExec;
      history := Then(history, Associate(association));
      healthState := healthState.(driveAssociation := association);
      RefreshAssociations();
    }

    // ---------------------------------------------------------- sanitize

    method SetProgress(value: nat)
      modifies this`sani
      ensures sani == WriteProgress(old(sani), value)
    {
      sani := sani.(progress := value, writes := sani.writes + [(value, sani.status)]);
    }

    /** The division traps if the end time is zero; then nothing has been written. */
    method UpdateProgressPercent(endTime: nat) returns (trapped: bool)
      modifies this`sani
      ensures match UpdatePercent(old(sani), endTime)
              case None => trapped && sani == old(sani)
              case Some(s) => !trapped && sani == s
    {
      var end := if endTime == UINT32_MAX then Progress.DRIVE_SANITIZE_TIME else endTime;
      var time := (sani.estimated + Progress.POLL_INTERVAL) % TWO_TO_THE_32;
      var product := (time * 100) % TWO_TO_THE_32;
      Progress.PercentFrom(sani.estimated, endTime, time, end, product);
      if end == 0 {
        return true;
      }
      hide Progress.NextTime, Progress.Percent;
      var percent := product / end;
      if time >= end {
        percent := 99;
      }
      SetProgress(percent);
      sani := sani.(estimated := time, replies := sani.replies + 1);
      return false;
    }

    method MarkSanitizing(m: EraseMethod)
      modifies this`sani
      ensures sani == UpdateSanitizeStatus(old(sani), m)
    {
      sani := sani.(estimated := 0);
      sani := sani.(status := InProgress);
      sani := sani.(inProgress := true);
      sani := sani.(eraseType := m);
      sani := sani.(sanitizing := true, acked := true, replies := 0);
    }

    method SanitizeReplied(m: EraseMethod, r: Reply)
      requires Valid() && !halted
      modifies this`sani, this`history
      ensures Valid() && Stepped(old(Now()), Now(), Replied(Sanitize(m), r))
    {
      Takes(Replied(Sanitize(m), r));
      hide DevStep, DevExec;
      history := Then(history, Replied(Sanitize(m), r));
      if r.Bad? {
        sani := sani.(status := Failed);
        sani := sani.(inProgress := false);
        return;
      }
      MarkSanitizing(m);
    }

    method ConcludeSanitize(res: nat)
      modifies this`sani
      ensures sani == ApplyVerdict(old(sani), res)
    {
      if res == COMPLETE_SUCCESS || res == ND_COMPLETE_SUCCESS {
        sani := sani.(status := Completed);
        SetProgress(100);
        sani := sani.(inProgress := false);
      } else if res == COMPLETED_FAILED {
        sani := sani.(status := Failed);
        SetProgress(0);
        sani := sani.(inProgress := false);
      }
    }

    method SanitizeLogReplied(r: Reply)
      requires Valid() && !halted
      requires Fits(READ_SANITIZE, r)
      modifies this`sani, this`halted, this`arms, this`history
      ensures Valid() && Stepped(old(Now()), Now(), Replied(READ_SANITIZE, r))
    {
      Takes(Replied(READ_SANITIZE, r));
      hide DevStep, DevExec;
      history := Then(history, Replied(READ_SANITIZE, r));
      if r.Bad? { return; }
      var log := r.payload.log;
      var res := log.status % 8;
      if res != IN_PROGRESS {
        ConcludeSanitize(res);
        PollDrive();
        return;
      }
      var time := 0;
      if sani.eraseType == CryptoErase {
        time := if sani.nodmmas != 0 then log.cryptoEraseNd else log.cryptoErase;
      } else if sani.eraseType == BlockErase {
        time := if sani.nodmmas != 0 then log.blockEraseNd else log.blockErase;
      } else if sani.eraseType == Overwrite {
        time := if sani.nodmmas != 0 then log.overwriteNd else log.overwrite;
      }
      var trapped := UpdateProgressPercent(time);
      if trapped {
        halted := true;
      }
    }

    method EraseDrive(m: EraseMethod) returns (result: EraseResult)
      requires Valid() && !halted
      modifies this`issued, this`history
      ensures Valid() && Stepped(old(Now()), Now(), Erase(m))
      ensures result == EraseOutcome(old(View()), m)
    {
      Takes(Erase(m));
      hide DevStep, DevExec;
      history := Then(history, Erase(m));
      if sani.inProgress {
        return NotAllowed;
      }
      if m !in sani.capability {
        return Unsupported;
      }
      Issue(Sanitize(m));
      return Started;
    }

    /** The dispatch of a reply to the handler its command was given. */
    method HandleReply(c: Command, r: Reply)
      requires Valid() && !halted && Fits(c, r)
      requires c.GetLog? ==> c == READ_SMART || c == READ_SANITIZE
      modifies this
      ensures Valid() && Stepped(old(Now()), Now(), Replied(c, r))
    {
      hide DevStep, DevExec;
      match c {
        case ScanControllers => ScanReplied(r);
        case Identify => IdentifyReplied(r);
        case PortInformation => PortReplied(r);
        case HealthPoll => HealthReplied(r);
        case GetLog(lid, _) => if lid == SmartLog { SmartReplied(r); } else { SanitizeLogReplied(r); }
        case Sanitize(m) => SanitizeReplied(m, r);
        case _ =>
          Takes(Replied(c, r));
          history := Then(history, Replied(c, r));
      }
    }
  }
}
