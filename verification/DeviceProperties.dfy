/** What holds of one drive after every sequence of replies, timer expiries and calls. */
module DeviceProperties {
  import opened Types
  import opened DriveTypes
  import opened Device
  import Progress
  import LinkSpeed

  // ------------------------------------------------------------ what a step does to each part of the state

  predicate GoodReply(a: DevAction) {
    a.Replied? && a.reply.Good? && Fits(a.command, a.reply) && !LacksData(a.command, a.reply)
  }

  predicate IsSmart(c: Command) {
    c.GetLog? && c.lid == SmartLog
  }

  predicate IsSanitizeLog(c: Command) {
    c.GetLog? && c.lid == SanitizeLog
  }

  function HealthNext(h: HealthState, a: DevAction): HealthState {
    if GoodReply(a) && a.command == HealthPoll then
      var functional := a.reply.payload.health.status & FUNCTIONAL_BIT != 0;
      MarkFunctional(h, functional).(functionalBits := h.functionalBits + [functional])
    else if GoodReply(a) && IsSmart(a.command) then OnSmartPage(h, a.reply.payload.warning)
    else if a.Inject? then h.(injected := SetFault(h.injected, a.kind, a.value))
    else if a.Associate? && a.association != "" then UpdateDriveAssociations(h.(driveAssociation := a.association))
    else h
  }

  lemma HealthPart(d: Dev, a: DevAction)
    ensures DevStep(d, a).dev.healthState == if d.halted then d.healthState else HealthNext(d.healthState, a)
  {
    match a
    case Replied(c, r) =>
    case _ =>
  }

  function SaniNext(s: Sani, a: DevAction): Sani {
    if GoodReply(a) && a.command == Identify then
      s.(capability := Capabilities(a.reply.payload.sanicap),
         nodmmas := SetNodmmas((a.reply.payload.sanicap & 0xff) as bv8))
    else if GoodReply(a) && IsSanitizeLog(a.command) then
      var log := a.reply.payload.log;
      if Verdict(log) != IN_PROGRESS then ApplyVerdict(s, Verdict(log))
      else (match UpdatePercent(s, EstimateFor(s, log)) case None => s case Some(t) => t)
    else if GoodReply(a) && a.command.Sanitize? then UpdateSanitizeStatus(s, a.command.eraseMethod)
    else if a.Replied? && a.reply.Bad? && a.command.Sanitize? then s.(status := Failed, inProgress := false)
    else s
  }

  lemma SaniPart(d: Dev, a: DevAction)
    ensures DevStep(d, a).dev.sani == if d.halted then d.sani else SaniNext(d.sani, a)
  {
    match a
    case Replied(c, r) =>
    case _ =>
  }

  // ------------------------------------------------------------ health, associations, functional state

  function AssociationsFor(health: HealthLevel, objPath: string, driveAssociation: string): seq<Association> {
    (match health
     case OK => []
     case Warning => [("health", "warning", objPath)]
     case Critical => [("health", "critical", objPath)])
    + [("chassis", "drive", if driveAssociation == "" then DEFAULT_LOCATION else driveAssociation)]
  }

  /** Rebuilding the list gives that function exactly if the drive has an association of its own. */
  lemma RefreshedExactly(h: HealthState)
    ensures UpdateDriveAssociations(h).assocs == AssociationsFor(h.health, h.objPath, h.driveAssociation) <==>
              h.driveAssociation != ""
  {
    var refreshed, right := UpdateDriveAssociations(h).assocs, AssociationsFor(h.health, h.objPath, h.driveAssociation);
    assert refreshed[|refreshed| - 1] == ("chassis", "drive", h.driveAssociation);
    if h.driveAssociation == "" {
      assert right[|right| - 1] == ("chassis", "drive", DEFAULT_LOCATION);
      assert |DEFAULT_LOCATION| > 0;
    }
  }

  /** The number of true-to-false edges, counted from an initial true. */
  function Edges(bits: seq<bool>): nat {
    if bits == [] then 0
    else
      var n := |bits| - 1;
      Edges(bits[..n]) + (if !bits[n] && (n == 0 || bits[n - 1]) then 1 else 0)
  }

  ghost predicate HealthInv(h: HealthState) {
    && h.assocs == AssociationsFor(h.health, h.objPath, h.driveAssociation)
    && h.functional == h.driveFunctional && h.fault == !h.driveFunctional
    && (h.health == Critical ==> !h.driveFunctional)
    && h.driveFunctional == (h.functionalBits == [] || h.functionalBits[|h.functionalBits| - 1])
    && multiset(h.events)[DriveFailure] == Edges(h.functionalBits)
  }

  lemma SmartEventsHaveNoFailure(warning: bv8)
    ensures multiset(SmartEvents(warning))[DriveFailure] == 0
  {
    assert DriveFailure !in SmartEvents(warning);
  }

  lemma SmartKeepsHealth(h: HealthState, warning: bv8)
    requires HealthInv(h)
    ensures HealthInv(OnSmartPage(h, warning))
  {
    hide FaultsOf, WithInjected, SmartEvents, Decimal;
    SmartEventsHaveNoFailure(WithInjected(warning, h.injected));
  }

  lemma EdgesGrow(bits: seq<bool>, b: bool)
    ensures Edges(bits + [b]) == Edges(bits) + (if !b && (bits == [] || bits[|bits| - 1]) then 1 else 0)
  {
    var n, all := |bits|, bits + [b];
    assert all[..n] == bits && all[n] == b && (n > 0 ==> all[n - 1] == bits[n - 1]);
    hide Edges;
    EdgesAt(all, n);
  }

  lemma EdgesAt(bits: seq<bool>, n: nat)
    requires |bits| == n + 1
    ensures Edges(bits) == Edges(bits[..n]) + (if !bits[n] && (n == 0 || bits[n - 1]) then 1 else 0)
  {
  }

  lemma MarkFunctionalKeepsHealth(h: HealthState, functional: bool)
    requires HealthInv(h)
    ensures var m := MarkFunctional(h, functional);
            HealthInv(m.(functionalBits := h.functionalBits + [functional]))
  {
    EdgesGrow(h.functionalBits, functional);
    var m := MarkFunctional(h, functional);
    if h.driveFunctional && !functional {
      assert m.events == h.events + [DriveFailure];
      assert multiset(m.events) == multiset(h.events) + multiset{DriveFailure};
    } else {
      assert m.events == h.events;
    }
  }

  lemma HealthNextKeepsHealth(h: HealthState, a: DevAction)
    requires HealthInv(h)
    ensures HealthInv(HealthNext(h, a))
  {
    if GoodReply(a) && a.command == HealthPoll {
      MarkFunctionalKeepsHealth(h, a.reply.payload.health.status & FUNCTIONAL_BIT != 0);
    } else if GoodReply(a) && IsSmart(a.command) {
      SmartKeepsHealth(h, a.reply.payload.warning);
    }
  }

  /**
   In every reachable state the association list is the function of health, path and
   location above, the published functional and fault state mirror the drive's, and the
   drive-failure entries are the true-to-false edges of the health replies.
   */
  lemma {:induction false} HealthConsistent(path: string, g: Garbage, run: Run<DevAction>)
    ensures HealthInv(DevExec(path, g, run).healthState)
  {
    match run
    case Start =>
    case Then(before, a) =>
      HealthConsistent(path, g, before);
      HealthNextKeepsHealth(DevExec(path, g, before).healthState, a);
      HealthPart(DevExec(path, g, before), a);
  }

  /** A drive leaves Critical exactly when a health reply finds it functional or a SMART reading changes. */
  lemma CriticalLeftExactly(path: string, g: Garbage, run: Run<DevAction>, a: DevAction)
    requires DevExec(path, g, run).healthState.health == Critical && !DevExec(path, g, run).halted
    ensures var d := DevExec(path, g, run);
            DevStep(d, a).dev.healthState.health != Critical <==>
              GoodReply(a) &&
              ((a.command == HealthPoll && a.reply.payload.health.status & FUNCTIONAL_BIT != 0) ||
               (IsSmart(a.command) &&
                WithInjected(a.reply.payload.warning, d.healthState.injected) != d.healthState.smartWarning))
  {
    HealthConsistent(path, g, run);
    HealthPart(DevExec(path, g, run), a);
  }

  /** A health reply that finds a functional drive failed. */
  predicate Loses(h: HealthState, a: DevAction) {
    GoodReply(a) && a.command == HealthPoll && a.reply.payload.health.status & FUNCTIONAL_BIT == 0 && h.driveFunctional
  }

  /** A SMART reply whose effective reading is not the one before. */
  predicate BringsNews(h: HealthState, a: DevAction) {
    GoodReply(a) && IsSmart(a.command) && WithInjected(a.reply.payload.warning, h.injected) != h.smartWarning
  }

  /** A changed SMART reading has come since the drive last lost its functional state. */
  predicate NewsSinceLoss(path: string, g: Garbage, run: Run<DevAction>) {
    match run
    case Start => false
    case Then(before, a) =>
      var d := DevExec(path, g, before);
      if d.halted then NewsSinceLoss(path, g, before)
      else !Loses(d.healthState, a) && (BringsNews(d.healthState, a) || NewsSinceLoss(path, g, before))
  }

  lemma CriticalMoves(h: HealthState, a: DevAction, news: bool)
    requires h.health == Critical <==> !h.driveFunctional && !news
    ensures var t := HealthNext(h, a);
            t.health == Critical <==> !t.driveFunctional && !(!Loses(h, a) && (BringsNews(h, a) || news))
  {
    hide WithInjected, OnSmartPage, MarkFunctional, UpdateDriveAssociations, SetFault;
    if GoodReply(a) && a.command == HealthPoll {
      CriticalByHealth(h, a.reply.payload.health.status & FUNCTIONAL_BIT != 0);
    } else if GoodReply(a) && IsSmart(a.command) {
      CriticalBySmart(h, a.reply.payload.warning);
    } else if a.Associate? {
      CriticalByAssociation(h.(driveAssociation := a.association));
    }
  }

  lemma CriticalByHealth(h: HealthState, functional: bool)
    ensures var t := MarkFunctional(h, functional);
            t.driveFunctional == functional &&
            (t.health == Critical <==> if h.driveFunctional == functional then h.health == Critical else !functional)
  {
  }

  lemma CriticalBySmart(h: HealthState, warning: bv8)
    ensures var t := OnSmartPage(h, warning);
            t.driveFunctional == h.driveFunctional &&
            (t.health == Critical <==> WithInjected(warning, h.injected) == h.smartWarning && h.health == Critical)
  {
    hide WithInjected, FaultsOf, Decimal, SmartEvents;
  }

  lemma CriticalByAssociation(h: HealthState)
    ensures var t := UpdateDriveAssociations(h); t.health == h.health && t.driveFunctional == h.driveFunctional
  {
  }

  /** In every run a drive is Critical exactly if it is not functional and no changed SMART reading came since. */
  lemma {:induction false} CriticalExactly(path: string, g: Garbage, run: Run<DevAction>)
    ensures var h := DevExec(path, g, run).healthState;
            h.health == Critical <==> !h.driveFunctional && !NewsSinceLoss(path, g, run)
  {
    match run
    case Start =>
    case Then(before, a) =>
      var d := DevExec(path, g, before);
      CriticalExactly(path, g, before);
      HealthPart(d, a);
      CriticalMoves(d.healthState, a, NewsSinceLoss(path, g, before));
      hide DevStep, HealthNext, Loses, BringsNews;
  }

  // ------------------------------------------------------------ change-triggered SMART publishing

  /** The flags computed straight from the drive's byte and the injected faults. */
  function DirectFaults(warning: bv8, f: Faults): Faults {
    Faults(warning & VOLATILE_BIT != 0 || f.backup, warning & TEMPERATURE_BIT != 0 || f.temperature,
           warning & DEGRADED_BIT != 0 || f.degrades, warning & MEDIA_BIT != 0 || f.media,
           warning & SPARE_BIT != 0 || f.capacity)
  }

  /** A reading is news if it differs from its predecessor; the first one is compared with 0xff. */
  predicate IsNews(readings: seq<bv8>, i: nat)
    requires i < |readings|
  {
    readings[i] != (if i == 0 then UNREAD else readings[i - 1])
  }

  /** How often a bit is set in a reading that is news. */
  function Raised(readings: seq<bv8>, bit: bv8): nat {
    if readings == [] then 0
    else
      var n := |readings| - 1;
      Raised(readings[..n], bit) + (if IsNews(readings, n) && readings[n] & bit != 0 then 1 else 0)
  }

  predicate DefinedBit(bit: bv8) {
    bit == SPARE_BIT || bit == TEMPERATURE_BIT || bit == DEGRADED_BIT || bit == MEDIA_BIT || bit == VOLATILE_BIT
    || bit == PMR_BIT
  }

  predicate AllUnread(readings: seq<bv8>) {
    forall i :: 0 <= i < |readings| ==> readings[i] == UNREAD
  }

  /** Published is what the last reading says, unless every reading so far was 0xff. */
  predicate PublishedInv(h: HealthState) {
    && h.smartWarning == (if h.readings == [] then UNREAD else h.readings[|h.readings| - 1])
    && (if AllUnread(h.readings) then h.published == NO_FAULTS && h.warnings == ""
        else h.published == FaultsOf(h.smartWarning) && h.warnings == Decimal(h.smartWarning as nat))
  }

  ghost predicate SmartInv(h: HealthState) {
    && PublishedInv(h)
    && (forall bit :: DefinedBit(bit) ==> multiset(h.events)[SmartEvent(bit)] == Raised(h.readings, bit))
  }

  lemma InjectedBits(warning: bv8, f: Faults)
    ensures FaultsOf(WithInjected(warning, f)) == DirectFaults(warning, f)
    ensures WithInjected(warning, f) & 0xE0 == warning & 0xE0
  {
  }

  lemma EventIfCount(warning: bv8, b: bv8, bit: bv8, n: nat)
    requires n == if warning & bit != 0 then 1 else 0
    ensures multiset(EventIf(warning, b))[SmartEvent(bit)] == (if b == bit then n else 0)
  {
  }

  lemma SmartEventCount(warning: bv8, bit: bv8)
    requires DefinedBit(bit)
    ensures multiset(SmartEvents(warning))[SmartEvent(bit)] == (if warning & bit != 0 then 1 else 0)
  {
    var n := if warning & bit != 0 then 1 else 0;
    EventIfCount(warning, PMR_BIT, bit, n);
    EventIfCount(warning, VOLATILE_BIT, bit, n);
    EventIfCount(warning, SPARE_BIT, bit, n);
    EventIfCount(warning, DEGRADED_BIT, bit, n);
    EventIfCount(warning, MEDIA_BIT, bit, n);
    EventIfCount(warning, TEMPERATURE_BIT, bit, n);
    hide EventIf;
    SixParts(EventIf(warning, PMR_BIT), EventIf(warning, VOLATILE_BIT), EventIf(warning, SPARE_BIT),
             EventIf(warning, DEGRADED_BIT), EventIf(warning, MEDIA_BIT), EventIf(warning, TEMPERATURE_BIT),
             SmartEvent(bit));
  }

  lemma SixParts(a: seq<LogEntry>, b: seq<LogEntry>, c: seq<LogEntry>, d: seq<LogEntry>, e: seq<LogEntry>,
                 f: seq<LogEntry>, x: LogEntry)
    ensures multiset(a + b + c + d + e + f)[x] ==
            multiset(a)[x] + multiset(b)[x] + multiset(c)[x] + multiset(d)[x] + multiset(e)[x] + multiset(f)[x]
  {
  }

  lemma RaisedGrows(readings: seq<bv8>, cw: bv8, bit: bv8)
    ensures Raised(readings + [cw], bit) ==
            Raised(readings, bit) + (if IsNews(readings + [cw], |readings|) && cw & bit != 0 then 1 else 0)
  {
    assert (readings + [cw])[..|readings|] == readings;
  }

  lemma SmartAdds(h: HealthState, warning: bv8)
    ensures var cw := WithInjected(warning, h.injected);
            var t := OnSmartPage(h, warning);
            && t.readings == h.readings + [cw]
            && t.events == h.events + (if cw == h.smartWarning then [] else SmartEvents(cw))
  {
    hide WithInjected, SmartEvents;
  }

  lemma SmartKeepsCounts(h: HealthState, warning: bv8, bit: bv8)
    requires PublishedInv(h) && DefinedBit(bit)
    requires multiset(h.events)[SmartEvent(bit)] == Raised(h.readings, bit)
    ensures var t := OnSmartPage(h, warning); multiset(t.events)[SmartEvent(bit)] == Raised(t.readings, bit)
  {
    var cw := WithInjected(warning, h.injected);
    hide WithInjected, SmartEvents, OnSmartPage, Raised, DefinedBit;
    SmartAdds(h, warning);
    RaisedGrows(h.readings, cw, bit);
    SmartEventCount(cw, bit);
    assert IsNews(h.readings + [cw], |h.readings|) <==> cw != h.smartWarning;
  }

  lemma SmartKeepsPublished(h: HealthState, warning: bv8)
    requires PublishedInv(h)
    ensures PublishedInv(OnSmartPage(h, warning)) && OnSmartPage(h, warning).readings != []
  {
    hide WithInjected, FaultsOf, Decimal, SmartEvents, MarkStatus;
    var cw := WithInjected(warning, h.injected);
    var t := OnSmartPage(h, warning);
    assert t.readings == h.readings + [cw];
    assert forall i :: 0 <= i < |h.readings| ==> t.readings[i] == h.readings[i];
    assert t.readings[|h.readings|] == cw;
    MarkStatusLeaves(h.(published := FaultsOf(cw), warnings := Decimal(cw as nat)),
                     if cw != 0 then "warning" else "ok");
  }

  lemma MarkStatusLeaves(h: HealthState, word: string)
    ensures var t := MarkStatus(h, word);
            t.published == h.published && t.warnings == h.warnings && t.readings == h.readings
  {
  }

  lemma MarkFunctionalKeepsSmart(h: HealthState, functional: bool)
    requires SmartInv(h)
    ensures SmartInv(MarkFunctional(h, functional))
  {
    var m := MarkFunctional(h, functional);
    assert m.events == h.events || m.events == h.events + [DriveFailure];
    forall bit | DefinedBit(bit) ensures multiset(m.events)[SmartEvent(bit)] == Raised(m.readings, bit) {
      assert multiset(h.events)[SmartEvent(bit)] == Raised(h.readings, bit);
    }
  }

  lemma SmartPageKeepsSmart(h: HealthState, warning: bv8)
    requires SmartInv(h)
    ensures SmartInv(OnSmartPage(h, warning))
  {
    SmartKeepsPublished(h, warning);
    var t := OnSmartPage(h, warning);
    forall bit | DefinedBit(bit) ensures multiset(t.events)[SmartEvent(bit)] == Raised(t.readings, bit) {
      SmartKeepsCounts(h, warning, bit);
    }
  }

  lemma HealthNextKeepsSmart(h: HealthState, a: DevAction)
    requires SmartInv(h)
    ensures SmartInv(HealthNext(h, a))
  {
    if GoodReply(a) && a.command == HealthPoll {
      MarkFunctionalKeepsSmart(h, a.reply.payload.health.status & FUNCTIONAL_BIT != 0);
    } else if GoodReply(a) && IsSmart(a.command) {
      SmartPageKeepsSmart(h, a.reply.payload.warning);
    }
  }

  /** Over every run the event entries of each defined bit are counted by the readings that are news. */
  lemma {:induction false} SmartEntriesCounted(path: string, g: Garbage, run: Run<DevAction>)
    ensures SmartInv(DevExec(path, g, run).healthState)
  {
    match run
    case Start =>
    case Then(before, a) =>
      SmartEntriesCounted(path, g, before);
      HealthNextKeepsSmart(DevExec(path, g, before).healthState, a);
      HealthPart(DevExec(path, g, before), a);
  }

  /**
   After a successful SMART reply the published flags and text are those computed
   directly, exactly unless every effective reading so far has been 0xff.
   */
  lemma SmartPublishesExactly(path: string, g: Garbage, run: Run<DevAction>, warning: bv8)
    requires !DevExec(path, g, run).halted
    ensures var d := DevExec(path, g, run);
            var h := DevStep(d, Replied(READ_SMART, Good(Smart(warning)))).dev.healthState;
            h.published == DirectFaults(warning, d.healthState.injected)
              && h.warnings == Decimal(WithInjected(warning, d.healthState.injected) as nat)
            <==> exists i :: 0 <= i < |h.readings| && h.readings[i] != UNREAD
  {
    SmartEntriesCounted(path, g, run);
    var d := DevExec(path, g, run);
    InjectedBits(warning, d.healthState.injected);
    SmartKeepsPublished(d.healthState, warning);
    DecimalNotEmpty(WithInjected(warning, d.healthState.injected) as nat);
  }

  lemma DecimalNotEmpty(n: nat)
    ensures Decimal(n) != ""
  {
  }

  /** In particular they are right whenever the drive leaves the two reserved bits clear. */
  lemma SmartPublishesDirect(path: string, g: Garbage, run: Run<DevAction>, warning: bv8)
    requires !DevExec(path, g, run).halted && warning & 0xC0 == 0
    ensures var d := DevExec(path, g, run);
            var h := DevStep(d, Replied(READ_SMART, Good(Smart(warning)))).dev.healthState;
            h.published == DirectFaults(warning, d.healthState.injected)
            && h.warnings == Decimal(WithInjected(warning, d.healthState.injected) as nat)
  {
    var d := DevExec(path, g, run);
    SmartPublishesExactly(path, g, run, warning);
    InjectedBits(warning, d.healthState.injected);
    ReservedBitClear(warning, WithInjected(warning, d.healthState.injected));
    var h := DevStep(d, Replied(READ_SMART, Good(Smart(warning)))).dev.healthState;
    assert h.readings[|h.readings| - 1] != UNREAD;
  }

  lemma ReservedBitClear(w: bv8, cw: bv8)
    requires w & 0xC0 == 0 && cw & 0xE0 == w & 0xE0
    ensures cw != UNREAD
  {
  }

  // ------------------------------------------------------------ injected faults

  function FlagOf(f: Faults, k: FaultKind): bool {
    match k
    case BackupDevice => f.backup
    case Temperature => f.temperature
    case Degrades => f.degrades
    case Media => f.media
    case Capacity => f.capacity
  }

  /** Neither a SMART reply nor another setting of the same fault. */
  predicate LeavesInjection(a: DevAction, k: FaultKind) {
    !(GoodReply(a) && IsSmart(a.command)) && !(a.Inject? && a.kind == k)
  }

  lemma InjectionSets(h: HealthState, k: FaultKind, value: bool)
    ensures var t := HealthNext(h, Inject(k, value));
            t == h.(injected := t.injected) && FlagOf(t.injected, k) == value
            && forall j :: j != k ==> FlagOf(t.injected, j) == FlagOf(h.injected, j)
  {
  }

  lemma InjectionStays(h: HealthState, a: DevAction, k: FaultKind)
    requires LeavesInjection(a, k)
    ensures var t := HealthNext(h, a);
            t.published == h.published && t.warnings == h.warnings && FlagOf(t.injected, k) == FlagOf(h.injected, k)
  {
    hide OnSmartPage, MarkStatus, MarkFunctional, SmartEvents;
    if a.Inject? { InjectionSets(h, a.kind, a.value); }
    MarkFunctionalLeaves(h, GoodReply(a) && a.command == HealthPoll
        && a.reply.payload.health.status & FUNCTIONAL_BIT != 0);
  }

  lemma MarkFunctionalLeaves(h: HealthState, functional: bool)
    ensures var t := MarkFunctional(h, functional);
            t.published == h.published && t.warnings == h.warnings && t.injected == h.injected
  {
  }

  lemma {:induction false} InjectionWaits(path: string, g: Garbage, run: Run<DevAction>, k: FaultKind,
                                          later: seq<DevAction>)
    requires forall i :: 0 <= i < |later| ==> LeavesInjection(later[i], k)
    ensures var h := DevExec(path, g, run).healthState;
            var t := DevExec(path, g, Extend(run, later)).healthState;
            t.published == h.published && t.warnings == h.warnings && FlagOf(t.injected, k) == FlagOf(h.injected, k)
    ensures DevExec(path, g, run).halted ==> DevExec(path, g, Extend(run, later)).halted
  {
    if later != [] {
      var n := |later| - 1;
      InjectionWaits(path, g, run, k, later[..n]);
      var d := DevExec(path, g, Extend(run, later[..n]));
      HealthPart(d, later[n]);
      InjectionStays(d.healthState, later[n], k);
      if d.halted { HaltStays(d, later[n]); }
      hide DevStep, HealthNext, FlagOf, LeavesInjection;
    }
  }

  lemma DirectFlag(warning: bv8, f: Faults, k: FaultKind)
    ensures FlagOf(DirectFaults(warning, f), k) == (FlagOf(f, k) || warning & MaskOf(k) != 0)
  {
  }

  /**
   A fault injected over D-Bus publishes nothing, however long it takes, until the next SMART reply, and that reply then
   publishes it: the fault's flag is the injected value or the drive's bit.
   */
  lemma InjectionShown(path: string, g: Garbage, run: Run<DevAction>, k: FaultKind, value: bool, later: seq<DevAction>,
                       warning: bv8)
    requires forall i :: 0 <= i < |later| ==> LeavesInjection(later[i], k)
    requires !DevExec(path, g, Extend(Then(run, Inject(k, value)), later)).halted && warning & 0xC0 == 0
    ensures var h := DevExec(path, g, run).healthState;
            var d := DevExec(path, g, Extend(Then(run, Inject(k, value)), later));
            var t := DevStep(d, Replied(READ_SMART, Good(Smart(warning)))).dev.healthState;
            && d.healthState.published == h.published && d.healthState.warnings == h.warnings
            && FlagOf(t.published, k) == (value || warning & MaskOf(k) != 0)
  {
    var d0 := DevExec(path, g, run);
    var r1 := Then(run, Inject(k, value));
    assert DevExec(path, g, r1) == DevStep(d0, Inject(k, value)).dev;
    hide DevStep, DevExec, HealthNext, FlagOf, LeavesInjection, DirectFaults, MaskOf;
    InjectionWaits(path, g, r1, k, later);
    if d0.halted { HaltStays(d0, Inject(k, value)); }
    HealthPart(d0, Inject(k, value));
    InjectionSets(d0.healthState, k, value);
    SmartPublishesDirect(path, g, Extend(r1, later), warning);
    DirectFlag(warning, DevExec(path, g, Extend(r1, later)).healthState.injected, k);
  }

  // ------------------------------------------------------------ link speeds and life used

  function InfoNext(i: Info, a: DevAction): Info {
    if GoodReply(a) && a.command == HealthPoll then
      var used := a.reply.payload.health.lifeUsed as nat;
      i.(lifeUsed := Decimal(used), lifeLeft := 100 - Progress.Min(100, used))
    else if GoodReply(a) && a.command == PortInformation then
      var p := a.reply.payload.port;
      i.(maxSpeed := LinkSpeed.MaxLinkSpeed(p.supported, p.maxLanes),
         currentSpeed := LinkSpeed.CurrLinkSpeed(p.speed, p.lanes))
    else i
  }

  lemma InfoPart(d: Dev, a: DevAction)
    ensures DevStep(d, a).dev.info == if d.halted then d.info else InfoNext(d.info, a)
  {
    match a
    case Replied(c, r) =>
    case _ =>
  }

  /** A port whose link is down, or negotiated within what the port supports. */
  predicate SoundPort(p: PortPage) {
    p.speed == 0 || (1 <= p.speed <= 5 && LinkSpeed.Supports(p.supported, p.speed as nat - 1) && p.lanes <= p.maxLanes)
  }

  predicate SoundPorts(run: Run<DevAction>) {
    run.Start? ||
    (SoundPorts(run.before) &&
     (GoodReply(run.last) && run.last.command == PortInformation ==> SoundPort(run.last.reply.payload.port)))
  }

  /** The text of the life used agrees with the percentage left, also when the drive reports more than 100. */
  ghost predicate LifeInv(i: Info) {
    (i.lifeUsed == "" && i.lifeLeft == 0) ||
    exists used: nat :: i.lifeUsed == Decimal(used) && i.lifeLeft == (if used > 100 then 0 else 100 - used)
  }

  /** As long as the ports report sound links, the published current speed never exceeds the published maximum. */
  lemma {:induction false} InfoConsistent(path: string, g: Garbage, run: Run<DevAction>)
    ensures LifeInv(DevExec(path, g, run).info)
    ensures SoundPorts(run) ==> DevExec(path, g, run).info.currentSpeed <= DevExec(path, g, run).info.maxSpeed
  {
    match run
    case Start =>
    case Then(before, a) =>
      InfoConsistent(path, g, before);
      InfoPart(DevExec(path, g, before), a);
      hide DevStep, Decimal, LinkSpeed.TopSpeed, LinkSpeed.Pow2;
      if GoodReply(a) && a.command == HealthPoll {
        assert InfoNext(DevExec(path, g, before).info, a).lifeUsed == Decimal(a.reply.payload.health.lifeUsed as nat);
      }
      if GoodReply(a) && a.command == PortInformation && SoundPorts(run) {
        var p := a.reply.payload.port;
        if p.speed != 0 { LinkSpeed.CurrentWithinMaximum(p.supported, p.maxLanes, p.speed, p.lanes); }
      }
  }

  // ------------------------------------------------------------ sanitize progress

  ghost predicate SaniInv(s: Sani) {
    && (s.inProgress ==> s.sanitizing && s.status == InProgress && s.acked)
    && (s.acked ==> s.estimated == Progress.Elapsed(s.replies))
    && (forall i :: 0 <= i < |s.writes| ==>
         s.writes[i].0 <= 100 && (s.writes[i].0 == 100 ==> s.writes[i].1 == Completed))
    && (s.progress == if s.writes == [] then 0 else s.writes[|s.writes| - 1].0)
  }

  lemma PercentKeepsSani(s: Sani, endTime: nat)
    requires SaniInv(s)
    ensures UpdatePercent(s, endTime).Some? ==> SaniInv(UpdatePercent(s, endTime).value)
  {
    Progress.PercentBounded(Progress.NextTime(s.estimated), endTime);
  }

  lemma SaniNextKeepsSani(s: Sani, a: DevAction)
    requires SaniInv(s)
    ensures SaniInv(SaniNext(s, a))
  {
    hide UpdatePercent, EstimateFor, Capabilities, SetNodmmas;
    if GoodReply(a) && IsSanitizeLog(a.command) {
      PercentKeepsSani(s, EstimateFor(s, a.reply.payload.log));
    }
  }

  /**
   In every reachable state: a sanitize in progress is published as such; the elapsed
   estimate after k in-progress replies is 5k modulo 2^32; no progress above 100 is ever
   written, and 100 only together with Completed.
   */
  lemma {:induction false} SanitizeConsistent(path: string, g: Garbage, run: Run<DevAction>)
    ensures SaniInv(DevExec(path, g, run).sani)
    ensures var s := DevExec(path, g, run).sani; s.acked ==> s.estimated == (5 * s.replies) % TWO_TO_THE_32
  {
    match run
    case Start =>
    case Then(before, a) =>
      SanitizeConsistent(path, g, before);
      SaniNextKeepsSani(DevExec(path, g, before).sani, a);
      SaniPart(DevExec(path, g, before), a);
      Progress.ElapsedIs(DevExec(path, g, run).sani.replies);
  }

  function Page(log: SanitizePage): DevAction {
    Replied(READ_SANITIZE, Good(SanitizeStatus(log)))
  }

  lemma PageIs(d: Dev, log: SanitizePage)
    requires !d.halted && Verdict(log) == IN_PROGRESS
    ensures var o := DevStep(d, Page(log));
            match UpdatePercent(d.sani, EstimateFor(d.sani, log))
            case None => o.dev.halted
            case Some(s) => o.dev.sani == s && !o.dev.halted
  {
    hide UpdatePercent, EstimateFor;
  }

  /** What an in-progress reply publishes: the percentage of the elapsed time so far under the estimate it carries. */
  lemma InProgressPublishes(path: string, g: Garbage, run: Run<DevAction>, log: SanitizePage)
    requires Verdict(log) == IN_PROGRESS && DevExec(path, g, run).sani.acked
    requires !DevExec(path, g, Then(run, Page(log))).halted
    ensures var s, t := DevExec(path, g, run).sani, DevExec(path, g, Then(run, Page(log))).sani;
            && t.acked && t.replies == s.replies + 1
            && Some(t.progress) == Progress.Percent((5 * t.replies) % TWO_TO_THE_32, EstimateFor(s, log))
            && EstimateFor(s, log) != 0
  {
    var d := DevExec(path, g, run);
    if d.halted { HaltStays(d, Page(log)); }
    PageIs(d, log);
    SanitizeConsistent(path, g, run);
    SanitizeConsistent(path, g, Then(run, Page(log)));
    Progress.PercentBounded(Progress.NextTime(d.sani.estimated), EstimateFor(d.sani, log));
    hide DevStep, EstimateFor, Progress.Percent;
  }

  predicate Acknowledges(a: DevAction) {
    GoodReply(a) && a.command.Sanitize?
  }

  lemma RepliesGrow(s: Sani, a: DevAction)
    requires s.acked && !Acknowledges(a)
    ensures SaniNext(s, a).acked && SaniNext(s, a).replies >= s.replies
  {
    hide EstimateFor, Progress.Percent, Capabilities, SetNodmmas;
  }

  lemma {:induction false} OperationGoesOn(path: string, g: Garbage, run: Run<DevAction>, later: seq<DevAction>)
    requires DevExec(path, g, run).sani.acked
    requires forall i :: 0 <= i < |later| ==> !Acknowledges(later[i])
    ensures var s, t := DevExec(path, g, run).sani, DevExec(path, g, Extend(run, later)).sani;
            t.acked && t.replies >= s.replies
    ensures DevExec(path, g, run).halted ==> DevExec(path, g, Extend(run, later)).halted
  {
    if later != [] {
      var n := |later| - 1;
      OperationGoesOn(path, g, run, later[..n]);
      var d := DevExec(path, g, Extend(run, later[..n]));
      SaniPart(d, later[n]);
      RepliesGrow(d.sani, later[n]);
      if d.halted { HaltStays(d, later[n]); }
      hide DevStep, SaniNext, Acknowledges;
    }
  }

  /**
   Within one operation and under one estimate the published percentage does not go back from one in-progress reply to
   any later one, as long as the elapsed time a hundredfold fits 32 bits.
   */
  lemma ProgressGrows(path: string, g: Garbage, run: Run<DevAction>, log: SanitizePage, later: seq<DevAction>,
                      next: SanitizePage)
    requires Verdict(log) == IN_PROGRESS && Verdict(next) == IN_PROGRESS && DevExec(path, g, run).sani.acked
    requires forall i :: 0 <= i < |later| ==> !Acknowledges(later[i])
    requires !DevExec(path, g, Then(Extend(Then(run, Page(log)), later), Page(next))).halted
    requires EstimateFor(DevExec(path, g, run).sani, log) ==
             EstimateFor(DevExec(path, g, Extend(Then(run, Page(log)), later)).sani, next)
    requires 500 * DevExec(path, g, Then(Extend(Then(run, Page(log)), later), Page(next))).sani.replies < TWO_TO_THE_32
    ensures DevExec(path, g, Then(run, Page(log))).sani.progress <=
            DevExec(path, g, Then(Extend(Then(run, Page(log)), later), Page(next))).sani.progress
  {
    var r1 := Then(run, Page(log));
    SecondReply(path, g, run, log, r1, Extend(r1, later), later, next);
  }

  lemma SecondReply(path: string, g: Garbage, run: Run<DevAction>, log: SanitizePage, r1: Run<DevAction>,
                    r2: Run<DevAction>, later: seq<DevAction>, next: SanitizePage)
    requires Verdict(log) == IN_PROGRESS && Verdict(next) == IN_PROGRESS && DevExec(path, g, run).sani.acked
    requires forall i :: 0 <= i < |later| ==> !Acknowledges(later[i])
    requires r1 == Then(run, Page(log)) && r2 == Extend(r1, later) && !DevExec(path, g, Then(r2, Page(next))).halted
    requires EstimateFor(DevExec(path, g, run).sani, log) == EstimateFor(DevExec(path, g, r2).sani, next)
    requires 500 * DevExec(path, g, Then(r2, Page(next))).sani.replies < TWO_TO_THE_32
    ensures DevExec(path, g, r1).sani.progress <= DevExec(path, g, Then(r2, Page(next))).sani.progress
  {
    hide DevExec, DevStep, EstimateFor, Progress.Percent, Acknowledges, Extend, Verdict;
    ExecIs(path, g, r2, Page(next));
    ExecIs(path, g, run, Page(log));
    if DevExec(path, g, r2).halted { HaltStays(DevExec(path, g, r2), Page(next)); }
    AckedByPage(DevExec(path, g, run), log);
    OperationGoesOn(path, g, r1, later);
    InProgressPublishes(path, g, run, log);
    InProgressPublishes(path, g, r2, next);
    Progress.RepliesMonotone(DevExec(path, g, r1).sani.replies, DevExec(path, g, Then(r2, Page(next))).sani.replies,
                             EstimateFor(DevExec(path, g, run).sani, log));
  }

  lemma AckedByPage(d: Dev, log: SanitizePage)
    requires d.sani.acked
    ensures DevStep(d, Page(log)).dev.sani.acked
  {
    SaniPart(d, Page(log));
    RepliesGrow(d.sani, Page(log));
    hide DevStep, SaniNext;
  }

  /**
   A step traps exactly on an in-progress reply whose matching estimate is zero, where it divides, or on a reply that
   comes without an error and without the data its handler reads, where it follows a null pointer.
   */
  lemma HaltsExactly(d: Dev, a: DevAction)
    requires !d.halted
    ensures DevStep(d, a).dev.halted <==>
              (GoodReply(a) && IsSanitizeLog(a.command)
               && Verdict(a.reply.payload.log) == IN_PROGRESS && EstimateFor(d.sani, a.reply.payload.log) == 0)
              || (a.Replied? && LacksData(a.command, a.reply))
  {
    if GoodReply(a) && IsSanitizeLog(a.command) {
      Progress.PercentBounded(Progress.NextTime(d.sani.estimated), EstimateFor(d.sani, a.reply.payload.log));
    }
  }

  /**
   What an acknowledged sanitize starts with: the percentage left over from before, so zero exactly if that was
   zero.
   */
  lemma StartsAtZeroExactly(path: string, g: Garbage, run: Run<DevAction>, m: EraseMethod, payload: Payload)
    requires !DevExec(path, g, run).halted
    ensures var s := DevExec(path, g, run).sani;
            var t := DevExec(path, g, Then(run, Replied(Sanitize(m), Good(payload)))).sani;
            && t.inProgress && t.status == InProgress
            && (t.progress == 0 <==> s.progress == 0)
            && (t.progress == 0 <==> s.writes == [] || s.writes[|s.writes| - 1].0 == 0)
  {
    SanitizeConsistent(path, g, run);
  }

  lemma MaskIsZero(v: bv8)
    ensures SetNodmmas(v) == 0
  {
  }

  /** Some identify reply has been taken over. */
  predicate Identified(path: string, g: Garbage, run: Run<DevAction>) {
    run.Then? &&
    (Identified(path, g, run.before) ||
     (!DevExec(path, g, run.before).halted && GoodReply(run.last) && run.last.command == Identify))
  }

  /** The flag keeps its initial value until the first identify reply is taken over and is zero from then on. */
  lemma {:induction false} NodmmasNeverSet(path: string, g: Garbage, run: Run<DevAction>)
    ensures var s := DevExec(path, g, run).sani;
            && s.nodmmas == (if Identified(path, g, run) then 0 else g.nodmmas)
            && (s.nodmmas == g.nodmmas || s.nodmmas == 0)
            && (s.capability != [] ==> Identified(path, g, run) && s.nodmmas == 0)
  {
    hide DevStep, SaniNext;
    match run
    case Start =>
    case Then(before, a) =>
      NodmmasNeverSet(path, g, before);
      SaniPart(DevExec(path, g, before), a);
      NodmmasMoves(DevExec(path, g, before).sani, a);
  }

  lemma NodmmasMoves(s: Sani, a: DevAction)
    ensures var t := SaniNext(s, a);
            if GoodReply(a) && a.command == Identify then t.nodmmas == 0
            else t.nodmmas == s.nodmmas && t.capability == s.capability
  {
    hide Capabilities, SetNodmmas, EstimateFor;
    if GoodReply(a) && a.command == Identify {
      MaskIsZero((a.reply.payload.sanicap & 0xff) as bv8);
    }
  }

  /** So the flag says what bit 31 of the reported capability says exactly if that bit is clear. */
  lemma NodmmasMeantExactly(d: Dev, cap: bv32)
    requires !d.halted
    ensures var t := DevStep(d, Replied(Identify, Good(Identity(cap)))).dev.sani;
            (t.nodmmas != 0 <==> cap & 0x8000_0000 != 0) <==> cap & 0x8000_0000 == 0
  {
    MaskIsZero((cap & 0xff) as bv8);
    SaniPart(d, Replied(Identify, Good(Identity(cap))));
    hide DevStep, SetNodmmas, Capabilities;
  }
}
