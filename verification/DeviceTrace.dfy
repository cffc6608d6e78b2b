/**
 What the drive publishes, told from the replies and calls alone: each field of the state is what the last replies that
 bear on it say, in the bits and fields of those replies.
 */
module DeviceTrace {
  import opened Types
  import opened DriveTypes
  import opened Device
  import opened DeviceProperties
  import Progress
  import LinkSpeed

  // ------------------------------------------------------------ decimal texts

  function Digit(c: char): nat {
    if '0' <= c <= '9' then (c as int) - ('0' as int) else 0
  }

  function Parse(s: string): nat {
    if s == "" then 0 else 10 * Parse(s[..|s| - 1]) + Digit(s[|s| - 1])
  }

  /** Reading a text back gives the number, and the text is digits without a leading zero. */
  lemma {:induction false} ParseDecimal(n: nat)
    ensures Parse(Decimal(n)) == n
    ensures Decimal(n) != "" && (forall i :: 0 <= i < |Decimal(n)| ==> '0' <= Decimal(n)[i] <= '9')
    ensures |Decimal(n)| > 1 ==> Decimal(n)[0] != '0'
  {
    var front := if n < 10 then "" else Decimal(n / 10);
    hide Decimal, Digit, Parse;
    DigitText(n % 10);
    if n >= 10 { ParseDecimal(n / 10); } else { NothingParsed(); }
    LastDigit(n, front);
    ParseSnoc(front, DIGITS[n % 10]);
    TensAndOnes(n);
  }

  lemma NothingParsed()
    ensures Parse("") == 0
  {
  }

  lemma ParseSnoc(front: string, c: char)
    ensures Parse(front + [c]) == 10 * Parse(front) + Digit(c)
  {
    assert (front + [c])[..|front|] == front;
  }

  lemma TensAndOnes(n: nat)
    ensures n == 10 * (n / 10) + n % 10 && (n < 10 ==> n / 10 == 0) && (n >= 10 ==> n / 10 > 0)
  {
  }

  const DIGITS: string := "0123456789"

  lemma DigitText(d: nat)
    requires d < 10
    ensures |DIGITS| == 10 && Digit(DIGITS[d]) == d && '0' <= DIGITS[d] <= '9' && (d > 0 ==> DIGITS[d] != '0')
  {
  }

  lemma LastDigit(n: nat, front: string)
    requires front == if n < 10 then "" else Decimal(n / 10)
    ensures |DIGITS| == 10 && Decimal(n) == front + [DIGITS[n % 10]]
  {
  }

  // ------------------------------------------------------------ replies with their data

  function HealthReply(a: DevAction): Option<HealthPage> {
    if a.Replied? && a.command == HealthPoll && a.reply.Good? && a.reply.payload.Health?
    then Some(a.reply.payload.health) else None
  }

  function SmartReply(a: DevAction): Option<bv8> {
    if a.Replied? && a.command.GetLog? && a.command.lid == SmartLog && a.reply.Good? && a.reply.payload.Smart?
    then Some(a.reply.payload.warning) else None
  }

  function IdentifyReply(a: DevAction): Option<bv32> {
    if a.Replied? && a.command == Identify && a.reply.Good? && a.reply.payload.Identity?
    then Some(a.reply.payload.sanicap) else None
  }

  function PortReply(a: DevAction): Option<PortPage> {
    if a.Replied? && a.command == PortInformation && a.reply.Good? && a.reply.payload.Port?
    then Some(a.reply.payload.port) else None
  }

  /** The controllers that a scan found, none if it failed. */
  function ScanReply(a: DevAction): Option<seq<nat>> {
    if !a.Replied? || a.command != ScanControllers then None
    else if a.reply.Bad? then Some([])
    else if a.reply.payload.Controllers? then Some(a.reply.payload.list) else None
  }

  function LogReply(a: DevAction): Option<SanitizePage> {
    if a.Replied? && a.command.GetLog? && a.command.lid == SanitizeLog
       && a.reply.Good? && a.reply.payload.SanitizeStatus?
    then Some(a.reply.payload.log) else None
  }

  function AckReply(a: DevAction): Option<EraseMethod> {
    if a.Replied? && a.command.Sanitize? && a.reply.Good? then Some(a.command.eraseMethod) else None
  }

  predicate RefusedSanitize(a: DevAction) {
    a.Replied? && a.command.Sanitize? && a.reply.Bad?
  }

  /** The program has not trapped, so the next action is taken. */
  predicate Live(path: string, g: Garbage, run: Run<DevAction>) {
    !DevExec(path, g, run).halted
  }

  // ------------------------------------------------------------ health and life used

  function LastHealth(path: string, g: Garbage, run: Run<DevAction>): Option<HealthPage> {
    match run
    case Start => None
    case Then(before, a) =>
      if Live(path, g, before) && HealthReply(a).Some? then HealthReply(a) else LastHealth(path, g, before)
  }

  lemma HealthMoves(h: HealthState, a: DevAction)
    ensures HealthNext(h, a).driveFunctional ==
            match HealthReply(a) case Some(p) => p.status & 0x20 != 0 case None => h.driveFunctional
  {
    hide WithInjected, FaultsOf, Decimal, SmartEvents, MarkStatus;
    if GoodReply(a) && IsSmart(a.command) { CriticalBySmart(h, a.reply.payload.warning); }
  }

  lemma LifeMoves(i: Info, a: DevAction)
    ensures var t := InfoNext(i, a);
            match HealthReply(a)
            case Some(p) => t.lifeUsed == Decimal(p.lifeUsed as nat) &&
                            t.lifeLeft == (if p.lifeUsed > 100 then 0 else 100 - p.lifeUsed as nat)
            case None => t.lifeUsed == i.lifeUsed && t.lifeLeft == i.lifeLeft
  {
    hide Decimal;
  }

  lemma {:induction false} HealthIs(path: string, g: Garbage, run: Run<DevAction>)
    ensures var d := DevExec(path, g, run);
            match LastHealth(path, g, run)
            case None => d.info.lifeUsed == "" && d.info.lifeLeft == 0 && d.healthState.driveFunctional
            case Some(p) =>
              && d.info.lifeUsed == Decimal(p.lifeUsed as nat)
              && d.info.lifeLeft == (if p.lifeUsed > 100 then 0 else 100 - p.lifeUsed as nat)
              && d.healthState.driveFunctional == (p.status & 0x20 != 0)
  {
    match run
    case Start =>
    case Then(before, a) =>
      HealthIs(path, g, before);
      var d := DevExec(path, g, before);
      InfoPart(d, a);
      HealthPart(d, a);
      LifeMoves(d.info, a);
      HealthMoves(d.healthState, a);
      hide DevStep, HealthNext, InfoNext, HealthReply, Decimal;
  }

  /** The last health reply is what is published: bit 5 of its status, the life used, and the life left. */
  lemma HealthPublished(path: string, g: Garbage, run: Run<DevAction>)
    ensures var d := DevExec(path, g, run);
            match LastHealth(path, g, run)
            case None =>
              d.info.lifeUsed == "" && d.info.lifeLeft == 0 && d.healthState.functional && !d.healthState.fault
            case Some(p) =>
              && d.info.lifeUsed != "" && Parse(d.info.lifeUsed) == p.lifeUsed as nat
              && d.info.lifeLeft == (if p.lifeUsed > 100 then 0 else 100 - p.lifeUsed as nat)
              && d.healthState.functional == (p.status & 0x20 != 0) && d.healthState.fault == (p.status & 0x20 == 0)
  {
    HealthIs(path, g, run);
    HealthConsistent(path, g, run);
    hide DevExec, Decimal, Parse;
    match LastHealth(path, g, run)
    case None =>
    case Some(p) => ParseDecimal(p.lifeUsed as nat);
  }

  // ------------------------------------------------------------ ports

  function LastPort(path: string, g: Garbage, run: Run<DevAction>): Option<PortPage> {
    match run
    case Start => None
    case Then(before, a) =>
      if Live(path, g, before) && PortReply(a).Some? then PortReply(a) else LastPort(path, g, before)
  }

  lemma PortMoves(i: Info, a: DevAction)
    ensures var t := InfoNext(i, a);
            match PortReply(a)
            case Some(p) =>
              && t.maxSpeed == LinkSpeed.Pow2(LinkSpeed.TopSpeed(p.supported, 5)) * p.maxLanes as nat
              && t.currentSpeed == (if p.speed == 0 then 0
                                    else if p.speed <= 5 then LinkSpeed.Pow2(p.speed as nat) * p.lanes as nat
                                    else p.lanes as nat)
            case None => t.maxSpeed == i.maxSpeed && t.currentSpeed == i.currentSpeed
  {
    hide Decimal, LinkSpeed.Pow2, LinkSpeed.TopSpeed;
  }

  /** The last port page is what is published: the top supported speed on all its lanes, and the negotiated link. */
  lemma {:induction false} PortPublished(path: string, g: Garbage, run: Run<DevAction>)
    ensures var i := DevExec(path, g, run).info;
            match LastPort(path, g, run)
            case None => i.maxSpeed == 0 && i.currentSpeed == 0
            case Some(p) =>
              && i.maxSpeed == LinkSpeed.Pow2(LinkSpeed.TopSpeed(p.supported, 5)) * p.maxLanes as nat
              && i.currentSpeed == (if p.speed == 0 then 0
                                    else if p.speed <= 5 then LinkSpeed.Pow2(p.speed as nat) * p.lanes as nat
                                    else p.lanes as nat)
  {
    match run
    case Start =>
    case Then(before, a) =>
      PortPublished(path, g, before);
      InfoPart(DevExec(path, g, before), a);
      PortMoves(DevExec(path, g, before).info, a);
      hide DevStep, InfoNext, PortReply, LinkSpeed.Pow2, LinkSpeed.TopSpeed;
  }

  // ------------------------------------------------------------ presence and controller

  function ControlNext(c: Control, a: DevAction): Control {
    if a == Initialize || (a == TimerFired && !c.presence) then c.(presence := false)
    else if a.Replied? && a.command == ScanControllers && Fits(a.command, a.reply) then
      (if a.reply.Bad? || a.reply.payload.list == [] then c.(presence := false, present := false)
       else c.(presence := true, present := true, ctrl := a.reply.payload.list[|a.reply.payload.list| - 1]))
    else if a.Replied? && a.command == Identify && a.reply.Bad? then
      c.(retry := if c.retry < 3 then c.retry + 1 else 0)
    else c
  }

  lemma ControlPart(d: Dev, a: DevAction)
    ensures DevStep(d, a).dev.control == if d.halted then d.control else ControlNext(d.control, a)
  {
    match a
    case Replied(c, r) =>
    case _ =>
  }

  /** What the last scan reply found; nothing if there was none yet. */
  function LastScan(path: string, g: Garbage, run: Run<DevAction>): Option<seq<nat>> {
    match run
    case Start => None
    case Then(before, a) =>
      if Live(path, g, before) && ScanReply(a).Some? then ScanReply(a) else LastScan(path, g, before)
  }

  /** What the last scan that found a controller found. */
  function LastFound(path: string, g: Garbage, run: Run<DevAction>): Option<seq<nat>> {
    match run
    case Start => None
    case Then(before, a) =>
      if Live(path, g, before) && ScanReply(a).Some? && ScanReply(a).value != [] then ScanReply(a)
      else LastFound(path, g, before)
  }

  /** A scan has found a controller, and since then neither has one failed nor has the drive been initialised. */
  predicate FoundSince(path: string, g: Garbage, run: Run<DevAction>) {
    match run
    case Start => g.presence
    case Then(before, a) =>
      if !Live(path, g, before) then FoundSince(path, g, before)
      else if ScanReply(a).Some? then ScanReply(a).value != []
      else a != Initialize && FoundSince(path, g, before)
  }

  /**
   A drive is published as present exactly if its last scan found a controller; it counts as present for the timer's
   handler exactly if it also has not been initialised since; and the controller it talks to is the last one of the last
   scan that found any.
   */
  lemma {:induction false} PresencePublished(path: string, g: Garbage, run: Run<DevAction>)
    ensures var c := DevExec(path, g, run).control;
            && (c.present <==> LastScan(path, g, run).Some? && LastScan(path, g, run).value != [])
            && (c.presence <==> FoundSince(path, g, run))
            && c.ctrl == (match LastFound(path, g, run)
                          case None => g.ctrl
                          case Some(list) => if list == [] then g.ctrl else list[|list| - 1])
    ensures LastFound(path, g, run) != Some([])
  {
    match run
    case Start =>
    case Then(before, a) =>
      PresencePublished(path, g, before);
      ControlPart(DevExec(path, g, before), a);
      hide DevStep;
  }

  // ------------------------------------------------------------ capabilities

  function LastIdentify(path: string, g: Garbage, run: Run<DevAction>): Option<bv32> {
    match run
    case Start => None
    case Then(before, a) =>
      if Live(path, g, before) && IdentifyReply(a).Some? then IdentifyReply(a) else LastIdentify(path, g, before)
  }

  lemma CapabilitiesAre(c: bv32)
    ensures Overwrite in Capabilities(c) <==> c & 0x4 != 0
    ensures BlockErase in Capabilities(c) <==> c & 0x2 != 0
    ensures CryptoErase in Capabilities(c) <==> c & 0x1 != 0
    ensures forall i, j :: 0 <= i < j < |Capabilities(c)| ==> Capabilities(c)[i] != Capabilities(c)[j]
  {
    Listed(c & 0x4 != 0, c & 0x2 != 0, c & 0x1 != 0);
  }

  lemma Listed(o: bool, b: bool, c: bool)
    ensures var s :=
              (if o then [Overwrite] else []) + (if b then [BlockErase] else []) + (if c then [CryptoErase] else []);
            && (Overwrite in s <==> o) && (BlockErase in s <==> b) && (CryptoErase in s <==> c)
            && forall i, j :: 0 <= i < j < |s| ==> s[i] != s[j]
  {
  }

  lemma CapabilityMoves(s: Sani, a: DevAction)
    ensures SaniNext(s, a).capability ==
            match IdentifyReply(a) case Some(c) => Capabilities(c) case None => s.capability
  {
    hide Capabilities, SetNodmmas, EstimateFor;
  }

  lemma {:induction false} CapabilityIs(path: string, g: Garbage, run: Run<DevAction>)
    ensures DevExec(path, g, run).sani.capability ==
            match LastIdentify(path, g, run) case None => [] case Some(c) => Capabilities(c)
  {
    match run
    case Start =>
    case Then(before, a) =>
      CapabilityIs(path, g, before);
      SaniPart(DevExec(path, g, before), a);
      CapabilityMoves(DevExec(path, g, before).sani, a);
      hide DevStep, SaniNext, IdentifyReply, Capabilities;
  }

  /** The bit of the sanitize capability that stands for a method. */
  predicate Reported(c: bv32, m: EraseMethod) {
    match m
    case Overwrite => c & 0x4 != 0
    case BlockErase => c & 0x2 != 0
    case CryptoErase => c & 0x1 != 0
  }

  /** A method is published as a capability exactly if its bit of the last identify reply is set, and at most once. */
  lemma CapabilitiesPublished(path: string, g: Garbage, run: Run<DevAction>)
    ensures var cap := DevExec(path, g, run).sani.capability;
            match LastIdentify(path, g, run)
            case None => cap == []
            case Some(c) =>
              && (Overwrite in cap <==> c & 0x4 != 0)
              && (BlockErase in cap <==> c & 0x2 != 0)
              && (CryptoErase in cap <==> c & 0x1 != 0)
              && (forall i, j :: 0 <= i < j < |cap| ==> cap[i] != cap[j])
  {
    CapabilityIs(path, g, run);
    hide DevExec, Capabilities;
    match LastIdentify(path, g, run)
    case None =>
    case Some(c) => CapabilitiesAre(c);
  }

  /**
   An erase starts exactly if none is in progress and the bit of its method is set in the drive's last report; then it
   issues one sanitize of that very method, and otherwise nothing.
   */
  lemma EraseStartsExactly(path: string, g: Garbage, run: Run<DevAction>, m: EraseMethod)
    requires Live(path, g, run)
    ensures var d := DevExec(path, g, run);
            var cap := LastIdentify(path, g, run);
            var starts := !d.sani.inProgress && cap.Some? && Reported(cap.value, m);
            && DevStep(d, Erase(m)) == Outcome(d, if starts then [Sanitize(m)] else [], false)
            && (EraseOutcome(d, m) == Started <==> starts)
            && (EraseOutcome(d, m) == NotAllowed <==> d.sani.inProgress)
  {
    CapabilitiesPublished(path, g, run);
    StepIs(DevExec(path, g, run), Erase(m));
    hide DevStep, DevExec;
  }

  // ------------------------------------------------------------ sanitize: the state of the operation

  function EstimateOf(m: EraseMethod, noDeallocate: bool, log: SanitizePage): nat {
    match m
    case CryptoErase => if noDeallocate then log.cryptoEraseNd else log.cryptoErase
    case BlockErase => if noDeallocate then log.blockEraseNd else log.blockErase
    case Overwrite => if noDeallocate then log.overwriteNd else log.overwrite
  }

  /** The product of the program, in its 32 bits. */
  function Hundredfold(time: nat): nat {
    (time * 100) % 0x1_0000_0000
  }

  /** The percentage after a time under an estimate, 0xffffffff standing for the default of thirty seconds. */
  function PercentAt(time: nat, estimate: nat): int
    requires estimate != 0
  {
    var end := if estimate == 0xFFFF_FFFF then 30 else estimate;
    if time >= end then 99 else Hundredfold(time) / end
  }

  /** The program's clock after a number of polls, in its 32 bits. */
  function Clock(polls: nat): nat {
    (5 * polls) % 0x1_0000_0000
  }

  /** The method of the last acknowledged sanitize. */
  function LastAck(path: string, g: Garbage, run: Run<DevAction>): Option<EraseMethod> {
    match run
    case Start => None
    case Then(before, a) =>
      if Live(path, g, before) && AckReply(a).Some? then AckReply(a) else LastAck(path, g, before)
  }

  /** The in-progress pages since the last acknowledgement, or since the beginning. */
  function Polls(path: string, g: Garbage, run: Run<DevAction>): nat {
    match run
    case Start => 0
    case Then(before, a) =>
      if !Live(path, g, before) then Polls(path, g, before)
      else if AckReply(a).Some? then 0
      else if LogReply(a).Some? && LogReply(a).value.status % 8 == 2 && Live(path, g, run)
      then Polls(path, g, before) + 1
      else Polls(path, g, before)
  }

  lemma AckMoves(s: Sani, a: DevAction)
    ensures var t := SaniNext(s, a);
            match AckReply(a)
            case Some(m) =>
              && t.eraseType == m && t.acked && t.estimated == 0 && t.replies == 0 && t.sanitizing
              && t.inProgress && t.status == InProgress && t.progress == s.progress
            case None => t.eraseType == s.eraseType && (t.acked <==> s.acked)
  {
    hide EstimateFor, Progress.Percent, Capabilities, SetNodmmas;
  }

  lemma PollMoves(d: Dev, a: DevAction)
    requires !d.halted && AckReply(a) == None
    ensures var t := DevStep(d, a).dev;
            if LogReply(a).Some? && LogReply(a).value.status % 8 == 2 && !t.halted
            then t.sani.replies == d.sani.replies + 1 && t.sani.estimated == (d.sani.estimated + 5) % 0x1_0000_0000
            else t.sani.replies == d.sani.replies && t.sani.estimated == d.sani.estimated
  {
    SaniPart(d, a);
    HaltsExactly(d, a);
    hide DevStep, Capabilities, SetNodmmas, EstimateFor;
    if LogReply(a).Some? {
      Progress.PercentBounded(Progress.NextTime(d.sani.estimated), EstimateFor(d.sani, LogReply(a).value));
    }
  }

  /**
   The method that a drive believes in progress is that of the last acknowledged sanitize; and from the first one on,
   the elapsed estimate is five seconds for each in-progress page since, modulo 2^32.
   */
  lemma {:induction false} OperationFollowsAck(path: string, g: Garbage, run: Run<DevAction>)
    ensures var s := DevExec(path, g, run).sani;
            && s.eraseType == (match LastAck(path, g, run) case None => g.eraseType case Some(m) => m)
            && (s.acked <==> LastAck(path, g, run).Some?)
            && (s.inProgress ==> LastAck(path, g, run) == Some(s.eraseType))
            && s.replies == Polls(path, g, run)
            && (s.acked ==> s.estimated == Clock(Polls(path, g, run)))
  {
    SanitizeConsistent(path, g, run);
    match run
    case Start =>
    case Then(before, a) =>
      OperationFollowsAck(path, g, before);
      var d := DevExec(path, g, before);
      SaniPart(d, a);
      AckMoves(d.sani, a);
      if !d.halted && AckReply(a) == None { PollMoves(d, a); }
      if !d.halted && AckReply(a) == None { ClockMoves(Polls(path, g, before)); }
      hide DevStep, SaniNext, AckReply, LogReply, SaniInv, Clock;
  }

  lemma ClockMoves(k: nat)
    ensures Clock(0) == 0 && (Clock(k) + 5) % 0x1_0000_0000 == Clock(k + 1)
  {
    Progress.NextTimeAdds(5 * k);
  }

  lemma VerdictMoves(d: Dev, a: DevAction)
    requires !d.halted && LogReply(a).Some?
    ensures var t := DevStep(d, a).dev.sani;
            var v := LogReply(a).value.status % 8;
            && (v == 1 || v == 4 ==> t.status == Completed && t.progress == 100 && !t.inProgress)
            && (v == 3 ==> t.status == Failed && t.progress == 0 && !t.inProgress)
            && (v != 1 && v != 3 && v != 4 ==> t.status == d.sani.status && t.inProgress == d.sani.inProgress)
            && (v != 1 && v != 2 && v != 3 && v != 4 ==> t == d.sani)
  {
    hide EstimateFor, Progress.Percent;
  }

  /**
   What a sanitize log publishes in every run: the low three bits 1 or 4 complete the operation with 100 percent, 3
   fails it with 0, and anything but these and 2 changes nothing.
   */
  lemma VerdictPublishes(path: string, g: Garbage, run: Run<DevAction>, a: DevAction)
    requires Live(path, g, run) && LogReply(a).Some?
    ensures var s, t := DevExec(path, g, run).sani, DevExec(path, g, Then(run, a)).sani;
            var v := LogReply(a).value.status % 8;
            && (v == 1 || v == 4 ==> t.status == Completed && t.progress == 100 && !t.inProgress)
            && (v == 3 ==> t.status == Failed && t.progress == 0 && !t.inProgress)
            && (v == 0 || v == 5 || v == 6 || v == 7 ==>
                 t.status == s.status && t.progress == s.progress && t.inProgress == s.inProgress)
            && (v == 2 ==> t.status == s.status && t.inProgress == s.inProgress)
  {
    VerdictMoves(DevExec(path, g, run), a);
  }

  /**
   What an in-progress page publishes in every run after an acknowledgement: the percentage of the time since then
   under the one estimate that belongs to the acknowledged method; a zero there traps.  The estimates for "no
   deallocate" are used only as long as no identify reply has been taken over.
   */
  lemma InProgressPage(path: string, g: Garbage, run: Run<DevAction>, a: DevAction)
    requires Live(path, g, run) && LogReply(a).Some? && LogReply(a).value.status % 8 == 2
    requires LastAck(path, g, run).Some?
    ensures var log := LogReply(a).value;
            var nd := LastIdentify(path, g, run) == None && g.nodmmas != 0;
            var estimate := EstimateOf(LastAck(path, g, run).value, nd, log);
            && (Live(path, g, Then(run, a)) <==> estimate != 0)
            && (estimate != 0 ==>
                 DevExec(path, g, Then(run, a)).sani.progress ==
                 PercentAt(Clock(Polls(path, g, run) + 1), estimate))
  {
    var d := DevExec(path, g, run);
    var nd := LastIdentify(path, g, run) == None && g.nodmmas != 0;
    hide DevExec, DevStep, EstimateOf, PercentAt, Clock, Polls;
    OperationFollowsAck(path, g, run);
    FlagIs(path, g, run);
    PageAt(d, a, LastAck(path, g, run).value, nd, Polls(path, g, run));
    ExecIs(path, g, run, a);
  }

  lemma PageAt(d: Dev, a: DevAction, m: EraseMethod, noDeallocate: bool, polls: nat)
    requires !d.halted && LogReply(a).Some? && LogReply(a).value.status % 8 == 2
    requires d.sani.eraseType == m && (d.sani.nodmmas != 0 <==> noDeallocate) && d.sani.estimated == Clock(polls)
    ensures var t := DevStep(d, a).dev;
            var estimate := EstimateOf(m, noDeallocate, LogReply(a).value);
            && (t.halted <==> estimate == 0)
            && (estimate != 0 ==> t.sani.progress == PercentAt(Clock(polls + 1), estimate))
  {
    var estimate := EstimateFor(d.sani, LogReply(a).value);
    EstimateIs(d.sani, LogReply(a).value);
    hide DevStep, EstimateFor, EstimateOf, PercentAt, Clock;
    PageTraps(d, a);
    NextPoll(polls);
    if estimate != 0 { PageWrites(d, a, estimate); }
  }

  lemma NextPoll(k: nat)
    ensures Progress.NextTime(Clock(k)) == Clock(k + 1)
  {
    Progress.NextTimeAdds(5 * k);
    assert 5 * (k + 1) == 5 * k + 5;
    hide Progress.NextTime;
  }

  lemma PageTraps(d: Dev, a: DevAction)
    requires !d.halted && LogReply(a).Some? && LogReply(a).value.status % 8 == 2
    ensures DevStep(d, a).dev.halted <==> EstimateFor(d.sani, LogReply(a).value) == 0
  {
    hide DevStep, EstimateFor;
    HaltsExactly(d, a);
  }

  lemma EstimateIs(s: Sani, log: SanitizePage)
    ensures EstimateFor(s, log) == EstimateOf(s.eraseType, s.nodmmas != 0, log)
  {
  }

  lemma {:induction false} FlagIs(path: string, g: Garbage, run: Run<DevAction>)
    ensures DevExec(path, g, run).sani.nodmmas == if LastIdentify(path, g, run) == None then g.nodmmas else 0
  {
    match run
    case Start =>
    case Then(before, a) =>
      FlagIs(path, g, before);
      SaniPart(DevExec(path, g, before), a);
      FlagMoves(DevExec(path, g, before).sani, a);
      hide DevStep, SaniNext, IdentifyReply;
  }

  lemma FlagMoves(s: Sani, a: DevAction)
    ensures SaniNext(s, a).nodmmas == if IdentifyReply(a).Some? then 0 else s.nodmmas
  {
    hide SetNodmmas;
    NodmmasMoves(s, a);
    hide SaniNext;
  }

  lemma PageWrites(d: Dev, a: DevAction, estimate: nat)
    requires !d.halted && LogReply(a).Some? && LogReply(a).value.status % 8 == 2
    requires estimate == EstimateFor(d.sani, LogReply(a).value) != 0
    ensures DevStep(d, a).dev.sani.progress == PercentAt(Progress.NextTime(d.sani.estimated), estimate)
  {
    SaniPart(d, a);
    hide DevStep, EstimateFor, Progress.NextTime;
  }

  /** Whether and how the operation runs, told from the replies. */
  function OperationOf(path: string, g: Garbage, run: Run<DevAction>): (Status, bool) {
    match run
    case Start => (NoStatus, false)
    case Then(before, a) =>
      if !Live(path, g, before) then OperationOf(path, g, before)
      else if AckReply(a).Some? then (InProgress, true)
      else if RefusedSanitize(a) then (Failed, false)
      else if LogReply(a).Some? then
        var v := LogReply(a).value.status % 8;
        if v == 1 || v == 4 then (Completed, false)
        else if v == 3 then (Failed, false)
        else OperationOf(path, g, before)
      else OperationOf(path, g, before)
  }

  lemma OperationMoves(d: Dev, a: DevAction)
    requires !d.halted && AckReply(a) == None
    ensures var t := DevStep(d, a).dev.sani;
            if RefusedSanitize(a) then t.status == Failed && !t.inProgress
            else LogReply(a) == None ==> t.status == d.sani.status && t.inProgress == d.sani.inProgress
  {
    SaniPart(d, a);
    hide DevStep, EstimateFor, Progress.Percent, Capabilities, SetNodmmas;
  }

  /** In every run status and progress flag are what the last reply that bears on them says. */
  lemma {:induction false} OperationPublished(path: string, g: Garbage, run: Run<DevAction>)
    ensures var s := DevExec(path, g, run).sani; (s.status, s.inProgress) == OperationOf(path, g, run)
  {
    match run
    case Start =>
    case Then(before, a) =>
      OperationPublished(path, g, before);
      var d := DevExec(path, g, before);
      if d.halted {
        HaltStays(d, a);
      } else if AckReply(a).Some? {
        SaniPart(d, a);
        AckMoves(d.sani, a);
      } else {
        OperationMoves(d, a);
        if LogReply(a).Some? { VerdictMoves(d, a); }
      }
      hide DevStep, SaniNext, AckReply, LogReply;
  }

  // ------------------------------------------------------------ SMART readings and the health level

  /** Whether a fault was last injected or withdrawn. */
  predicate Injected(path: string, g: Garbage, run: Run<DevAction>, k: FaultKind) {
    match run
    case Start => false
    case Then(before, a) =>
      if Live(path, g, before) && a.Inject? && a.kind == k then a.value else Injected(path, g, before, k)
  }

  /** The drive's byte with the bits of the injected faults. */
  function Effective(path: string, g: Garbage, run: Run<DevAction>, warning: bv8): bv8 {
    warning
    | (if Injected(path, g, run, BackupDevice) then 0x10 else 0) | (if Injected(path, g, run, Media) then 0x08 else 0)
    | (if Injected(path, g, run, Degrades) then 0x04 else 0) | (if Injected(path, g, run, Temperature) then 0x02 else 0)
    | (if Injected(path, g, run, Capacity) then 0x01 else 0)
  }

  function Readings(path: string, g: Garbage, run: Run<DevAction>): seq<bv8> {
    match run
    case Start => []
    case Then(before, a) =>
      Readings(path, g, before) +
      (if Live(path, g, before) && SmartReply(a).Some? then [Effective(path, g, before, SmartReply(a).value)] else [])
  }

  /** Bit 5 of the status of each health reply. */
  function Bits(path: string, g: Garbage, run: Run<DevAction>): seq<bool> {
    match run
    case Start => []
    case Then(before, a) =>
      Bits(path, g, before) +
      (if Live(path, g, before) && HealthReply(a).Some? then [HealthReply(a).value.status & 0x20 != 0] else [])
  }

  lemma InjectionMoves(h: HealthState, a: DevAction, k: FaultKind)
    ensures FlagOf(HealthNext(h, a).injected, k) == if a.Inject? && a.kind == k then a.value else FlagOf(h.injected, k)
  {
    if a.Inject? {
      InjectionSets(h, a.kind, a.value);
    } else {
      hide OnSmartPage, MarkFunctional, FlagOf;
      InjectionKept(h, a);
    }
  }

  lemma InjectionKept(h: HealthState, a: DevAction)
    requires !a.Inject?
    ensures HealthNext(h, a).injected == h.injected
  {
    hide FaultsOf, WithInjected, Decimal, SmartEvents;
    MarkFunctionalLeaves(h, GoodReply(a) && a.command == HealthPoll
                            && a.reply.payload.health.status & FUNCTIONAL_BIT != 0);
  }

  lemma {:induction false} InjectedIs(path: string, g: Garbage, run: Run<DevAction>, k: FaultKind)
    ensures FlagOf(DevExec(path, g, run).healthState.injected, k) == Injected(path, g, run, k)
  {
    match run
    case Start =>
    case Then(before, a) =>
      InjectedIs(path, g, before, k);
      HealthPart(DevExec(path, g, before), a);
      InjectionMoves(DevExec(path, g, before).healthState, a, k);
      hide DevStep, HealthNext, FlagOf;
  }

  lemma EffectiveIs(path: string, g: Garbage, run: Run<DevAction>, warning: bv8)
    ensures WithInjected(warning, DevExec(path, g, run).healthState.injected) == Effective(path, g, run, warning)
  {
    var f := DevExec(path, g, run).healthState.injected;
    InjectedIs(path, g, run, BackupDevice);
    InjectedIs(path, g, run, Media);
    InjectedIs(path, g, run, Degrades);
    InjectedIs(path, g, run, Temperature);
    InjectedIs(path, g, run, Capacity);
    hide DevExec, Injected, FlagOf, WithInjected;
    SameBits(warning, f);
  }

  lemma SameBits(warning: bv8, f: Faults)
    ensures WithInjected(warning, f) ==
            warning
            | (if FlagOf(f, BackupDevice) then 0x10 else 0) | (if FlagOf(f, Media) then 0x08 else 0)
            | (if FlagOf(f, Degrades) then 0x04 else 0) | (if FlagOf(f, Temperature) then 0x02 else 0)
            | (if FlagOf(f, Capacity) then 0x01 else 0)
  {
  }

  lemma ReadingMoves(h: HealthState, a: DevAction)
    ensures var t := HealthNext(h, a);
            && t.readings == h.readings +
                 (match SmartReply(a) case Some(w) => [WithInjected(w, h.injected)] case None => [])
            && t.functionalBits == h.functionalBits +
                 (match HealthReply(a) case Some(p) => [p.status & 0x20 != 0] case None => [])
  {
    hide OnSmartPage, MarkFunctional, WithInjected, SetFault, UpdateDriveAssociations;
    assert h.readings + [] == h.readings && h.functionalBits + [] == h.functionalBits;
    if GoodReply(a) && a.command == HealthPoll {
      HealthLeavesReadings(h, a.reply.payload.health.status & FUNCTIONAL_BIT != 0);
    } else if GoodReply(a) && IsSmart(a.command) {
      SmartLeavesBits(h, a.reply.payload.warning);
    } else if a.Associate? {
      AssociationLeavesBoth(h.(driveAssociation := a.association));
    }
  }

  lemma HealthLeavesReadings(h: HealthState, functional: bool)
    ensures MarkFunctional(h, functional).readings == h.readings
  {
  }

  lemma SmartLeavesBits(h: HealthState, warning: bv8)
    ensures OnSmartPage(h, warning).readings == h.readings + [WithInjected(warning, h.injected)]
    ensures OnSmartPage(h, warning).functionalBits == h.functionalBits
  {
    hide WithInjected, FaultsOf, Decimal, SmartEvents;
  }

  lemma AssociationLeavesBoth(h: HealthState)
    ensures var t := UpdateDriveAssociations(h); t.readings == h.readings && t.functionalBits == h.functionalBits
  {
  }

  lemma {:induction false} TraceIs(path: string, g: Garbage, run: Run<DevAction>)
    ensures var h := DevExec(path, g, run).healthState;
            h.readings == Readings(path, g, run) && h.functionalBits == Bits(path, g, run)
  {
    match run
    case Start =>
    case Then(before, a) =>
      TraceIs(path, g, before);
      var d := DevExec(path, g, before);
      HealthPart(d, a);
      ReadingMoves(d.healthState, a);
      if SmartReply(a).Some? { EffectiveIs(path, g, before, SmartReply(a).value); }
      hide DevStep, HealthNext, SmartReply, HealthReply, WithInjected, Effective;
  }

  lemma FlagsAre(w: bv8)
    ensures FaultsOf(w) == Faults(w & 0x10 != 0, w & 0x02 != 0, w & 0x04 != 0, w & 0x08 != 0, w & 0x01 != 0)
  {
  }

  /**
   In every run the five flags are bits 4, 1, 2, 3 and 0 of the last effective reading and the text is its value, once
   some reading has not been 0xff; each event entry of one of the bits 0 to 5 stands for a reading with that bit that
   differs from the one before; and each failure entry for a health reply that finds a functional drive failed.
   */
  lemma SmartPublished(path: string, g: Garbage, run: Run<DevAction>, bit: bv8)
    requires bit == 0x01 || bit == 0x02 || bit == 0x04 || bit == 0x08 || bit == 0x10 || bit == 0x20
    ensures var h := DevExec(path, g, run).healthState;
            var rs := Readings(path, g, run);
            && (if forall i :: 0 <= i < |rs| ==> rs[i] == 0xff
                then h.published == Faults(false, false, false, false, false) && h.warnings == ""
                else
                  var w := rs[|rs| - 1];
                  && h.published == Faults(w & 0x10 != 0, w & 0x02 != 0, w & 0x04 != 0, w & 0x08 != 0, w & 0x01 != 0)
                  && h.warnings != "" && Parse(h.warnings) == w as nat)
            && multiset(h.events)[SmartEvent(bit)] == Raised(rs, bit)
            && multiset(h.events)[DriveFailure] == Edges(Bits(path, g, run))
  {
    TraceIs(path, g, run);
    SmartEntriesCounted(path, g, run);
    HealthConsistent(path, g, run);
    var rs := Readings(path, g, run);
    hide DevExec, Decimal, Parse, FaultsOf, Raised, Edges;
    assert DefinedBit(bit);
    if rs != [] {
      FlagsAre(rs[|rs| - 1]);
      ParseDecimal(rs[|rs| - 1] as nat);
    }
  }

  /** What last set the health level. */
  datatype HealthEvent = Built | Lost | Recovered | Changed(reading: bv8)

  /** What a reply makes of it, given the functional bit and effective reading before and the effective reading now. */
  function NextEvent(e: HealthEvent, functional: bool, reading: bv8, a: DevAction, effective: bv8): HealthEvent {
    if HealthReply(a).Some? then
      var now := HealthReply(a).value.status & 0x20 != 0;
      if now == functional then e else if now then Recovered else Lost
    else if SmartReply(a).Some? && effective != reading then Changed(effective)
    else e
  }

  function LastBit(bits: seq<bool>): bool {
    bits == [] || bits[|bits| - 1]
  }

  function LastReading(rs: seq<bv8>): bv8 {
    if rs == [] then 0xff else rs[|rs| - 1]
  }

  function Latest(path: string, g: Garbage, run: Run<DevAction>): HealthEvent {
    match run
    case Start => Built
    case Then(before, a) =>
      if !Live(path, g, before) then Latest(path, g, before)
      else
        NextEvent(Latest(path, g, before), LastBit(Bits(path, g, before)), LastReading(Readings(path, g, before)), a,
                  if SmartReply(a).Some? then Effective(path, g, before, SmartReply(a).value) else 0)
  }

  function LevelAfter(e: HealthEvent): HealthLevel {
    match e
    case Built => OK
    case Lost => Critical
    case Recovered => OK
    case Changed(r) => if r == 0 then OK else Warning
  }

  lemma LevelBySmart(h: HealthState, warning: bv8)
    ensures var cw := WithInjected(warning, h.injected);
            OnSmartPage(h, warning).health ==
            if cw == h.smartWarning then h.health else if cw == 0 then OK else Warning
  {
    hide WithInjected, FaultsOf, Decimal, SmartEvents;
  }

  lemma LevelByHealth(h: HealthState, functional: bool)
    ensures MarkFunctional(h, functional).health ==
            if h.driveFunctional == functional then h.health else if functional then OK else Critical
  {
  }

  lemma LevelMoves(h: HealthState, a: DevAction)
    ensures HealthNext(h, a).health ==
            match (HealthReply(a), SmartReply(a))
            case (Some(p), _) =>
              var now := p.status & 0x20 != 0;
              if now == h.driveFunctional then h.health else if now then OK else Critical
            case (None, Some(w)) =>
              var cw := WithInjected(w, h.injected);
              if cw == h.smartWarning then h.health else if cw == 0 then OK else Warning
            case (None, None) => h.health
  {
    hide OnSmartPage, MarkFunctional, WithInjected, SetFault;
    if GoodReply(a) && a.command == HealthPoll {
      LevelByHealth(h, a.reply.payload.health.status & FUNCTIONAL_BIT != 0);
    } else if GoodReply(a) && IsSmart(a.command) {
      LevelBySmart(h, a.reply.payload.warning);
    }
  }

  lemma LevelStep(h: HealthState, a: DevAction, e: HealthEvent, effective: bv8)
    requires h.health == LevelAfter(e)
    requires SmartReply(a).Some? ==> effective == WithInjected(SmartReply(a).value, h.injected)
    ensures HealthNext(h, a).health == LevelAfter(NextEvent(e, h.driveFunctional, h.smartWarning, a, effective))
  {
    hide HealthNext, WithInjected;
    LevelMoves(h, a);
  }

  lemma {:induction false} LevelIs(path: string, g: Garbage, run: Run<DevAction>)
    ensures DevExec(path, g, run).healthState.health == LevelAfter(Latest(path, g, run))
  {
    match run
    case Start =>
    case Then(before, a) =>
      hide DevStep, HealthNext, HealthReply, WithInjected, Effective, NextEvent, LevelAfter, LastBit, LastReading;
      LevelIs(path, g, before);
      LastOfEach(path, g, before);
      var d := DevExec(path, g, before);
      var effective := if SmartReply(a).Some? then Effective(path, g, before, SmartReply(a).value) else 0;
      HealthPart(d, a);
      if SmartReply(a).Some? { EffectiveIs(path, g, before, SmartReply(a).value); }
      LevelStep(d.healthState, a, Latest(path, g, before), effective);
  }

  lemma LastOfEach(path: string, g: Garbage, run: Run<DevAction>)
    ensures var h := DevExec(path, g, run).healthState;
            && h.driveFunctional == LastBit(Bits(path, g, run))
            && h.smartWarning == LastReading(Readings(path, g, run))
  {
    hide DevExec, Bits, Readings, FaultsOf, Raised, Edges, Decimal;
    TraceIs(path, g, run);
    SmartEntriesCounted(path, g, run);
    HealthConsistent(path, g, run);
  }

  /**
   In every run health is Warning exactly if what last set it was a change of the effective SMART reading to something
   other than zero, OK exactly if it was a change to zero, a return to functional, or the construction, and Critical
   exactly if it was a loss.
   */
  lemma HealthLevelExactly(path: string, g: Garbage, run: Run<DevAction>)
    ensures var h, e := DevExec(path, g, run).healthState.health, Latest(path, g, run);
            && (h == Warning <==> e.Changed? && e.reading != 0)
            && (h == OK <==> e == Changed(0) || e == Recovered || e == Built)
            && (h == Critical <==> e == Lost)
  {
    LevelIs(path, g, run);
  }

  // ------------------------------------------------------------ the log

  function Entry(w: bv8, bit: bv8): seq<LogEntry> {
    if w & bit == 0 then [] else [SmartEvent(bit)]
  }

  /** The entries for those of the bits that are set, in the order of the bits. */
  function Raising(w: bv8, bits: seq<bv8>): seq<LogEntry> {
    if bits == [] then [] else Raising(w, bits[..|bits| - 1]) + Entry(w, bits[|bits| - 1])
  }

  const REPORTED_BITS: seq<bv8> := [0x20, 0x10, 0x01, 0x04, 0x08, 0x02]

  lemma RaisingNext(w: bv8, bits: seq<bv8>, k: nat)
    requires k < |bits|
    ensures Raising(w, bits[..k + 1]) == Raising(w, bits[..k]) + Entry(w, bits[k])
  {
    assert bits[..k + 1][..k] == bits[..k];
    hide Entry;
  }

  lemma NothingRaised(w: bv8)
    ensures Raising(w, []) == []
  {
  }

  lemma EntryIs(w: bv8, bit: bv8)
    ensures Entry(w, bit) == EventIf(w, bit)
  {
  }

  lemma EntriesAre(w: bv8)
    ensures SmartEvents(w) == Raising(w, REPORTED_BITS)
  {
    hide Raising, Entry, EventIf;
    NothingRaised(w);
    assert [] + Entry(w, 0x20) == Entry(w, 0x20);
    RaisingNext(w, REPORTED_BITS, 0);
    RaisingNext(w, REPORTED_BITS, 1);
    RaisingNext(w, REPORTED_BITS, 2);
    RaisingNext(w, REPORTED_BITS, 3);
    RaisingNext(w, REPORTED_BITS, 4);
    RaisingNext(w, REPORTED_BITS, 5);
    assert REPORTED_BITS[..0] == [] && REPORTED_BITS[..6] == REPORTED_BITS;
    EntryIs(w, 0x20);
    EntryIs(w, 0x10);
    EntryIs(w, 0x01);
    EntryIs(w, 0x04);
    EntryIs(w, 0x08);
    EntryIs(w, 0x02);
  }

  /** The log entries, told from the replies. */
  function Entries(path: string, g: Garbage, run: Run<DevAction>): seq<LogEntry> {
    match run
    case Start => []
    case Then(before, a) =>
      if !Live(path, g, before) then Entries(path, g, before)
      else
        Entries(path, g, before) +
        NewEntries(LastBit(Bits(path, g, before)), LastReading(Readings(path, g, before)), a,
                   if SmartReply(a).Some? then Effective(path, g, before, SmartReply(a).value) else 0)
  }

  function NewEntries(functional: bool, reading: bv8, a: DevAction, effective: bv8): seq<LogEntry> {
    if HealthReply(a).Some? then
      (if functional && HealthReply(a).value.status & 0x20 == 0 then [DriveFailure] else [])
    else if SmartReply(a).Some? && effective != reading then Raising(effective, REPORTED_BITS)
    else []
  }

  lemma EventsMove(h: HealthState, a: DevAction, effective: bv8)
    requires SmartReply(a).Some? ==> effective == WithInjected(SmartReply(a).value, h.injected)
    ensures HealthNext(h, a).events == h.events + NewEntries(h.driveFunctional, h.smartWarning, a, effective)
  {
    hide OnSmartPage, MarkFunctional, WithInjected, SetFault, SmartEvents, Raising;
    assert h.events + [] == h.events;
    EntriesAre(effective);
    if GoodReply(a) && a.command == HealthPoll {
      EventsByHealth(h, a.reply.payload.health.status & FUNCTIONAL_BIT != 0);
    } else if GoodReply(a) && IsSmart(a.command) {
      EventsBySmart(h, a.reply.payload.warning);
    }
  }

  lemma EventsByHealth(h: HealthState, functional: bool)
    ensures MarkFunctional(h, functional).events ==
            if h.driveFunctional && !functional then h.events + [DriveFailure] else h.events
  {
  }

  lemma EventsBySmart(h: HealthState, warning: bv8)
    ensures var cw := WithInjected(warning, h.injected);
            OnSmartPage(h, warning).events == if cw == h.smartWarning then h.events else h.events + SmartEvents(cw)
  {
    hide WithInjected, FaultsOf, Decimal, SmartEvents;
  }

  /**
   In every run the log holds, in order: one failure entry for each health reply that finds a functional drive failed,
   and for each effective SMART reading that differs from the one before one entry for each of its bits 5, 4, 0, 2, 3
   and 1, in this order.
   */
  lemma {:induction false} LogExactly(path: string, g: Garbage, run: Run<DevAction>)
    ensures DevExec(path, g, run).healthState.events == Entries(path, g, run)
  {
    match run
    case Start =>
    case Then(before, a) =>
      hide DevStep, HealthNext, HealthReply, WithInjected, Effective, NewEntries, LastBit, LastReading, Readings, Bits;
      LogExactly(path, g, before);
      LastOfEach(path, g, before);
      var d := DevExec(path, g, before);
      var effective := if SmartReply(a).Some? then Effective(path, g, before, SmartReply(a).value) else 0;
      HealthPart(d, a);
      if SmartReply(a).Some? { EffectiveIs(path, g, before, SmartReply(a).value); }
      EventsMove(d.healthState, a, effective);
  }

  // ------------------------------------------------------------ which commands a step issues

  predicate IsSmartRead(a: DevAction) {
    a.Replied? && a.command.GetLog? && a.command.lid == SmartLog
  }

  /** A sanitize that the drive believes in progress keeps the poll to its log. */
  predicate Sanitizing(d: Dev) {
    d.sani.sanitizing && d.sani.inProgress
  }

  /**
   Which commands a step issues, command by command, each at most once; and when it re-arms the poll timer.
   */
  lemma IssuesExactly(d: Dev, a: DevAction)
    requires !d.halted && (a.Replied? ==> Fits(a.command, a.reply) && !LacksData(a.command, a.reply))
    ensures var o := DevStep(d, a);
            && (ScanControllers in o.issue <==> a == Initialize || (a == TimerFired && !d.control.presence))
            && (Identify in o.issue <==>
                 (ScanReply(a).Some? && ScanReply(a).value != [])
                 || (a.Replied? && a.command == Identify && a.reply.Bad? && d.control.retry < 3))
            && (PortInformation in o.issue <==>
                 IdentifyReply(a).Some?
                 || (a.Replied? && a.command == Identify && a.reply.Bad? && d.control.retry >= 3))
            && (HealthPoll in o.issue <==> a == TimerFired && d.control.presence && !Sanitizing(d))
            && (READ_SMART in o.issue <==> a == TimerFired && d.control.presence && !Sanitizing(d))
            && (READ_SANITIZE in o.issue <==> a == TimerFired && d.control.presence && Sanitizing(d))
            && (forall m :: Sanitize(m) in o.issue <==>
                 a == Erase(m) && !d.sani.inProgress && m in d.sani.capability)
            && (if HealthPoll in o.issue then o.issue == [HealthPoll, READ_SMART] else |o.issue| <= 1)
            && (o.rearm <==>
                 || (a.Replied? && a.command == PortInformation)
                 || IsSmartRead(a)
                 || (LogReply(a).Some? && LogReply(a).value.status % 8 != 2)
                 || (a == TimerFired && d.control.presence && Sanitizing(d)))
  {
    hide OnSmartPage, OnHealthPage, UpdateSanitizeStatus, Capabilities, SetNodmmas, SetFault, UpdateDriveAssociations,
      LinkSpeed.MaxLinkSpeed, LinkSpeed.CurrLinkSpeed, ApplyVerdict, UpdatePercent;
    match a
    case Replied(c, r) => RepliesIssue(d, c, r);
    case Erase(m) => EraseIssues(d, m);
    case _ =>
  }

  lemma EraseIssues(d: Dev, m: EraseMethod)
    requires !d.halted
    ensures DevStep(d, Erase(m)) ==
            Outcome(d, if !d.sani.inProgress && m in d.sani.capability then [Sanitize(m)] else [], false)
  {
  }

  lemma RepliesIssue(d: Dev, c: Command, r: Reply)
    requires !d.halted && Fits(c, r) && !LacksData(c, r)
    ensures var o := DevStep(d, Replied(c, r));
            && o.issue == (if c == ScanControllers && r.Good? && r.payload.list != [] then [Identify]
                           else if c == Identify && r.Bad? && d.control.retry < 3 then [Identify]
                           else if c == Identify then [PortInformation] else [])
            && (o.rearm <==>
                 || c == PortInformation || (c.GetLog? && c.lid == SmartLog)
                 || (c.GetLog? && c.lid == SanitizeLog && r.Good? && r.payload.log.status % 8 != 2))
  {
    hide OnSmartPage, OnHealthPage, UpdateSanitizeStatus, Capabilities, SetNodmmas,
      LinkSpeed.MaxLinkSpeed, LinkSpeed.CurrLinkSpeed, ApplyVerdict, UpdatePercent;
  }
}
