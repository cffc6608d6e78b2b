/** What holds of the whole program in every interleaving of worker, main loop, timer and calls. */
module ManagerProperties {
  import opened Types
  import opened DriveTypes
  import opened Device
  import opened Manager
  import opened ManagerFlow
  import DP = DeviceProperties
  import W = WorkerProtocol
  import NVMeMi

  // ------------------------------------------------------------ what a step is

  predicate ItemFits(x: Item) {
    match x
    case Done(_, c, r) => Fits(c, r)
    case Direct(c, r) => r.Bad?
    case _ => true
  }

  ghost predicate QueueFits(q: seq<Item>) {
    forall i :: 0 <= i < |q| ==> ItemFits(q[i])
  }

  lemma CompletionsFit(c: Command, a: Answer)
    ensures forall i :: 0 <= i < |NVMeMi.Completions(c, a)| ==> Fits(c, NVMeMi.Completions(c, a)[i])
  {
  }

  lemma StepKeepsFits(cfg: Config, s: Sys, a: SysAction)
    requires QueueFits(s.mainQ)
    ensures QueueFits(Step(cfg, s, a).mainQ)
  {
    if DrivePart(s, a).Some? {
      DriveStepIs(cfg, s, a);
    } else if EndsCommand(s, a) {
      CompletionsFit(s.w.running.value.payload, a.answer);
    }
  }

  lemma {:induction false} RunFits(cfg: Config, run: Run<SysAction>)
    ensures QueueFits(Exec(cfg, run).mainQ)
  {
    match run
    case Start =>
    case Then(before, a) =>
      RunFits(cfg, before);
      StepKeepsFits(cfg, Exec(cfg, before), a);
  }

  /**
   Whatever the interleaving, health, SMART publishing and sanitize progress are what they are for the drive
   alone.
   */
  lemma DriveStaysConsistent(cfg: Config, run: Run<SysAction>)
    ensures var d := Exec(cfg, run).dev; DP.HealthInv(d.healthState) && DP.SmartInv(d.healthState) && DP.SaniInv(d.sani)
  {
    PartsRun(cfg, run);
    var r := Exec(cfg, run).devRun;
    hide DevExec, Exec;
    DP.HealthConsistent(cfg.path, cfg.garbage, r);
    DP.SmartEntriesCounted(cfg.path, cfg.garbage, r);
    DP.SanitizeConsistent(cfg.path, cfg.garbage, r);
  }

  /** The number of fired timer handlers waiting in the main loop. */
  function FiredIn(q: seq<Item>): nat {
    multiset(q)[Fired]
  }

  lemma FiredQueued(cfg: Config, q: seq<Item>, waits: nat, o: Outcome)
    ensures FiredIn(Queued(cfg, q, waits, o)) == FiredIn(q)
  {
    assert Fired !in Repeat(Aborted, waits);
    assert Fired !in Directs(o.issue);
  }

  lemma FiredTaken(q: seq<Item>)
    requires q != []
    ensures FiredIn(q) == FiredIn(q[1..]) + (if q[0] == Fired then 1 else 0)
  {
    assert q == [q[0]] + q[1..];
  }

  lemma FiredCompleted(q: seq<Item>, index: nat, c: Command, rs: seq<Reply>)
    ensures FiredIn(q + Dones(index, c, rs)) == FiredIn(q)
  {
    assert Fired !in Dones(index, c, rs);
  }

  // ------------------------------------------------------------ the poll loop

  predicate KeepsLoopAlive(c: Command) {
    c == ScanControllers || c == Identify || c == PortInformation || c == READ_SMART
  }

  function LiveCommands(f: multiset<Command>): nat {
    f[ScanControllers] + f[Identify] + f[PortInformation] + f[READ_SMART]
  }

  /** The outstanding continuations: scan, identify, port and SMART replies, fired handlers, armed timers. */
  function Continuations(s: Sys): nat {
    LiveCommands(Flight(s)) + FiredIn(s.mainQ) + s.waits
  }

  /** The drive's action uses up a continuation. */
  predicate UsesUp(b: DevAction) {
    b.TimerFired? || (b.Replied? && KeepsLoopAlive(b.command))
  }

  /** A step of the drive that uses up a continuation starts another one or leaves the drive absent. */
  lemma DriveGoesOn(d: Dev, b: DevAction)
    requires b.Replied? ==> Fits(b.command, b.reply)
    requires !d.halted
    ensures var o := DevStep(d, b);
            o.rearm || LiveCommands(multiset(o.issue)) > 0 || !o.dev.control.present || o.dev.halted ||
            (!UsesUp(b) && d.control.present)
    ensures DevStep(d, b).dev.control.retry <= MAX_IDENTIFY_RETRY || d.control.retry > MAX_IDENTIFY_RETRY
  {
    match b
    case Replied(c, r) =>
    case TimerFired =>
      assert multiset([ScanControllers])[ScanControllers] == 1;
    case Initialize =>
      assert multiset([ScanControllers])[ScanControllers] == 1;
    case _ =>
  }

  /** A scan that finds no controller. */
  predicate ScanFails(b: DevAction) {
    b.Replied? && b.command == ScanControllers && (b.reply.Bad? || b.reply.payload == Controllers([]))
  }

  /**
   A continuation is used up without another one being started exactly by a scan that finds no controller, for it arms
   no timer, and by a trap.
   */
  lemma ContinuationEndsExactly(d: Dev, b: DevAction)
    requires !d.halted && UsesUp(b) && (b.Replied? ==> Fits(b.command, b.reply))
    ensures var o := DevStep(d, b);
            !o.rearm && LiveCommands(multiset(o.issue)) == 0 <==> ScanFails(b) || o.dev.halted
  {
    match b
    case Replied(c, r) =>
    case TimerFired =>
      assert multiset([ScanControllers])[ScanControllers] == 1;
  }

  predicate LoopOk(flight: multiset<Command>, fired: nat, waits: nat, d: Dev) {
    && waits <= 1
    && d.control.retry <= MAX_IDENTIFY_RETRY
    && (d.control.present && !d.halted ==> LiveCommands(flight) + fired + waits > 0)
  }

  /** A step of the drive: the rest of the flight stays, the handled command goes, the issued ones come. */
  lemma DriveSummary(cfg: Config, s: Sys, a: SysAction) returns (rest: multiset<Command>, o: Outcome)
    requires DrivePart(s, a).Some?
    ensures o == DevStep(s.dev, DrivePart(s, a).value)
    ensures Flight(s) == rest + multiset(Handled(s, a))
    ensures var t := Step(cfg, s, a);
            && t.dev == o.dev && Flight(t) == rest + multiset(o.issue)
            && t.waits == (if o.rearm then 1 else s.waits)
            && FiredIn(s.mainQ) == FiredIn(t.mainQ) + (if DrivePart(s, a).value == TimerFired then 1 else 0)
  {
    hide Step, DevStep, Flight, FiredIn, Queued, Note, DrivePart;
    var b := DrivePart(s, a).value;
    var u := Before(s, a);
    o := DevStep(s.dev, b);
    rest := Flight(u);
    DriveStepIs(cfg, s, a);
    HandleFlight(cfg, s, a, o);
    FiredQueued(cfg, u.mainQ, u.waits, o);
    BeforeIs(s, a);
    if a == MainHandles { FiredTaken(s.mainQ); }
  }

  lemma BeforeIs(s: Sys, a: SysAction)
    requires DrivePart(s, a).Some?
    ensures if a == MainHandles
            then
              && s.mainQ != [] && Before(s, a).mainQ == s.mainQ[1..]
              && (DrivePart(s, a).value == TimerFired <==> s.mainQ[0] == Fired)
            else Before(s, a) == s && DrivePart(s, a).value != TimerFired
  {
  }

  lemma HandledIs(s: Sys, a: SysAction)
    requires DrivePart(s, a).Some? && QueueFits(s.mainQ)
    ensures var b := DrivePart(s, a).value;
            && Handled(s, a) == (if b.Replied? then [b.command] else [])
            && (b.Replied? ==> Fits(b.command, b.reply))
            && !s.dev.halted
  {
  }

  lemma DriveKeepsLoop(rest: multiset<Command>, d: Dev, b: DevAction, fired: nat, waits: nat)
    requires !d.halted && (b.Replied? ==> Fits(b.command, b.reply))
    requires b == TimerFired ==> fired > 0
    requires LoopOk(rest + multiset(if b.Replied? then [b.command] else []), fired, waits, d)
    ensures var o := DevStep(d, b);
            LoopOk(rest + multiset(o.issue), if b == TimerFired then fired - 1 else fired,
                   if o.rearm then 1 else waits, o.dev)
  {
    DriveGoesOn(d, b);
    var issue := DevStep(d, b).issue;
    assert LiveCommands(rest + multiset(issue)) == LiveCommands(rest) + LiveCommands(multiset(issue));
  }

  lemma EndSummary(cfg: Config, s: Sys, a: SysAction)
    requires W.Inv(s.w) && EndsCommand(s, a)
    ensures var c := s.w.running.value.payload;
            var t := Step(cfg, s, a);
            && (Flight(t) == Flight(s) || (NVMeMi.CompletesTwice(c, a.answer) && Flight(t) == Flight(s) + multiset{c}))
            && FiredIn(t.mainQ) == FiredIn(s.mainQ) && t.waits == s.waits && t.dev == s.dev
  {
    var c := s.w.running.value.payload;
    FinishFlight(cfg, s, a.answer);
    NVMeMi.OnceExactly(c, a.answer);
    FiredCompleted(s.mainQ, |s.w.executed|, c, NVMeMi.Completions(c, a.answer));
    EndIs(cfg, s, a);
    AddedBack(Flight(Step(cfg, s, a)), Flight(s), c, |NVMeMi.Completions(c, a.answer)|);
  }

  lemma AddedBack(f: multiset<Command>, g: multiset<Command>, c: Command, n: nat)
    requires f + multiset{c} == g + multiset{}[c := n] && (n == 1 || n == 2)
    ensures f == (if n == 1 then g else g + multiset{c})
  {
    var h := if n == 1 then g else g + multiset{c};
    assert g + multiset{}[c := n] == h + multiset{c};
    assert f == (f + multiset{c}) - multiset{c};
    assert h == (h + multiset{c}) - multiset{c};
  }

  lemma EndIs(cfg: Config, s: Sys, a: SysAction)
    requires EndsCommand(s, a)
    ensures var c := s.w.running.value.payload;
            var items := Dones(|s.w.executed|, c, NVMeMi.Completions(c, a.answer));
            var t := Step(cfg, s, a);
            && t.mainQ == s.mainQ + items && t.waits == s.waits && t.dev == s.dev
            && t.hist == s.hist.(answers := s.hist.answers + [a.answer], posted := s.hist.posted + items)
            && t.w == W.WorkerNext(s.w)
  {
  }

  predicate Quiet(s: Sys, a: SysAction) {
    DrivePart(s, a) == None && !EndsCommand(s, a)
  }

  lemma QuietThreadsAre(cfg: Config, s: Sys, a: SysAction)
    requires Quiet(s, a) && (a.WorkerRuns? || a.SpuriousWakeup? || a.MainPosts?)
    ensures var t := Step(cfg, s, a);
            t.dev == s.dev && t.hist == s.hist && t.mainQ == s.mainQ && t.waits == s.waits
  {
  }

  lemma QuietLoopIs(cfg: Config, s: Sys, a: SysAction)
    requires Quiet(s, a) && !(a.WorkerRuns? || a.SpuriousWakeup? || a.MainPosts?)
    ensures var t := Step(cfg, s, a);
            && t.dev == s.dev && t.hist == s.hist && t.w == s.w
            && FiredIn(t.mainQ) + t.waits == FiredIn(s.mainQ) + s.waits && t.waits <= s.waits
  {
    if a.MainHandles? && s.mainQ != [] { FiredTaken(s.mainQ); }
  }

  lemma QuietSummary(cfg: Config, s: Sys, a: SysAction)
    requires W.Inv(s.w) && !s.w.stop && Quiet(s, a)
    ensures var t := Step(cfg, s, a);
            && (Flight(t) == Flight(s) || Flight(t) == Flight(s) + multiset{Foreign})
            && t.dev == s.dev && t.hist == s.hist
            && FiredIn(t.mainQ) + t.waits == FiredIn(s.mainQ) + s.waits && t.waits <= s.waits
  {
    if a.WorkerRuns? || a.SpuriousWakeup? || a.MainPosts? {
      QuietThreadsAre(cfg, s, a);
      QuietThreads(cfg, s, a);
    } else {
      QuietLoopIs(cfg, s, a);
      if a.OtherDrive? { ForeignFlight(cfg, s); } else { QuietLoop(cfg, s, a); }
    }
  }

  ghost predicate LoopInv(s: Sys) {
    LoopOk(Flight(s), FiredIn(s.mainQ), s.waits, s.dev)
  }

  lemma StepKeepsLoop(cfg: Config, s: Sys, a: SysAction)
    requires LoopInv(s) && QueueFits(s.mainQ) && W.Inv(s.w) && !s.w.stop
    ensures LoopInv(Step(cfg, s, a))
  {
    hide Step, DevStep, Flight, FiredIn;
    if DrivePart(s, a).Some? {
      var rest, o := DriveSummary(cfg, s, a);
      HandledIs(s, a);
      DriveKeepsLoop(rest, s.dev, DrivePart(s, a).value, FiredIn(s.mainQ), s.waits);
    } else if EndsCommand(s, a) {
      EndSummary(cfg, s, a);
    } else {
      QuietSummary(cfg, s, a);
    }
  }

  /**
   Under every interleaving of overlapping initialisations, a drive published as present has
   a continuation outstanding unless the program has trapped, at most one timer wait is live, and the retry
   count stays in range.
   */
  lemma {:induction false} PollLoopNeverDies(cfg: Config, run: Run<SysAction>)
    ensures LoopInv(Exec(cfg, run))
    ensures var s := Exec(cfg, run);
            && s.waits <= 1 && s.dev.control.retry <= 3
            && (s.dev.control.present && !s.dev.halted ==> Continuations(s) > 0)
  {
    match run
    case Start =>
    case Then(before, a) =>
      PollLoopNeverDies(cfg, before);
      PartsRun(cfg, before);
      RunFits(cfg, before);
      StepKeepsLoop(cfg, Exec(cfg, before), a);
  }

  // ------------------------------------------------------------ identify retries

  /** The identify replies that are still possible before the next successful scan. */
  function Bound(chains: nat, retry: nat): nat
    requires retry <= MAX_IDENTIFY_RETRY
  {
    if chains == 0 then 0 else 4 * chains - retry
  }

  function BoundOf(s: Sys): nat {
    if s.dev.control.retry <= MAX_IDENTIFY_RETRY then Bound(Flight(s)[Identify], s.dev.control.retry) else 0
  }

  predicate ScanSucceeds(b: DevAction) {
    b.Replied? && IsScanSuccess(b.command, b.reply)
  }

  predicate IdentifyReplied(b: DevAction) {
    b.Replied? && b.command == Identify
  }

  /** What the drive does to the retry count and to the identify commands in flight. */
  lemma IdentifyMove(d: Dev, b: DevAction)
    requires !d.halted && (b.Replied? ==> Fits(b.command, b.reply)) && d.control.retry <= MAX_IDENTIFY_RETRY
    ensures var o := DevStep(d, b);
            var n := multiset(o.issue)[Identify];
            var r := o.dev.control.retry;
            if IdentifyReplied(b) then
              (n == 1 && r == d.control.retry + 1 <= MAX_IDENTIFY_RETRY)
              || (n == 0 && (r == d.control.retry || (d.control.retry == MAX_IDENTIFY_RETRY && r == 0)))
            else r == d.control.retry && n == (if ScanSucceeds(b) then 1 else 0)
  {
    match b
    case Replied(c, r) =>
    case _ =>
  }

  /** The measure of the run and the tighter bound both fall at every identify reply, whatever chains overlap. */
  lemma IdentifyDecreases(rest: multiset<Command>, d: Dev, b: DevAction)
    requires !d.halted && (b.Replied? ==> Fits(b.command, b.reply)) && d.control.retry <= MAX_IDENTIFY_RETRY
    ensures var o := DevStep(d, b);
            var before := (rest + multiset(if b.Replied? then [b.command] else []))[Identify];
            var after := (rest + multiset(o.issue))[Identify];
            && o.dev.control.retry <= MAX_IDENTIFY_RETRY
            && (IdentifyReplied(b) ==>
                 && 4 * after + (3 - o.dev.control.retry) < 4 * before + (3 - d.control.retry)
                 && Bound(after, o.dev.control.retry) < Bound(before, d.control.retry))
            && (!IdentifyReplied(b) && !ScanSucceeds(b) ==> after == before && o.dev.control.retry == d.control.retry)
            && (ScanSucceeds(b) ==> after == before + 1 && o.dev.control.retry == d.control.retry)
  {
    IdentifyMove(d, b);
    hide DevStep;
  }

  /** What a step of the drive writes into the history. */
  lemma HistorySummary(cfg: Config, s: Sys, a: SysAction, rest: multiset<Command>)
    requires DrivePart(s, a).Some? && Flight(s) == rest + multiset(Handled(s, a))
    ensures var b := DrivePart(s, a).value;
            var h := if b.Replied? then Note(s.hist, b.command, b.reply, rest) else s.hist;
            var t := Step(cfg, s, a);
            && t.hist.scans == s.hist.scans + (if ScanSucceeds(b) then 1 else 0)
            && t.hist.identifies == s.hist.identifies + (if IdentifyReplied(b) then 1 else 0)
            && t.hist.window == h.window
            && t.hist.issuedInWindow ==
               (if h.window then s.hist.issuedInWindow + DevStep(s.dev, b).issue else [])
  {
    hide Step, DevStep, Flight, Queued, IsScanSuccess, IsAck, IsVerdict, SanitizesIn;
    DriveStepIs(cfg, s, a);
    if a == MainHandles {
      TakeHeadFlight(s);
      TailFlight(s);
      assert rest == Flight(s) - multiset(CommandOf(s.mainQ[0]));
      assert Flight(s.(mainQ := s.mainQ[1..])) == rest;
    }
  }

  lemma TailFlight(s: Sys)
    requires s.mainQ != []
    ensures Flight(TakeHead(s)) == Flight(s.(mainQ := s.mainQ[1..]))
  {
  }

  lemma StepKeepsBound(cfg: Config, s: Sys, a: SysAction)
    requires LoopInv(s) && QueueFits(s.mainQ) && W.Inv(s.w) && !s.w.stop
    ensures var t := Step(cfg, s, a);
            && t.dev.control.retry <= MAX_IDENTIFY_RETRY
            && s.hist.scans <= t.hist.scans <= s.hist.scans + 1
            && (t.hist.identifies == s.hist.identifies ==> t.dev.control.retry == s.dev.control.retry)
            && (t.hist.scans == s.hist.scans ==>
                 t.hist.identifies + BoundOf(t) <= s.hist.identifies + BoundOf(s))
            && (t.hist.scans != s.hist.scans ==>
                 && t.hist.identifies == s.hist.identifies && t.dev.control.retry == s.dev.control.retry
                 && Flight(t)[Identify] == Flight(s)[Identify] + 1)
  {
    hide Step, DevStep, Flight, FiredIn, Note;
    if DrivePart(s, a).Some? {
      var rest, o := DriveSummary(cfg, s, a);
      HandledIs(s, a);
      HistorySummary(cfg, s, a, rest);
      IdentifyDecreases(rest, s.dev, DrivePart(s, a).value);
    } else if EndsCommand(s, a) {
      EndSummary(cfg, s, a);
      EndIs(cfg, s, a);
    } else {
      QuietSummary(cfg, s, a);
    }
  }

  /**
   However many initialisation chains overlap on the shared retry count, a run handles fewer
   than four identify replies per successful scan.
   */
  lemma {:induction false} IdentifyRepliesBounded(cfg: Config, run: Run<SysAction>)
    ensures var s := Exec(cfg, run);
            if s.hist.scans == 0
            then s.hist.identifies == 0 && Flight(s)[Identify] == 0 && s.dev.control.retry == 1
            else s.hist.identifies + BoundOf(s) < 4 * s.hist.scans
  {
    match run
    case Start =>
    case Then(before, a) =>
      hide Step, DevStep, Flight, FiredIn, W.Inv;
      IdentifyRepliesBounded(cfg, before);
      PollLoopNeverDies(cfg, before);
      PartsRun(cfg, before);
      RunFits(cfg, before);
      StepKeepsBound(cfg, Exec(cfg, before), a);
  }

  lemma RunKeepsBound(cfg: Config, run: Run<SysAction>, a: SysAction)
    ensures var s, t := Exec(cfg, run), Exec(cfg, Then(run, a));
            && s.dev.control.retry <= MAX_IDENTIFY_RETRY && t.dev.control.retry <= MAX_IDENTIFY_RETRY
            && s.hist.scans <= t.hist.scans <= s.hist.scans + 1
            && (t.hist.scans == s.hist.scans ==>
                 t.hist.identifies + BoundOf(t) <= s.hist.identifies + BoundOf(s))
  {
    hide Step, W.Inv, FiredIn, Flight, BoundOf;
    PollLoopNeverDies(cfg, run);
    PartsRun(cfg, run);
    RunFits(cfg, run);
    StepKeepsBound(cfg, Exec(cfg, run), a);
  }

  lemma AtMostThree(cfg: Config, run: Run<SysAction>)
    ensures Exec(cfg, run).hist.scans == 1 ==> Exec(cfg, run).hist.identifies <= 3
  {
    hide Exec, BoundOf;
    IdentifyRepliesBounded(cfg, run);
  }

  /** The state `later` comes from `run` by further actions. */
  predicate Extends(later: Run<SysAction>, run: Run<SysAction>) {
    later == run || (later.Then? && Extends(later.before, run))
  }

  /**
   From any point on, until the next successful scan, no more identify replies come than the bound
   says: at most 4 - retry for a single chain, so at most three attempts on a fresh drive.
   */
  lemma {:induction false} ChainsBounded(cfg: Config, run: Run<SysAction>, later: Run<SysAction>)
    requires Extends(later, run) && Exec(cfg, later).hist.scans == Exec(cfg, run).hist.scans
    ensures Exec(cfg, later).hist.identifies + BoundOf(Exec(cfg, later)) <=
            Exec(cfg, run).hist.identifies + BoundOf(Exec(cfg, run))
    ensures var s := Exec(cfg, run);
            Flight(s)[Identify] == 1 ==>
              Exec(cfg, later).hist.identifies <= s.hist.identifies + 4 - s.dev.control.retry
    ensures Exec(cfg, later).hist.scans == 1 ==> Exec(cfg, later).hist.identifies <= 3
  {
    hide Exec, Flight;
    AtMostThree(cfg, later);
    PollLoopNeverDies(cfg, run);
    if later != run {
      RunKeepsBound(cfg, later.before, later.last);
      ScansGrow(cfg, run, later.before);
      ChainsBounded(cfg, run, later.before);
    }
  }

  lemma {:induction false} ScansGrow(cfg: Config, run: Run<SysAction>, later: Run<SysAction>)
    requires Extends(later, run)
    ensures Exec(cfg, run).hist.scans <= Exec(cfg, later).hist.scans
  {
    if later != run {
      RunKeepsBound(cfg, later.before, later.last);
      ScansGrow(cfg, run, later.before);
    }
  }

  // ------------------------------------------------------------ the sanitize window

  /** A command that a drive under sanitize must be spared. */
  predicate Disturbs(c: Command) {
    c.Sanitize? || c == HealthPoll || c == READ_SMART
  }

  predicate NoneDisturbs(cs: seq<Command>) {
    forall i :: 0 <= i < |cs| ==> !Disturbs(cs[i])
  }

  predicate WindowOk(window: bool, flight: multiset<Command>, sani: Sani, issued: seq<Command>) {
    if window then sani.inProgress && SanitizesIn(flight) == 0 && NoneDisturbs(issued) else issued == []
  }

  function WindowAfter(window: bool, b: DevAction, rest: multiset<Command>): bool {
    if b.Replied? && IsAck(b.command, b.reply) then SanitizesIn(rest) == 0
    else window && !(b.Replied? && IsVerdict(b.command, b.reply))
  }

  /** What a step of the drive means for a window: nothing but a verdict or a failed sanitize ends the progress. */
  lemma WindowMove(d: Dev, b: DevAction)
    requires !d.halted && (b.Replied? ==> Fits(b.command, b.reply)) && DP.SaniInv(d.sani)
    ensures var o := DevStep(d, b);
            && (b.Replied? && IsAck(b.command, b.reply) ==> o.dev.sani.inProgress && o.issue == [])
            && (d.sani.inProgress ==> NoneDisturbs(o.issue))
            && (d.sani.inProgress && !o.dev.sani.inProgress <==>
                 d.sani.inProgress && b.Replied? &&
                 (IsVerdict(b.command, b.reply) || (b.command.Sanitize? && b.reply.Bad?)))
  {
    match b
    case Replied(c, r) =>
    case _ =>
  }

  lemma NoSanitizeIssued(cs: seq<Command>)
    requires NoneDisturbs(cs)
    ensures SanitizesIn(multiset(cs)) == 0
  {
    assert forall m :: Sanitize(m) !in cs;
  }

  lemma SanitizesAdd(f: multiset<Command>, g: multiset<Command>)
    ensures SanitizesIn(f + g) == SanitizesIn(f) + SanitizesIn(g)
  {
  }

  lemma OneSanitize(m: EraseMethod)
    ensures SanitizesIn(multiset([Sanitize(m)])) == 1
  {
    assert multiset([Sanitize(m)]) == multiset{Sanitize(m)};
  }

  lemma DriveKeepsWindow(rest: multiset<Command>, d: Dev, b: DevAction, window: bool, issued: seq<Command>)
    requires !d.halted && (b.Replied? ==> Fits(b.command, b.reply)) && DP.SaniInv(d.sani)
    requires WindowOk(window, rest + multiset(if b.Replied? then [b.command] else []), d.sani, issued)
    ensures var o := DevStep(d, b);
            var w := WindowAfter(window, b, rest);
            WindowOk(w, rest + multiset(o.issue), o.dev.sani, if w then issued + o.issue else [])
  {
    WindowMove(d, b);
    var o := DevStep(d, b);
    var w := WindowAfter(window, b, rest);
    hide DevStep, IsVerdict, SanitizesIn, Disturbs, DP.SaniInv, Fits;
    SanitizesAdd(rest, multiset(o.issue));
    SanitizesAdd(rest, multiset(if b.Replied? then [b.command] else []));
    if b.Replied? && b.command.Sanitize? { OneSanitize(b.command.eraseMethod); }
    if w {
      if !(b.Replied? && IsAck(b.command, b.reply)) {
        NoSanitizeIssued(o.issue);
        assert NoneDisturbs(issued + o.issue);
      } else {
        assert rest + multiset(o.issue) == rest;
      }
    }
  }

  ghost predicate WindowInv(s: Sys) {
    WindowOk(s.hist.window, Flight(s), s.dev.sani, s.hist.issuedInWindow)
  }

  lemma OneMoreCommand(f: multiset<Command>, c: Command)
    requires !c.Sanitize?
    ensures SanitizesIn(f + multiset{c}) == SanitizesIn(f)
  {
  }

  lemma StepKeepsWindow(cfg: Config, s: Sys, a: SysAction)
    requires WindowInv(s) && DP.SaniInv(s.dev.sani) && QueueFits(s.mainQ) && W.Inv(s.w) && !s.w.stop
    ensures WindowInv(Step(cfg, s, a))
  {
    hide Step, DevStep, Flight, FiredIn, W.Inv, SanitizesIn, DP.SaniInv, IsVerdict, NVMeMi.EffectiveRc, NoneDisturbs;
    if DrivePart(s, a).Some? {
      var rest, o := DriveSummary(cfg, s, a);
      HandledIs(s, a);
      HistorySummary(cfg, s, a, rest);
      DriveKeepsWindow(rest, s.dev, DrivePart(s, a).value, s.hist.window, s.hist.issuedInWindow);
    } else if EndsCommand(s, a) {
      EndSummary(cfg, s, a);
      EndIs(cfg, s, a);
      var c := s.w.running.value.payload;
      if c.GetLog? { OneMoreCommand(Flight(s), c); }
    } else {
      QuietSummary(cfg, s, a);
      OneMoreCommand(Flight(s), Foreign);
    }
  }

  /**
   Once a sanitize has been acknowledged while no other was unanswered, then until a verdict is
   handled the operation stays in progress and published as such, no sanitize is in flight,
   and no health, SMART or sanitize command has been issued.
   */
  lemma {:induction false} SanitizeWindow(cfg: Config, run: Run<SysAction>)
    ensures WindowInv(Exec(cfg, run))
    ensures var s := Exec(cfg, run);
            s.hist.window ==>
              && s.dev.sani.inProgress && s.dev.sani.sanitizing && s.dev.sani.status == InProgress
              && SanitizesIn(Flight(s)) == 0
              && (forall i :: 0 <= i < |s.hist.issuedInWindow| ==> !Disturbs(s.hist.issuedInWindow[i]))
              && (forall m :: EraseOutcome(s.dev, m) == NotAllowed)
  {
    PartsRun(cfg, run);
    DP.SanitizeConsistent(cfg.path, cfg.garbage, Exec(cfg, run).devRun);
    match run
    case Start =>
    case Then(before, a) =>
      hide Step, DevStep, Flight, W.Inv;
      SanitizeWindow(cfg, before);
      PartsRun(cfg, before);
      DP.SanitizeConsistent(cfg.path, cfg.garbage, Exec(cfg, before).devRun);
      RunFits(cfg, before);
      StepKeepsWindow(cfg, Exec(cfg, before), a);
  }

  /** A sanitize in progress ends with a step exactly if that step handles a verdict or a failed sanitize request. */
  lemma ProgressEndsExactly(cfg: Config, run: Run<SysAction>, a: SysAction)
    requires Exec(cfg, run).dev.sani.inProgress
    ensures var s := Exec(cfg, run);
            !Step(cfg, s, a).dev.sani.inProgress <==>
              match DrivePart(s, a)
              case Some(Replied(c, r)) => IsVerdict(c, r) || (c.Sanitize? && r.Bad?)
              case _ => false
  {
    PartsRun(cfg, run);
    RunFits(cfg, run);
    var s := Exec(cfg, run);
    DP.SanitizeConsistent(cfg.path, cfg.garbage, s.devRun);
    DrivePartIs(cfg, s, a);
    hide Step, Exec, W.Inv;
    if DrivePart(s, a).Some? {
      HandledIs(s, a);
      WindowMove(s.dev, DrivePart(s, a).value);
    }
  }
}
