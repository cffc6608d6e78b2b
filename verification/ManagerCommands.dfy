/**
 From the call to the drive and back: every command that the drive's handlers issue is executed or on its way, once and
 in order, so every sanitize is the one an accepted erase asked for; and what the answers publish, in the whole program.
 */
module ManagerCommands {
  import opened Types
  import opened DriveTypes
  import opened Device
  import opened Manager
  import opened ManagerFlow
  import DT = DeviceTrace
  import MO = ManagerOrder
  import MP = ManagerProperties
  import W = WorkerProtocol

  // ------------------------------------------------------------ nothing issued is lost, doubled or overtaken

  /** The commands that the drive's handlers have issued, oldest first. */
  function IssuedBy(path: string, g: Garbage, run: Run<DevAction>): seq<Command> {
    match run
    case Start => []
    case Then(before, a) => IssuedBy(path, g, before) + DevStep(DevExec(path, g, before), a).issue
  }

  /** Without the commands of other drives. */
  function Own(cs: seq<Command>): seq<Command> {
    if cs == [] then [] else Own(cs[..|cs| - 1]) + (if cs[|cs| - 1] == Foreign then [] else [cs[|cs| - 1]])
  }

  function WayOf(w: W.State<Command>): seq<Command> {
    Payloads(w.executed) + Carried(w)
  }

  /** The commands executed, and then those on their way to the drive. */
  function OnTheWay(s: Sys): seq<Command> {
    WayOf(s.w) + s.outbox
  }

  lemma {:induction false} OwnAppend(p: seq<Command>, q: seq<Command>)
    ensures Own(p + q) == Own(p) + Own(q)
  {
    if q == [] {
      assert p + q == p;
    } else {
      var n := |q| - 1;
      assert (p + q)[..|p + q| - 1] == p + q[..n];
      OwnAppend(p, q[..n]);
    }
  }

  lemma {:induction false} OwnIssued(cs: seq<Command>)
    requires Foreign !in cs
    ensures Own(cs) == cs
  {
    if cs != [] {
      var n := |cs| - 1;
      assert cs == cs[..n] + [cs[n]];
      OwnIssued(cs[..n]);
    }
  }

  lemma OneForeign()
    ensures Own([Foreign]) == []
  {
    assert Own([]) == [];
  }

  lemma WayByWorker(w: W.State<Command>)
    requires W.QueueInv(w)
    ensures WayOf(W.WorkerNext(w)) == WayOf(w)
  {
    var t := W.WorkerNext(w);
    WorkerCarries(w);
    hide W.WorkerNext, W.QueueInv, Carried;
    if Finishes(w) {
      assert Payloads(w.executed + [w.running.value]) == Payloads(w.executed) + [w.running.value.payload];
    }
  }

  lemma WayByPart(w: W.State<Command>, b: W.Action<Command>)
    requires W.Inv(w) && !w.stop
    requires b == W.WorkerStep || b == W.Spurious || b == W.PosterStep(MAIN_THREAD)
    ensures WayOf(W.Step(w, b)) == WayOf(w)
  {
    InvGivesQueue(w);
    StepIsNext(w);
    hide W.Inv, W.Step, W.WorkerNext, W.PosterNext, Carried;
    if b == W.WorkerStep { WayByWorker(w); }
    if b == W.Spurious { SpuriousCarries(w); }
    if b == W.PosterStep(MAIN_THREAD) { PosterCarries(w); }
  }

  /** What the step of the drive puts into the outbox. */
  function Added(cfg: Config, s: Sys, a: SysAction): seq<Command> {
    match DrivePart(s, a)
    case Some(b) => if cfg.open then DevStep(s.dev, b).issue else []
    case None => if a.OtherDrive? && !s.dev.halted && MainIsFree(s) then [Foreign] else []
  }

  lemma DriveAdds(cfg: Config, s: Sys, a: SysAction)
    requires DrivePart(s, a).Some?
    ensures OnTheWay(Step(cfg, s, a)) == OnTheWay(s) + Added(cfg, s, a)
  {
    DriveStepIs(cfg, s, a);
    BeforeHasOutbox(s, a);
    hide Step, DevStep, Queued, Flight, Before;
  }

  lemma BeforeHasOutbox(s: Sys, a: SysAction)
    requires DrivePart(s, a).Some?
    ensures Before(s, a).outbox == s.outbox && Before(s, a).w == s.w
  {
    hide Flight, Note;
  }

  lemma PostingGoesOn(cfg: Config, s: Sys)
    requires W.Inv(s.w) && !s.w.stop && s.w.PosterAt(MAIN_THREAD) != W.Idle
    ensures OnTheWay(Step(cfg, s, MainPosts)) == OnTheWay(s)
  {
    WayByPart(s.w, W.PosterStep(MAIN_THREAD));
    hide W.Step, W.Inv, WayOf;
  }

  lemma PostingBegins(cfg: Config, s: Sys)
    requires s.w.PosterAt(MAIN_THREAD) == W.Idle && s.outbox != []
    ensures OnTheWay(Step(cfg, s, MainPosts)) == OnTheWay(s)
  {
    CallCarries(s.w, s.outbox[0]);
    assert s.outbox == [s.outbox[0]] + s.outbox[1..];
    hide W.Step, Carried;
  }

  lemma PostingAdds(cfg: Config, s: Sys)
    requires W.Inv(s.w) && !s.w.stop
    ensures OnTheWay(Step(cfg, s, MainPosts)) == OnTheWay(s)
  {
    hide W.Step, W.Inv, WayOf;
    if s.w.PosterAt(MAIN_THREAD) != W.Idle {
      PostingGoesOn(cfg, s);
    } else if s.outbox != [] {
      PostingBegins(cfg, s);
    }
  }

  lemma WorkerAdds(cfg: Config, s: Sys, a: SysAction)
    requires W.Inv(s.w) && !s.w.stop && (a.WorkerRuns? || a.SpuriousWakeup?)
    ensures OnTheWay(Step(cfg, s, a)) == OnTheWay(s)
  {
    WorkerPartIs(cfg, s, a);
    WayByPart(s.w, if a.WorkerRuns? then W.WorkerStep else W.Spurious);
    hide W.Step, W.Inv, WayOf;
  }

  lemma LoopAdds(cfg: Config, s: Sys, a: SysAction)
    requires a.MainHandles? || a.TimerExpires? || a.Called? || a.OtherDrive?
    requires DrivePart(s, a) == None
    ensures OnTheWay(Step(cfg, s, a)) == OnTheWay(s) + Added(cfg, s, a)
  {
    hide Flight, WayOf, DevStep;
  }

  lemma StepAdds(cfg: Config, s: Sys, a: SysAction)
    requires W.Inv(s.w) && !s.w.stop
    ensures OnTheWay(Step(cfg, s, a)) == OnTheWay(s) + Added(cfg, s, a)
  {
    hide Step, W.Inv, OnTheWay;
    if DrivePart(s, a).Some? {
      DriveAdds(cfg, s, a);
    } else if a.MainPosts? {
      PostingAdds(cfg, s);
      assert OnTheWay(s) + [] == OnTheWay(s);
    } else if a.WorkerRuns? || a.SpuriousWakeup? {
      WorkerAdds(cfg, s, a);
      assert OnTheWay(s) + [] == OnTheWay(s);
    } else {
      LoopAdds(cfg, s, a);
    }
  }

  lemma NeverForeign(d: Dev, b: DevAction)
    ensures Foreign !in DevStep(d, b).issue
  {
    match b
    case Replied(c, r) =>
    case _ =>
  }

  /** The commands added by a step are those its part of the drive issues, besides foreign ones. */
  lemma OwnAdded(cfg: Config, s: Sys, a: SysAction)
    ensures Own(Added(cfg, s, a)) ==
            if cfg.open && DrivePart(s, a).Some? then DevStep(s.dev, DrivePart(s, a).value).issue else []
  {
    hide DevStep, DrivePart;
    OneForeign();
    if DrivePart(s, a).Some? {
      NeverForeign(s.dev, DrivePart(s, a).value);
      OwnIssued(DevStep(s.dev, DrivePart(s, a).value).issue);
    }
  }

  /**
   In every run the commands that the drive's handlers have issued are the executed ones and those on their way, each
   once and in the order issued; without an endpoint none of them gets that far.
   */
  lemma {:induction false} CommandsConserved(cfg: Config, run: Run<SysAction>)
    ensures var s := Exec(cfg, run);
            && OnTheWay(s) == Payloads(s.w.executed) + Unserved(s)
            && Own(OnTheWay(s)) == if cfg.open then IssuedBy(cfg.path, cfg.garbage, s.devRun) else []
  {
    assert OnTheWay(Exec(cfg, run)) == Payloads(Exec(cfg, run).w.executed) + Unserved(Exec(cfg, run));
    match run
    case Start =>
    case Then(before, a) =>
      hide Step, W.Inv, OnTheWay, DevStep, DevExec, Added;
      CommandsConserved(cfg, before);
      PartsRun(cfg, before);
      var s := Exec(cfg, before);
      StepAdds(cfg, s, a);
      OwnAppend(OnTheWay(s), Added(cfg, s, a));
      OwnAdded(cfg, s, a);
      DrivePartIs(cfg, s, a);
  }

  // ------------------------------------------------------------ sanitizes are what was asked for

  /** The methods of the sanitizes among some commands. */
  function Methods(cs: seq<Command>): seq<EraseMethod> {
    if cs == [] then []
    else Methods(cs[..|cs| - 1]) + (if cs[|cs| - 1].Sanitize? then [cs[|cs| - 1].eraseMethod] else [])
  }

  /** The methods of the erase calls that were accepted, told from the calls and replies. */
  function Asked(path: string, g: Garbage, run: Run<DevAction>): seq<EraseMethod> {
    match run
    case Start => []
    case Then(before, a) =>
      Asked(path, g, before) + (if Accepted(path, g, before, a) then [a.eraseMethod] else [])
  }

  /** An erase call comes while no sanitize is in progress and asks for a method the drive last reported. */
  predicate Accepted(path: string, g: Garbage, run: Run<DevAction>, a: DevAction) {
    && a.Erase? && DT.Live(path, g, run) && !DT.OperationOf(path, g, run).1
    && DT.LastIdentify(path, g, run).Some? && DT.Reported(DT.LastIdentify(path, g, run).value, a.eraseMethod)
  }

  lemma {:induction false} MethodsAppend(p: seq<Command>, q: seq<Command>)
    ensures Methods(p + q) == Methods(p) + Methods(q)
  {
    if q == [] {
      assert p + q == p;
    } else {
      var n := |q| - 1;
      assert (p + q)[..|p + q| - 1] == p + q[..n];
      MethodsAppend(p, q[..n]);
    }
  }

  lemma {:induction false} NoMethods(cs: seq<Command>)
    requires forall i :: 0 <= i < |cs| ==> !cs[i].Sanitize?
    ensures Methods(cs) == []
  {
    if cs != [] { NoMethods(cs[..|cs| - 1]); }
  }

  lemma {:induction false} OwnMethods(cs: seq<Command>)
    ensures Methods(Own(cs)) == Methods(cs)
  {
    if cs != [] {
      var n := |cs| - 1;
      OwnMethods(cs[..n]);
      MethodsAppend(Own(cs[..n]), if cs[n] == Foreign then [] else [cs[n]]);
      MethodsOne(cs[n]);
    }
  }

  lemma MethodsOne(c: Command)
    ensures Methods([c]) == if c.Sanitize? then [c.eraseMethod] else []
    ensures Methods([]) == []
  {
    assert [c][..0] == [];
  }

  lemma OtherStepsIssueNone(d: Dev, a: DevAction)
    requires !a.Erase? || d.halted
    ensures forall i :: 0 <= i < |DevStep(d, a).issue| ==> !DevStep(d, a).issue[i].Sanitize?
  {
    match a
    case Replied(c, r) =>
    case _ =>
  }

  lemma {:induction false} IssuedAsAsked(path: string, g: Garbage, run: Run<DevAction>)
    ensures Methods(IssuedBy(path, g, run)) == Asked(path, g, run)
  {
    match run
    case Start =>
    case Then(before, a) =>
      hide DevStep, DevExec, EraseOutcome;
      IssuedAsAsked(path, g, before);
      var d := DevExec(path, g, before);
      MethodsAppend(IssuedBy(path, g, before), DevStep(d, a).issue);
      if a.Erase? && !d.halted {
        DT.EraseStartsExactly(path, g, before, a.eraseMethod);
        DT.OperationPublished(path, g, before);
        MethodsOne(Sanitize(a.eraseMethod));
      } else {
        OtherStepsIssueNone(d, a);
        NoMethods(DevStep(d, a).issue);
      }
  }

  /**
   In every run of the program with an endpoint the sanitizes executed and those on their way carry the methods of the
   accepted erase calls, one for each and in their order.
   */
  lemma ErasesCarriedOut(cfg: Config, run: Run<SysAction>)
    requires cfg.open
    ensures var s := Exec(cfg, run);
            Methods(Payloads(s.w.executed)) + Methods(Unserved(s)) == Asked(cfg.path, cfg.garbage, s.devRun)
  {
    CommandsConserved(cfg, run);
    var s := Exec(cfg, run);
    hide Exec, OnTheWay, Unserved;
    IssuedAsAsked(cfg.path, cfg.garbage, s.devRun);
    OwnMethods(OnTheWay(s));
    MethodsAppend(Payloads(s.w.executed), Unserved(s));
  }

  lemma {:induction false} MethodAt(cs: seq<Command>, i: nat)
    requires i < |cs| && cs[i].Sanitize?
    ensures |Methods(cs[..i])| < |Methods(cs)| && Methods(cs)[|Methods(cs[..i])|] == cs[i].eraseMethod
  {
    assert cs == cs[..i] + [cs[i]] + cs[i + 1..];
    MethodsAppend(cs[..i] + [cs[i]], cs[i + 1..]);
    MethodsAppend(cs[..i], [cs[i]]);
    MethodsOne(cs[i]);
  }

  /**
   While the drive believes a sanitize in progress, its method is that of the accepted erase call with the same number
   as the executed sanitize whose acknowledgement came last.
   */
  lemma AcknowledgedAsAsked(cfg: Config, run: Run<SysAction>)
    requires cfg.open && Exec(cfg, run).dev.sani.inProgress
    ensures var s := Exec(cfg, run);
            && s.hist.ack.Some? && s.hist.ack.value < |s.hist.handled| && s.hist.handled[s.hist.ack.value].Done?
            && var i := s.hist.handled[s.hist.ack.value].index;
               var asked := Asked(cfg.path, cfg.garbage, s.devRun);
            && i < |s.w.executed| && s.w.executed[i].payload == Sanitize(s.dev.sani.eraseType)
            && var k := |Methods(Payloads(s.w.executed[..i]))|;
               k < |asked| && asked[k] == s.dev.sani.eraseType
  {
    var s := Exec(cfg, run);
    MO.AckRecorded(cfg, run);
    MO.CallbacksInOrder(cfg, run);
    ErasesCarriedOut(cfg, run);
    var p := s.hist.ack.value;
    hide Exec, Asked, Unserved;
    assert s.hist.posted[p] == s.hist.handled[p];
    MO.CallbacksSorted(cfg, run, p, p);
    var i := s.hist.handled[p].index;
    assert Payloads(s.w.executed)[..i] == Payloads(s.w.executed[..i]);
    MethodAt(Payloads(s.w.executed), i);
  }

  // ------------------------------------------------------------ what a verdict publishes

  /**
   In the whole program: when the main loop handles a sanitize log, the values 1 or 4 of its low three bits complete the
   operation with 100 percent, 3 fails it with 0, and anything but these and 2 leaves it alone.
   */
  lemma VerdictHandled(cfg: Config, run: Run<SysAction>)
    requires var b := DrivePart(Exec(cfg, run), MainHandles); b.Some? && DT.LogReply(b.value).Some?
    ensures var s, t := Exec(cfg, run).dev.sani, Exec(cfg, Then(run, MainHandles)).dev.sani;
            var v := DT.LogReply(DrivePart(Exec(cfg, run), MainHandles).value).value.status % 8;
            && (v == 1 || v == 4 ==> t.status == Completed && t.progress == 100 && !t.inProgress)
            && (v == 3 ==> t.status == Failed && t.progress == 0 && !t.inProgress)
            && (v == 0 || v == 5 || v == 6 || v == 7 ==>
                 t.status == s.status && t.progress == s.progress && t.inProgress == s.inProgress)
  {
    var s := Exec(cfg, run);
    var b := DrivePart(s, MainHandles).value;
    PartsRun(cfg, run);
    PartsRun(cfg, Then(run, MainHandles));
    DrivePartIs(cfg, s, MainHandles);
    assert !s.dev.halted;
    hide DevStep, Step, W.Inv, DrivePart;
    DT.VerdictPublishes(cfg.path, cfg.garbage, s.devRun, b);
  }
}
