/**
 Concrete runs of the whole program.  An orderly schedule lets the worker run only when it has something to do, so
 that it never waits, and lets each thread finish what it began.  Every orderly schedule is a schedule of the program,
 in which each reply answers a command that the drive has issued; the runs at the end are found among them.
 */
module ManagerSchedules {
  import opened Types
  import opened DriveTypes
  import opened Device
  import opened Manager
  import opened ManagerFlow
  import opened ManagerRest
  import DP = DeviceProperties
  import W = WorkerProtocol
  import NVMeMi
  import LinkSpeed

  datatype Orderly = Orderly(
    dev: Dev, outbox: seq<Command>, queue: seq<Command>, todo: seq<Option<DevAction>>, waits: nat)

  datatype Move =
    | PostOne                 // the main thread posts its next command
    | RunOne(answer: Answer)  // the worker runs the next command
    | HandleOne               // the main loop handles its next item
    | Expire
    | Call(action: DevAction)

  function Callbacks(c: Command, rs: seq<Reply>): seq<Option<DevAction>> {
    seq(|rs|, i requires 0 <= i < |rs| => Some(Replied(c, rs[i])))
  }

  function Nothing(n: nat): seq<Option<DevAction>> {
    seq(n, _ => None)
  }

  function Act(c: Orderly, b: DevAction): Orderly {
    var o := DevStep(c.dev, b);
    Orderly(o.dev, c.outbox + o.issue, c.queue, c.todo + (if o.rearm then Nothing(c.waits) else []),
            if o.rearm then 1 else c.waits)
  }

  function MoveOn(c: Orderly, m: Move): Orderly {
    if c.dev.halted then c else
    match m
    case PostOne =>
      if c.outbox == [] then c else c.(outbox := c.outbox[1..], queue := c.queue + [c.outbox[0]])
    case RunOne(answer) =>
      if c.queue == [] then c
      else c.(queue := c.queue[1..], todo := c.todo + Callbacks(c.queue[0], NVMeMi.Completions(c.queue[0], answer)))
    case HandleOne =>
      if c.outbox != [] || c.todo == [] then c
      else if c.todo[0] == None then c.(todo := c.todo[1..])
      else Act(c.(todo := c.todo[1..]), c.todo[0].value)
    case Expire => if c.waits == 0 then c else c.(waits := c.waits - 1, todo := c.todo + [Some(TimerFired)])
    case Call(b) => if c.outbox == [] && IsCall(b) then Act(c, b) else c
  }

  function MoveAll(c: Orderly, ms: seq<Move>): Orderly
    decreases ms
  {
    if ms == [] then c else MoveAll(MoveOn(c, ms[0]), ms[1..])
  }

  // ------------------------------------------------------------ orderly schedules are schedules

  /** The program is where the orderly schedule says, the main thread being at a place in `post`. */
  predicate At(s: Sys, c: Orderly, place: W.PosterPc<Command>) {
    && s.dev == c.dev && s.outbox == c.outbox && s.waits == c.waits
    && Payloads(s.w.queue) == c.queue
    && |s.mainQ| == |c.todo| && (forall i :: 0 <= i < |c.todo| ==> ActionOf(s.mainQ[i]) == c.todo[i])
    && s.w.pc == W.Running && s.w.running == None && !s.w.stop && s.w.PosterAt(MAIN_THREAD) == place
    && s.w.owner == (if W.HoldsLock(place) then W.ByPoster(MAIN_THREAD) else W.Free)
  }

  lemma PostBegins(cfg: Config, s: Sys, c: Orderly)
    requires At(s, c, W.Idle) && !c.dev.halted && c.outbox != []
    ensures At(Step(cfg, s, MainPosts), c.(outbox := c.outbox[1..]), W.FirstCheck(W.Job(s.w.issued, c.outbox[0])))
  {
    hide Flight;
  }

  lemma PostGoesOn(cfg: Config, s: Sys, c: Orderly, place: W.PosterPc<Command>)
    requires At(s, c, place) && !c.dev.halted && !place.Idle?
    ensures At(Step(cfg, s, MainPosts), if place.Enqueueing? then c.(queue := c.queue + [place.job.payload]) else c,
               W.NextPlace(place, |s.w.accepted|))
  {
    hide Flight;
    if place.Enqueueing? {
      assert Payloads(s.w.queue + [place.job]) == Payloads(s.w.queue) + [place.job.payload];
    }
  }

  lemma PostHappens(cfg: Config, run: Run<SysAction>, c: Orderly)
    requires At(Exec(cfg, run), c, W.Idle) && !c.dev.halted && c.outbox != []
    ensures At(Exec(cfg, MainPostsTimes(run, 7)), MoveOn(c, PostOne), W.Idle)
  {
    hide Exec, MainPostsTimes, Step, At;
    Times(cfg, run, 0); Times(cfg, run, 1); Times(cfg, run, 2); Times(cfg, run, 3);
    Times(cfg, run, 4); Times(cfg, run, 5); Times(cfg, run, 6);
    var j := W.Job(Exec(cfg, run).w.issued, c.outbox[0]);
    var n := |Exec(cfg, MainPostsTimes(run, 4)).w.accepted|;
    var c1 := c.(outbox := c.outbox[1..]);
    var c2 := c1.(queue := c.queue + [c.outbox[0]]);
    PostBegins(cfg, Exec(cfg, run), c);
    PostGoesOn(cfg, Exec(cfg, MainPostsTimes(run, 1)), c1, W.FirstCheck(j));
    PostGoesOn(cfg, Exec(cfg, MainPostsTimes(run, 2)), c1, W.WantLock(j));
    PostGoesOn(cfg, Exec(cfg, MainPostsTimes(run, 3)), c1, W.SecondCheck(j));
    PostGoesOn(cfg, Exec(cfg, MainPostsTimes(run, 4)), c1, W.Enqueueing(j));
    PostGoesOn(cfg, Exec(cfg, MainPostsTimes(run, 5)), c2, W.Notifying(j, n));
    PostGoesOn(cfg, Exec(cfg, MainPostsTimes(run, 6)), c2, W.Unlocking(j, n));
  }

  /** The worker has taken a command and not finished it. */
  predicate Busy(s: Sys, c: Orderly, command: Command) {
    && s.w.running.Some? && s.w.running.value.payload == command
    && At(s.(w := s.w.(running := None)), c, W.Idle)
  }

  lemma RunBegins(cfg: Config, s: Sys, c: Orderly, answer: Answer)
    requires At(s, c, W.Idle) && !c.dev.halted && c.queue != []
    ensures Busy(Step(cfg, s, WorkerRuns(answer)), c.(queue := c.queue[1..]), c.queue[0])
  {
    hide Flight;
    assert Payloads(s.w.queue[1..]) == Payloads(s.w.queue)[1..];
  }

  lemma RunEnds(cfg: Config, s: Sys, c: Orderly, command: Command, answer: Answer)
    requires Busy(s, c, command) && !c.dev.halted
    ensures At(Step(cfg, s, WorkerRuns(answer)),
               c.(todo := c.todo + Callbacks(command, NVMeMi.Completions(command, answer))), W.Idle)
  {
    hide Flight, NVMeMi.Completions;
  }

  lemma RunHappens(cfg: Config, run: Run<SysAction>, c: Orderly, answer: Answer)
    requires At(Exec(cfg, run), c, W.Idle) && !c.dev.halted && c.queue != []
    ensures At(Exec(cfg, Then(Then(run, WorkerRuns(answer)), WorkerRuns(answer))), MoveOn(c, RunOne(answer)), W.Idle)
  {
    ManagerRest.ExecIs(cfg, run, WorkerRuns(answer));
    ManagerRest.ExecIs(cfg, Then(run, WorkerRuns(answer)), WorkerRuns(answer));
    hide Exec, Step, At, Busy;
    RunBegins(cfg, Exec(cfg, run), c, answer);
    RunEnds(cfg, Exec(cfg, Then(run, WorkerRuns(answer))), c.(queue := c.queue[1..]), c.queue[0], answer);
  }

  lemma ActHappens(cfg: Config, s: Sys, c: Orderly, b: DevAction)
    requires cfg.open && At(s, c, W.Idle)
    ensures At(Dispatch(cfg, s, b), Act(c, b), W.Idle)
  {
    hide DevStep, Flight;
  }

  lemma HandleHappens(cfg: Config, s: Sys, c: Orderly)
    requires cfg.open && At(s, c, W.Idle) && !c.dev.halted && c.outbox == [] && c.todo != []
    ensures At(Step(cfg, s, MainHandles), MoveOn(c, HandleOne), W.Idle)
  {
    HeadTaken(s, c);
    if c.todo[0] != None {
      ActHappens(cfg, TakeHead(s), c.(todo := c.todo[1..]), c.todo[0].value);
    }
    assert MainIsFree(s) && s.mainQ != [] && ActionOf(s.mainQ[0]) == c.todo[0];
    hide Dispatch, TakeHead, At, Act, DevStep;
  }

  lemma HeadTaken(s: Sys, c: Orderly)
    requires At(s, c, W.Idle) && c.todo != []
    ensures At(TakeHead(s), c.(todo := c.todo[1..]), W.Idle)
  {
    hide Flight, Note;
  }

  lemma ExpireHappens(cfg: Config, s: Sys, c: Orderly)
    requires At(s, c, W.Idle) && !c.dev.halted && c.waits > 0
    ensures At(Step(cfg, s, TimerExpires), MoveOn(c, Expire), W.Idle)
  {
  }

  lemma CallHappens(cfg: Config, s: Sys, c: Orderly, b: DevAction)
    requires cfg.open && At(s, c, W.Idle) && !c.dev.halted && c.outbox == [] && IsCall(b)
    ensures At(Step(cfg, s, Called(b)), MoveOn(c, Call(b)), W.Idle)
  {
    ActHappens(cfg, s, c, b);
    assert MainIsFree(s);
    hide Dispatch, At, Act, DevStep;
  }

  lemma MoveHappens(cfg: Config, run: Run<SysAction>, c: Orderly, m: Move) returns (next: Run<SysAction>)
    requires cfg.open && At(Exec(cfg, run), c, W.Idle)
    ensures At(Exec(cfg, next), MoveOn(c, m), W.Idle)
  {
    hide Exec, At, Act, Step, DevStep, NVMeMi.Completions;
    next := run;
    SameDev(Exec(cfg, run), c);
    if !c.dev.halted {
      match m {
        case PostOne =>
          if c.outbox != [] {
            PostHappens(cfg, run, c);
            next := MainPostsTimes(run, 7);
          }
        case RunOne(answer) =>
          if c.queue != [] {
            RunHappens(cfg, run, c, answer);
            next := Then(Then(run, WorkerRuns(answer)), WorkerRuns(answer));
          }
        case HandleOne =>
          if c.outbox == [] && c.todo != [] {
            HandleHappens(cfg, Exec(cfg, run), c);
            ManagerRest.ExecIs(cfg, run, MainHandles);
            next := Then(run, MainHandles);
          }
        case Expire =>
          if c.waits > 0 {
            ExpireHappens(cfg, Exec(cfg, run), c);
            ManagerRest.ExecIs(cfg, run, TimerExpires);
            next := Then(run, TimerExpires);
          }
        case Call(b) =>
          if c.outbox == [] && IsCall(b) {
            CallHappens(cfg, Exec(cfg, run), c, b);
            ManagerRest.ExecIs(cfg, run, Called(b));
            next := Then(run, Called(b));
          }
      }
    }
  }

  lemma SameDev(s: Sys, c: Orderly)
    requires At(s, c, W.Idle)
    ensures s.dev == c.dev
  {
  }

  lemma {:induction false} OrderlyHappens(cfg: Config, run: Run<SysAction>, c: Orderly, ms: seq<Move>)
    returns (end: Run<SysAction>)
    requires cfg.open && At(Exec(cfg, run), c, W.Idle)
    ensures At(Exec(cfg, end), MoveAll(c, ms), W.Idle)
    decreases ms
  {
    hide Exec, At, MoveOn;
    if ms == [] {
      end := run;
    } else {
      var next := MoveHappens(cfg, run, c, ms[0]);
      end := OrderlyHappens(cfg, next, MoveOn(c, ms[0]), ms[1..]);
    }
  }

  function Fresh(cfg: Config): Orderly {
    Orderly(NewDrive(cfg.path, cfg.garbage), [], [], [], 0)
  }

  /** Every orderly schedule from the start of the program is one of its schedules. */
  lemma OrderlyIsASchedule(cfg: Config, ms: seq<Move>) returns (run: Run<SysAction>)
    requires cfg.open
    ensures At(Exec(cfg, run), MoveAll(Fresh(cfg), ms), W.Idle)
  {
    InitIs(cfg);
    hide Exec;
    run := OrderlyHappens(cfg, Start, Fresh(cfg), ms);
  }

  // ------------------------------------------------------------ bringing a drive up

  /** A drive that answers everything: one controller, crypto erase, one PCIe port, and the given pages. */
  function Fine(status: bv8, warning: bv8, log: SanitizePage): Answer {
    Answer(0, 0, [1], 1, [PortRead(0, PortPage(NVMeMi.PCIE_PORT, 0x0F, 4, 4, 4))],
           HealthPage(status, 10), warning, log, false)
  }

  const FINE: Answer := Fine(FUNCTIONAL_BIT, 0, ZERO_SANITIZE_PAGE)
  const DONE_PAGE: SanitizePage := ZERO_SANITIZE_PAGE.(status := COMPLETE_SUCCESS)
  const ERASE: Command := Sanitize(CryptoErase)

  /** Posts, runs and handles the one command that is waiting. */
  function Serve(answer: Answer): seq<Move> {
    [PostOne, RunOne(answer), HandleOne]
  }

  lemma {:induction false} MoveAllAppend(c: Orderly, p: seq<Move>, q: seq<Move>)
    ensures MoveAll(c, p + q) == MoveAll(MoveAll(c, p), q)
    decreases p
  {
    hide MoveOn;
    if p == [] {
      assert p + q == q;
    } else {
      assert (p + q)[1..] == p[1..] + q;
      MoveAllAppend(MoveOn(c, p[0]), p[1..], q);
    }
  }

  lemma MoveAllOne(c: Orderly, m: Move)
    ensures MoveAll(c, [m]) == MoveOn(c, m)
  {
    assert MoveAll(MoveOn(c, m), [m][1..]) == MoveOn(c, m);
  }

  lemma Served(d: Dev, c: Command, waits: nat, answer: Answer, r: Reply)
    requires !d.halted && NVMeMi.Completions(c, answer) == [r]
    ensures MoveAll(Orderly(d, [c], [], [], waits), Serve(answer)) == Act(Orderly(d, [], [], [], waits), Replied(c, r))
  {
    hide DevStep, NVMeMi.Completions, Act, MoveAll;
    var s0 := Orderly(d, [c], [], [], waits);
    var s1 := MoveOn(s0, PostOne);
    assert s1 == Orderly(d, [], [c], [], waits);
    var s2 := MoveOn(s1, RunOne(answer));
    assert s2 == Orderly(d, [], [], [Some(Replied(c, r))], waits);
    assert s2.(todo := s2.todo[1..]) == Orderly(d, [], [], [], waits);
    ThreeMoves(s0, PostOne, RunOne(answer), HandleOne);
  }

  /** What an action leaves behind if nothing else is going on. */
  lemma ActAlone(d: Dev, waits: nat, b: DevAction)
    ensures var o := DevStep(d, b);
            Act(Orderly(d, [], [], [], waits), b) ==
            Orderly(o.dev, o.issue, [], if o.rearm then Nothing(waits) else [], if o.rearm then 1 else waits)
    ensures Nothing(0) == [] && Nothing(1) == [None]
  {
    hide DevStep;
    assert [] + DevStep(d, b).issue == DevStep(d, b).issue;
    assert [] + Nothing(waits) == Nothing(waits);
  }

  lemma ThreeMoves(c: Orderly, m1: Move, m2: Move, m3: Move)
    ensures MoveAll(c, [m1, m2, m3]) == MoveOn(MoveOn(MoveOn(c, m1), m2), m3)
  {
    assert [m1, m2, m3] == [m1] + [m2] + [m3];
    MoveAllAppend(c, [m1] + [m2], [m3]);
    MoveAllAppend(c, [m1], [m2]);
    MoveAllOne(c, m1);
    MoveAllOne(MoveOn(c, m1), m2);
    MoveAllOne(MoveOn(MoveOn(c, m1), m2), m3);
    hide MoveOn;
  }

  /** A drive brought up: present, identified as capable of crypto erase, nothing else having happened to it. */
  predicate Up(cfg: Config, d: Dev) {
    && !d.halted && d.control.presence && d.control.present
    && d.sani.capability == [CryptoErase] && !d.sani.inProgress && !d.sani.sanitizing && d.sani.progress == 0
    && d.healthState == NewDrive(cfg.path, cfg.garbage).healthState
  }

  const BRING_UP: seq<Move> := [Call(Initialize)] + Serve(FINE) + Serve(FINE) + Serve(FINE)

  lemma ReplyIs(c: Command, answer: Answer)
    ensures c == ScanControllers && answer == FINE ==> NVMeMi.Completions(c, answer) == [Good(Controllers([1]))]
    ensures c == Identify && answer == FINE ==> NVMeMi.Completions(c, answer) == [Good(Identity(1))]
    ensures c == PortInformation && answer == FINE ==>
              NVMeMi.Completions(c, answer) == [Good(Port(PortPage(NVMeMi.PCIE_PORT, 0x0F, 4, 4, 4)))]
    ensures c == ERASE && answer.rc == 0 ==> NVMeMi.Completions(c, answer) == [Good(Raw)]
    ensures c == ERASE && answer.rc > 0 ==> NVMeMi.Completions(c, answer) == [Bad(BadMessage)]
    ensures c == READ_SANITIZE && answer.rc == 0 ==> NVMeMi.Completions(c, answer) == [Good(SanitizeStatus(answer.log))]
    ensures c == HealthPoll && answer.rc == 0 ==> NVMeMi.Completions(c, answer) == [Good(Health(answer.health))]
    ensures c == READ_SMART && answer.rc == 0 ==> NVMeMi.Completions(c, answer) == [Good(Smart(answer.warning))]
  {
  }

  /** The three steps of the drive while it is brought up. */
  lemma UpSteps(cfg: Config)
    ensures var d0 := NewDrive(cfg.path, cfg.garbage);
            var o1 := DevStep(d0, Initialize);
            var o2 := DevStep(o1.dev, Replied(ScanControllers, Good(Controllers([1]))));
            var o3 := DevStep(o2.dev, Replied(Identify, Good(Identity(1))));
            var o4 := DevStep(o3.dev, Replied(PortInformation, Good(Port(PortPage(NVMeMi.PCIE_PORT, 0x0F, 4, 4, 4)))));
            && o1.issue == [ScanControllers] && !o1.rearm && !o1.dev.halted
            && o2.issue == [Identify] && !o2.rearm && !o2.dev.halted
            && o3.issue == [PortInformation] && !o3.rearm && !o3.dev.halted
            && o4.issue == [] && o4.rearm && Up(cfg, o4.dev)
  {
    hide LinkSpeed.MaxLinkSpeed, LinkSpeed.CurrLinkSpeed, MarkFunctional, SetNodmmas;
    assert Capabilities(1) == [CryptoErase];
  }

  /** Bringing a drive up leaves it with its poll timer armed and nothing in flight. */
  lemma BroughtUp(cfg: Config) returns (d: Dev)
    ensures MoveAll(Fresh(cfg), BRING_UP) == Orderly(d, [], [], [], 1) && Up(cfg, d)
  {
    hide DevStep, NewDrive, MoveAll, NVMeMi.Completions, Up, Serve;
    UpSteps(cfg);
    var d0 := NewDrive(cfg.path, cfg.garbage);
    var d1 := DevStep(d0, Initialize).dev;
    var d2 := DevStep(d1, Replied(ScanControllers, Good(Controllers([1])))).dev;
    var d3 := DevStep(d2, Replied(Identify, Good(Identity(1)))).dev;
    d := DevStep(d3, Replied(PortInformation, Good(Port(PortPage(NVMeMi.PCIE_PORT, 0x0F, 4, 4, 4))))).dev;
    MoveAllAppend(Fresh(cfg), [Call(Initialize)] + Serve(FINE) + Serve(FINE), Serve(FINE));
    MoveAllAppend(Fresh(cfg), [Call(Initialize)] + Serve(FINE), Serve(FINE));
    MoveAllAppend(Fresh(cfg), [Call(Initialize)], Serve(FINE));
    MoveAllOne(Fresh(cfg), Call(Initialize));
    FreshRuns(cfg);
    ActAlone(d0, 0, Initialize);
    ActAlone(d1, 0, Replied(ScanControllers, Good(Controllers([1]))));
    ActAlone(d2, 0, Replied(Identify, Good(Identity(1))));
    ActAlone(d3, 0, Replied(PortInformation, Good(Port(PortPage(NVMeMi.PCIE_PORT, 0x0F, 4, 4, 4)))));
    hide Act;
    ReplyIs(ScanControllers, FINE);
    ReplyIs(Identify, FINE);
    ReplyIs(PortInformation, FINE);
    Served(d1, ScanControllers, 0, FINE, Good(Controllers([1])));
    Served(d2, Identify, 0, FINE, Good(Identity(1)));
    Served(d3, PortInformation, 0, FINE, Good(Port(PortPage(NVMeMi.PCIE_PORT, 0x0F, 4, 4, 4))));
  }

  lemma FreshRuns(cfg: Config)
    ensures !NewDrive(cfg.path, cfg.garbage).halted
  {
  }

  // ------------------------------------------------------------ sanitize operations

  lemma TwoMoves(c: Orderly, m1: Move, m2: Move)
    ensures MoveAll(c, [m1, m2]) == MoveOn(MoveOn(c, m1), m2)
  {
    assert [m1, m2] == [m1] + [m2];
    MoveAllAppend(c, [m1], [m2]);
    MoveAllOne(c, m1);
    MoveAllOne(MoveOn(c, m1), m2);
    hide MoveOn;
  }

  /** The poll timer expires and is handled. */
  lemma Polled(d: Dev)
    requires !d.halted
    ensures MoveAll(Orderly(d, [], [], [], 1), [Expire, HandleOne]) == Act(Orderly(d, [], [], [], 0), TimerFired)
  {
    hide DevStep, Act;
    var c := Orderly(d, [], [], [], 1);
    TwoMoves(c, Expire, HandleOne);
    assert MoveOn(c, Expire) == Orderly(d, [], [], [Some(TimerFired)], 0);
    assert [Some(TimerFired)][1..] == [];
  }

  const ERASE_ONCE: seq<Move> := [Call(Erase(CryptoErase))] + Serve(FINE)

  lemma ErasedOnce(d: Dev)
    requires !d.halted && CryptoErase in d.sani.capability && !d.sani.inProgress
    ensures MoveAll(Orderly(d, [], [], [], 1), ERASE_ONCE) ==
            Orderly(d.(sani := UpdateSanitizeStatus(d.sani, CryptoErase)), [], [], [], 1)
  {
    var c := Orderly(d, [], [], [], 1);
    EraseSteps(d);
    hide DevStep, UpdateSanitizeStatus, MoveAll, NVMeMi.Completions, Serve;
    MoveAllAppend(c, [Call(Erase(CryptoErase))], Serve(FINE));
    MoveAllOne(c, Call(Erase(CryptoErase)));
    ActAlone(d, 1, Erase(CryptoErase));
    ActAlone(d, 1, Replied(ERASE, Good(Raw)));
    hide Act;
    ReplyIs(ERASE, FINE);
    Served(d, ERASE, 1, FINE, Good(Raw));
  }

  lemma EraseSteps(d: Dev)
    requires !d.halted
    ensures CryptoErase in d.sani.capability && !d.sani.inProgress ==>
              DevStep(d, Erase(CryptoErase)) == Outcome(d, [ERASE], false)
    ensures DevStep(d, Replied(ERASE, Good(Raw))) ==
            Outcome(d.(sani := UpdateSanitizeStatus(d.sani, CryptoErase)), [], false)
    ensures DevStep(d, Replied(ERASE, Bad(BadMessage))) ==
            Outcome(d.(sani := d.sani.(status := Failed, inProgress := false)), [], false)
  {
    hide UpdateSanitizeStatus;
  }

  const FINISH: seq<Move> :=
    [Expire, HandleOne] + Serve(Fine(FUNCTIONAL_BIT, 0, DONE_PAGE)) + [HandleOne]

  lemma Finished(d: Dev)
    requires !d.halted && d.control.presence && d.sani.sanitizing && d.sani.inProgress
    ensures MoveAll(Orderly(d, [], [], [], 1), FINISH) ==
            Orderly(d.(sani := ApplyVerdict(d.sani, COMPLETE_SUCCESS)), [], [], [], 1)
  {
    var c := Orderly(d, [], [], [], 1);
    var answer := Fine(FUNCTIONAL_BIT, 0, DONE_PAGE);
    var e := d.(sani := ApplyVerdict(d.sani, COMPLETE_SUCCESS));
    FinishSteps(d);
    hide DevStep, ApplyVerdict, MoveAll, NVMeMi.Completions, Serve;
    MoveAllAppend(c, [Expire, HandleOne] + Serve(answer), [HandleOne]);
    MoveAllAppend(c, [Expire, HandleOne], Serve(answer));
    Polled(d);
    ActAlone(d, 0, TimerFired);
    ActAlone(d, 1, Replied(READ_SANITIZE, Good(SanitizeStatus(DONE_PAGE))));
    hide Act;
    ReplyIs(READ_SANITIZE, answer);
    Served(d, READ_SANITIZE, 1, answer, Good(SanitizeStatus(DONE_PAGE)));
    MoveAllOne(Orderly(e, [], [], [None], 1), HandleOne);
    assert Orderly(e, [], [], [None], 1).todo[1..] == [];
  }

  lemma FinishSteps(d: Dev)
    requires !d.halted && d.control.presence && d.sani.sanitizing && d.sani.inProgress
    ensures DevStep(d, TimerFired) == Outcome(d, [READ_SANITIZE], true)
    ensures DevStep(d, Replied(READ_SANITIZE, Good(SanitizeStatus(DONE_PAGE)))) ==
            Outcome(d.(sani := ApplyVerdict(d.sani, COMPLETE_SUCCESS)), [], true)
  {
    hide ApplyVerdict;
  }

  /** The percentage of a finished sanitize is still published when the next one is acknowledged. */
  lemma StaleHundred(cfg: Config) returns (run: Run<SysAction>)
    requires cfg.open
    ensures var s := Exec(cfg, run).dev.sani; s.inProgress && s.status == InProgress && s.progress == 100
  {
    run := OrderlyIsASchedule(cfg, BRING_UP + ERASE_ONCE + FINISH + ERASE_ONCE);
    var d := BroughtUp(cfg);
    var d1 := d.(sani := UpdateSanitizeStatus(d.sani, CryptoErase));
    var d2 := d1.(sani := ApplyVerdict(d1.sani, COMPLETE_SUCCESS));
    var end := Orderly(d2.(sani := UpdateSanitizeStatus(d2.sani, CryptoErase)), [], [], [], 1);
    hide Exec, MoveAll, NewDrive;
    MoveAllAppend(Fresh(cfg), BRING_UP + ERASE_ONCE + FINISH, ERASE_ONCE);
    MoveAllAppend(Fresh(cfg), BRING_UP + ERASE_ONCE, FINISH);
    MoveAllAppend(Fresh(cfg), BRING_UP, ERASE_ONCE);
    ErasedOnce(d);
    Finished(d1);
    ErasedOnce(d2);
    SameDev(Exec(cfg, run), end);
  }

  const ERASE_TWICE: seq<Move> :=
    [Call(Erase(CryptoErase)), PostOne] + [Call(Erase(CryptoErase)), PostOne]
    + [RunOne(FINE), RunOne(FINE.(rc := 1))] + [HandleOne]

  /** The worker runs two commands that complete once each. */
  lemma BothRun(d: Dev, c1: Command, c2: Command, waits: nat, a1: Answer, a2: Answer, r1: Reply, r2: Reply)
    requires !d.halted && NVMeMi.Completions(c1, a1) == [r1] && NVMeMi.Completions(c2, a2) == [r2]
    ensures MoveAll(Orderly(d, [], [c1, c2], [], waits), [RunOne(a1), RunOne(a2)]) ==
            Orderly(d, [], [], [Some(Replied(c1, r1)), Some(Replied(c2, r2))], waits)
  {
    hide NVMeMi.Completions, MoveAll, DevStep;
    var c := Orderly(d, [], [c1, c2], [], waits);
    TwoMoves(c, RunOne(a1), RunOne(a2));
    assert [c1, c2][1..] == [c2];
    assert MoveOn(c, RunOne(a1)) == Orderly(d, [], [c2], [Some(Replied(c1, r1))], waits);
  }

  lemma PostsAnErase(d: Dev, queue: seq<Command>)
    requires !d.halted && CryptoErase in d.sani.capability && !d.sani.inProgress
    ensures MoveAll(Orderly(d, [], queue, [], 1), [Call(Erase(CryptoErase)), PostOne]) ==
            Orderly(d, [], queue + [ERASE], [], 1)
  {
    EraseSteps(d);
    hide MoveAll, DevStep;
    var c := Orderly(d, [], queue, [], 1);
    TwoMoves(c, Call(Erase(CryptoErase)), PostOne);
    assert MoveOn(c, Call(Erase(CryptoErase))) == Orderly(d, [ERASE], queue, [], 1);
  }

  lemma ErasedTwice(d: Dev)
    requires !d.halted && CryptoErase in d.sani.capability && !d.sani.inProgress
    ensures MoveAll(Orderly(d, [], [], [], 1), ERASE_TWICE) ==
            Orderly(d.(sani := UpdateSanitizeStatus(d.sani, CryptoErase)), [], [],
                    [Some(Replied(ERASE, Bad(BadMessage)))], 1)
  {
    var c := Orderly(d, [], [], [], 1);
    var twice := [Call(Erase(CryptoErase)), PostOne];
    var both := [RunOne(FINE), RunOne(FINE.(rc := 1))];
    var items := [Some(Replied(ERASE, Good(Raw))), Some(Replied(ERASE, Bad(BadMessage)))];
    EraseSteps(d);
    ReplyIs(ERASE, FINE);
    ReplyIs(ERASE, FINE.(rc := 1));
    hide DevStep, UpdateSanitizeStatus, MoveAll, NVMeMi.Completions;
    MoveAllAppend(c, twice + twice + both, [HandleOne]);
    MoveAllAppend(c, twice + twice, both);
    MoveAllAppend(c, twice, twice);
    PostsAnErase(d, []);
    assert [] + [ERASE] == [ERASE];
    PostsAnErase(d, [ERASE]);
    assert [ERASE] + [ERASE] == [ERASE, ERASE];
    BothRun(d, ERASE, ERASE, 1, FINE, FINE.(rc := 1), Good(Raw), Bad(BadMessage));
    MoveAllOne(Orderly(d, [], [], items, 1), HandleOne);
    FirstHandled(d, items[0].value, items[1], 1);
  }

  /** The first of two items is handled and starts nothing. */
  lemma FirstHandled(d: Dev, first: DevAction, second: Option<DevAction>, waits: nat)
    requires !d.halted
    requires var o := DevStep(d, first); o.issue == [] && !o.rearm
    ensures MoveOn(Orderly(d, [], [], [Some(first), second], waits), HandleOne) ==
            Orderly(DevStep(d, first).dev, [], [], [second], waits)
  {
    hide DevStep;
    assert [Some(first), second][1..] == [second];
  }

  /**
   A second erase is accepted until the first is acknowledged, and its failure then ends the
   operation that the first has started, although the drive goes on with it.
   */
  lemma SecondEraseEndsFirst(cfg: Config) returns (run: Run<SysAction>)
    requires cfg.open
    ensures var s := Exec(cfg, run);
            var t := Exec(cfg, Then(run, MainHandles));
            && s.dev.sani.inProgress && s.mainQ != [] && ActionOf(s.mainQ[0]) == Some(Replied(ERASE, Bad(BadMessage)))
            && !t.dev.sani.inProgress && t.dev.sani.status == Failed
  {
    run := OrderlyIsASchedule(cfg, BRING_UP + ERASE_TWICE);
    var d := BroughtUp(cfg);
    var d1 := d.(sani := UpdateSanitizeStatus(d.sani, CryptoErase));
    var c := Orderly(d1, [], [], [Some(Replied(ERASE, Bad(BadMessage)))], 1);
    MoveAllAppend(Fresh(cfg), BRING_UP, ERASE_TWICE);
    ErasedTwice(d);
    EraseSteps(d1);
    ManagerRest.ExecIs(cfg, run, MainHandles);
    hide Exec, MoveAll, NewDrive, DevStep, Step;
    AtHead(Exec(cfg, run), c);
    HandleHappens(cfg, Exec(cfg, run), c);
    SameDev(Exec(cfg, Then(run, MainHandles)), MoveOn(c, HandleOne));
  }

  lemma AtHead(s: Sys, c: Orderly)
    requires At(s, c, W.Idle) && c.todo != []
    ensures s.dev == c.dev && s.mainQ != [] && ActionOf(s.mainQ[0]) == c.todo[0]
  {
  }

  // ------------------------------------------------------------ health and SMART

  /** The timer expires outside a sanitize: health and SMART are read and handled. */
  function PollHealth(answer: Answer): seq<Move> {
    [Expire, HandleOne] + [PostOne, PostOne] + [RunOne(answer), RunOne(answer)] + [HandleOne, HandleOne]
  }

  lemma BothPosted(d: Dev, c1: Command, c2: Command)
    requires !d.halted
    ensures MoveAll(Orderly(d, [c1, c2], [], [], 0), [PostOne, PostOne]) == Orderly(d, [], [c1, c2], [], 0)
  {
    hide MoveAll, DevStep;
    var c := Orderly(d, [c1, c2], [], [], 0);
    TwoMoves(c, PostOne, PostOne);
    assert [c1, c2][1..] == [c2];
    assert MoveOn(c, PostOne) == Orderly(d, [c2], [c1], [], 0);
  }

  lemma BothHandled(d: Dev, first: DevAction, second: DevAction)
    requires !d.halted
    requires var o := DevStep(d, first); o.issue == [] && !o.rearm && !o.dev.halted
    requires var o := DevStep(DevStep(d, first).dev, second); o.issue == [] && o.rearm
    ensures MoveAll(Orderly(d, [], [], [Some(first), Some(second)], 0), [HandleOne, HandleOne]) ==
            Orderly(DevStep(DevStep(d, first).dev, second).dev, [], [], [], 1)
  {
    hide MoveAll, DevStep;
    TwoMoves(Orderly(d, [], [], [Some(first), Some(second)], 0), HandleOne, HandleOne);
    FirstHandled(d, first, Some(second), 0);
    assert [Some(second)][1..] == [];
    ActAlone(DevStep(d, first).dev, 0, second);
  }

  lemma HealthPolled(d: Dev, answer: Answer)
    requires !d.halted && d.control.presence && !d.sani.inProgress && answer.rc == 0
    ensures var h := DevStep(d, Replied(HealthPoll, Good(Health(answer.health)))).dev;
            MoveAll(Orderly(d, [], [], [], 1), PollHealth(answer)) ==
            Orderly(DevStep(h, Replied(READ_SMART, Good(Smart(answer.warning)))).dev, [], [], [], 1)
  {
    var c := Orderly(d, [], [], [], 1);
    var good := Replied(HealthPoll, Good(Health(answer.health)));
    var smart := Replied(READ_SMART, Good(Smart(answer.warning)));
    PollSteps(d, answer);
    ReplyIs(HealthPoll, answer);
    ReplyIs(READ_SMART, answer);
    hide DevStep, MoveAll, NVMeMi.Completions, MoveOn;
    MoveAllAppend(c, [Expire, HandleOne] + [PostOne, PostOne] + [RunOne(answer), RunOne(answer)],
                  [HandleOne, HandleOne]);
    MoveAllAppend(c, [Expire, HandleOne] + [PostOne, PostOne], [RunOne(answer), RunOne(answer)]);
    MoveAllAppend(c, [Expire, HandleOne], [PostOne, PostOne]);
    Polled(d);
    ActAlone(d, 0, TimerFired);
    hide Act;
    BothPosted(d, HealthPoll, READ_SMART);
    BothRun(d, HealthPoll, READ_SMART, 0, answer, answer, good.reply, smart.reply);
    BothHandled(d, good, smart);
  }

  lemma PollSteps(d: Dev, answer: Answer)
    requires !d.halted && d.control.presence && !d.sani.inProgress
    ensures DevStep(d, TimerFired) == Outcome(d, [HealthPoll, READ_SMART], false)
    ensures var o := DevStep(d, Replied(HealthPoll, Good(Health(answer.health))));
            && o.issue == [] && !o.rearm && !o.dev.halted
            && var p := DevStep(o.dev, Replied(READ_SMART, Good(Smart(answer.warning))));
               p.issue == [] && p.rearm
  {
    hide OnHealthPage, OnSmartPage;
    HealthPageLeaves(d, answer.health);
  }

  lemma HealthPageLeaves(d: Dev, page: HealthPage)
    ensures OnHealthPage(d, page).halted == d.halted
  {
    hide MarkFunctional, Decimal;
  }

  /** A drive that is polled once after it has been brought up. */
  lemma PolledOnce(cfg: Config, answer: Answer) returns (run: Run<SysAction>)
    requires cfg.open && answer.rc == 0
    ensures var built := NewDrive(cfg.path, cfg.garbage).healthState;
            var functional := answer.health.status & FUNCTIONAL_BIT != 0;
            var h := MarkFunctional(built, functional).(functionalBits := [functional]);
            Exec(cfg, run).dev.healthState == OnSmartPage(h, answer.warning)
  {
    hide Exec, MoveAll, NewDrive, DevStep, MarkFunctional, OnSmartPage;
    run := OrderlyIsASchedule(cfg, BRING_UP + PollHealth(answer));
    var d := BroughtUp(cfg);
    MoveAllAppend(Fresh(cfg), BRING_UP, PollHealth(answer));
    HealthPolled(d, answer);
    PolledHealth(cfg, d, answer);
    var good := Replied(HealthPoll, Good(Health(answer.health)));
    var smart := Replied(READ_SMART, Good(Smart(answer.warning)));
    SameDev(Exec(cfg, run), Orderly(DevStep(DevStep(d, good).dev, smart).dev, [], [], [], 1));
  }

  lemma PolledHealth(cfg: Config, d: Dev, answer: Answer)
    requires Up(cfg, d)
    ensures var h := DevStep(d, Replied(HealthPoll, Good(Health(answer.health)))).dev;
            var built := NewDrive(cfg.path, cfg.garbage).healthState;
            var functional := answer.health.status & FUNCTIONAL_BIT != 0;
            DevStep(h, Replied(READ_SMART, Good(Smart(answer.warning)))).dev.healthState ==
            OnSmartPage(MarkFunctional(built, functional).(functionalBits := [functional]), answer.warning)
  {
    hide NewDrive, DevStep, MarkFunctional, OnSmartPage;
    var good := Replied(HealthPoll, Good(Health(answer.health)));
    DP.HealthPart(d, good);
    DP.HealthPart(DevStep(d, good).dev, Replied(READ_SMART, Good(Smart(answer.warning))));
    PollSteps(d, answer);
    NewBits(cfg);
    assert [] + [answer.health.status & FUNCTIONAL_BIT != 0] == [answer.health.status & FUNCTIONAL_BIT != 0];
  }

  lemma NewBits(cfg: Config)
    ensures NewDrive(cfg.path, cfg.garbage).healthState.functionalBits == []
  {
  }

  /** A failed drive can be published as healthy: a clean first SMART reading hides the failure. */
  lemma FailureMasked(cfg: Config) returns (run: Run<SysAction>)
    requires cfg.open
    ensures var h := Exec(cfg, run).dev.healthState;
            !h.functional && h.health == OK && multiset(h.events)[DriveFailure] == 1
  {
    run := PolledOnce(cfg, Fine(0, 0, ZERO_SANITIZE_PAGE));
    DP.SmartEventsHaveNoFailure(0);
    hide Exec, Decimal, FaultsOf;
    var h := MarkFunctional(NewDrive(cfg.path, cfg.garbage).healthState, false);
    assert h.health == Critical && !h.functional && h.events == [DriveFailure];
  }

  /** A first SMART reading of 0xff sets every bit and publishes nothing. */
  lemma FirstReadingLost(cfg: Config) returns (run: Run<SysAction>)
    requires cfg.open
    ensures var h := Exec(cfg, run).dev.healthState;
            h.readings == [0xff] && h.published == NO_FAULTS && h.warnings == "" && h.events == [] && h.health == OK
  {
    run := PolledOnce(cfg, Fine(FUNCTIONAL_BIT, 0xff, ZERO_SANITIZE_PAGE));
    hide Exec, Decimal, FaultsOf, SmartEvents;
  }

  // ------------------------------------------------------------ a trap

  const ZERO_ESTIMATE: SanitizePage := ZERO_SANITIZE_PAGE.(status := IN_PROGRESS)

  lemma TrapSteps(d: Dev)
    requires !d.halted
    ensures DevStep(d, Replied(READ_SANITIZE, Good(SanitizeStatus(ZERO_ESTIMATE)))) ==
            Outcome(d.(halted := true), [], false)
  {
    assert EstimateFor(d.sani, ZERO_ESTIMATE) == 0;
  }

  /** A drive that reports a sanitize in progress and an estimate of zero makes the program trap. */
  lemma ZeroEstimateTraps(cfg: Config) returns (run: Run<SysAction>)
    requires cfg.open
    ensures Exec(cfg, run).dev.halted
  {
    var answer := Fine(FUNCTIONAL_BIT, 0, ZERO_ESTIMATE);
    var poll := [Expire, HandleOne];
    run := OrderlyIsASchedule(cfg, BRING_UP + ERASE_ONCE + poll + Serve(answer));
    var d := BroughtUp(cfg);
    var d1 := d.(sani := UpdateSanitizeStatus(d.sani, CryptoErase));
    FinishSteps(d1);
    TrapSteps(d1);
    hide Exec, MoveAll, NewDrive, DevStep, NVMeMi.Completions, Serve;
    MoveAllAppend(Fresh(cfg), BRING_UP + ERASE_ONCE + poll, Serve(answer));
    MoveAllAppend(Fresh(cfg), BRING_UP + ERASE_ONCE, poll);
    MoveAllAppend(Fresh(cfg), BRING_UP, ERASE_ONCE);
    ErasedOnce(d);
    Polled(d1);
    ActAlone(d1, 0, TimerFired);
    ReplyIs(READ_SANITIZE, answer);
    Served(d1, READ_SANITIZE, 1, answer, Good(SanitizeStatus(ZERO_ESTIMATE)));
    ActAlone(d1, 1, Replied(READ_SANITIZE, Good(SanitizeStatus(ZERO_ESTIMATE))));
    hide Act;
    SameDev(Exec(cfg, run), Orderly(d1.(halted := true), [], [], [], 1));
  }

  // ------------------------------------------------------------ a drive given up

  /** The worker finds nothing more to do. */
  lemma RunsDry(cfg: Config, s: Sys, c: Orderly, answer: Answer)
    requires At(s, c, W.Idle) && !c.dev.halted && c.outbox == [] && c.queue == [] && c.todo == [] && c.waits == 0
    ensures Calm(Step(cfg, s, WorkerRuns(answer)), W.Drained, W.Idle, [])
    ensures Step(cfg, s, WorkerRuns(answer)).dev == s.dev
  {
    hide Flight;
    assert |s.w.queue| == |Payloads(s.w.queue)|;
  }

  lemma CalmKeepsDrive(cfg: Config, s: Sys, pc: W.WorkerPc, answer: Answer)
    requires Calm(s, pc, W.Idle, []) && (W.InWindow(pc) || pc == W.Locked)
    ensures Step(cfg, s, WorkerRuns(answer)).dev == s.dev
  {
    DrivePartIs(cfg, s, WorkerRuns(answer));
  }

  /** Left with nothing to do, the worker goes on to its wait. */
  lemma GoesToRest(cfg: Config, run: Run<SysAction>, c: Orderly) returns (end: Run<SysAction>)
    requires At(Exec(cfg, run), c, W.Idle)
    requires !c.dev.halted && c.outbox == [] && c.queue == [] && c.todo == [] && c.waits == 0
    ensures var s := Exec(cfg, end);
            AtRest(s) && s.dev == c.dev && s.w.queue == []
  {
    var r1 := Then(run, WorkerRuns(ANY_ANSWER));
    var r2 := Then(r1, WorkerRuns(ANY_ANSWER));
    var r3 := Then(r2, WorkerRuns(ANY_ANSWER));
    end := Then(r3, WorkerRuns(ANY_ANSWER));
    hide Exec, Step, At, Calm, AtRest;
    ManagerRest.ExecIs(cfg, run, WorkerRuns(ANY_ANSWER));
    ManagerRest.ExecIs(cfg, r1, WorkerRuns(ANY_ANSWER));
    ManagerRest.ExecIs(cfg, r2, WorkerRuns(ANY_ANSWER));
    ManagerRest.ExecIs(cfg, r3, WorkerRuns(ANY_ANSWER));
    SameDev(Exec(cfg, run), c);
    RunsDry(cfg, Exec(cfg, run), c, ANY_ANSWER);
    CalmKeepsDrive(cfg, Exec(cfg, r1), W.Drained, ANY_ANSWER);
    CalmWorker(cfg, Exec(cfg, r1), W.Drained, [], ANY_ANSWER);
    CalmKeepsDrive(cfg, Exec(cfg, r2), W.Restarted, ANY_ANSWER);
    CalmWorker(cfg, Exec(cfg, r2), W.Restarted, [], ANY_ANSWER);
    CalmKeepsDrive(cfg, Exec(cfg, r3), W.Locked, ANY_ANSWER);
    CalmWorker(cfg, Exec(cfg, r3), W.Locked, [], ANY_ANSWER);
    CalmRests(Exec(cfg, end), []);
  }

  lemma AbsentSteps(cfg: Config)
    ensures var d := NewDrive(cfg.path, cfg.garbage);
            var o := DevStep(d, Initialize);
            var p := DevStep(o.dev, Replied(ScanControllers, Bad(BadMessage)));
            && o.issue == [ScanControllers] && !o.rearm && !o.dev.halted
            && p.issue == [] && !p.rearm && !p.dev.halted && !p.dev.control.present && !p.dev.control.presence
  {
    hide MarkFunctional;
  }

  /**
   A drive whose first scan fails is given up: the program comes to rest with nothing in flight and no timer armed,
   although the poll handler would initialise an absent drive again.
   */
  lemma FirstScanFailsForGood(cfg: Config) returns (run: Run<SysAction>)
    requires cfg.open
    ensures var s := Exec(cfg, run);
            && !s.dev.halted && !s.dev.control.present && !s.dev.control.presence
            && AtRest(s) && Stuck(cfg, s) && Flight(s) == multiset{}
  {
    var answer := FINE.(rc := 1);
    var d0 := NewDrive(cfg.path, cfg.garbage);
    var d1 := DevStep(d0, Initialize).dev;
    var d2 := DevStep(d1, Replied(ScanControllers, Bad(BadMessage))).dev;
    var start := OrderlyIsASchedule(cfg, [Call(Initialize)] + Serve(answer));
    AbsentSteps(cfg);
    FreshRuns(cfg);
    ScanFailsWith(answer);
    hide Exec, MoveAll, NewDrive, DevStep, NVMeMi.Completions, Serve, Flight, AtRest, Stuck;
    MoveAllAppend(Fresh(cfg), [Call(Initialize)], Serve(answer));
    MoveAllOne(Fresh(cfg), Call(Initialize));
    ActAlone(d0, 0, Initialize);
    Served(d1, ScanControllers, 0, answer, Bad(BadMessage));
    ActAlone(d1, 0, Replied(ScanControllers, Bad(BadMessage)));
    hide Act;
    run := GoesToRest(cfg, start, Orderly(d2, [], [], [], 0));
    RestIsStuck(cfg, Exec(cfg, run));
    NothingLeft(cfg, run);
  }

  lemma ScanFailsWith(answer: Answer)
    requires answer.rc > 0
    ensures NVMeMi.Completions(ScanControllers, answer) == [Bad(BadMessage)]
  {
  }

  lemma NothingLeft(cfg: Config, run: Run<SysAction>)
    requires AtRest(Exec(cfg, run)) && Exec(cfg, run).w.queue == []
    ensures Flight(Exec(cfg, run)) == multiset{}
  {
    hide Exec, Flight;
    RestMeansLostWakeup(cfg, run);
    assert Payloads(Exec(cfg, run).w.queue) == [];
  }

  // ------------------------------------------------------------ a failure without an error number

  const SILENT: Answer := FINE.(rc := -1, errno := 0)

  lemma SilentReply()
    ensures NVMeMi.Completions(ERASE, SILENT) == [Good(Raw)] && NVMeMi.Silent(SILENT.rc, SILENT.errno)
  {
  }

  /** What the end of a command leaves in the history. */
  lemma RunRecords(cfg: Config, s: Sys, c: Orderly, command: Command, answer: Answer)
    requires Busy(s, c, command) && !c.dev.halted
    ensures var t := Step(cfg, s, WorkerRuns(answer));
            && t.hist.answers == s.hist.answers + [answer]
            && t.w.executed == s.w.executed + [s.w.running.value] && s.w.running.value.payload == command
  {
    hide Flight, NVMeMi.Completions;
  }

  lemma HandleLeaves(cfg: Config, s: Sys)
    ensures Step(cfg, s, MainHandles).hist.answers == s.hist.answers
    ensures Step(cfg, s, MainHandles).w.executed == s.w.executed
  {
    hide Flight, DevStep, Queued;
  }

  lemma SilentRun(cfg: Config, run: Run<SysAction>, d: Dev) returns (end: Run<SysAction>)
    requires At(Exec(cfg, run), Orderly(d, [], [ERASE], [], 1), W.Idle) && !d.halted
    ensures At(Exec(cfg, end), Orderly(d, [], [], [Some(Replied(ERASE, Good(Raw)))], 1), W.Idle)
    ensures var s := Exec(cfg, end);
            && s.hist.answers != [] && s.hist.answers[|s.hist.answers| - 1] == SILENT
            && s.w.executed != [] && s.w.executed[|s.w.executed| - 1].payload == ERASE
  {
    var busy := Orderly(d, [], [], [], 1);
    var r1 := Then(run, WorkerRuns(SILENT));
    end := Then(r1, WorkerRuns(SILENT));
    SilentReply();
    assert [ERASE][1..] == [];
    hide Exec, Step, At, Busy, NVMeMi.Completions;
    ManagerRest.ExecIs(cfg, run, WorkerRuns(SILENT));
    ManagerRest.ExecIs(cfg, r1, WorkerRuns(SILENT));
    RunBegins(cfg, Exec(cfg, run), Orderly(d, [], [ERASE], [], 1), SILENT);
    RunRecords(cfg, Exec(cfg, r1), busy, ERASE, SILENT);
    RunEnds(cfg, Exec(cfg, r1), busy, ERASE, SILENT);
    assert busy.todo + Callbacks(ERASE, [Good(Raw)]) == [Some(Replied(ERASE, Good(Raw)))];
  }

  /** A sanitize that failed without an error number is taken as acknowledged. */
  lemma SilentFailureAcknowledged(cfg: Config) returns (run: Run<SysAction>)
    requires cfg.open
    ensures var s := Exec(cfg, run);
            && s.dev.sani.inProgress && s.hist.answers != [] && s.w.executed != []
            && s.w.executed[|s.w.executed| - 1].payload == ERASE
            && s.hist.answers[|s.hist.answers| - 1].rc < 0
  {
    var d := BroughtUp(cfg);
    var issue := [Call(Erase(CryptoErase)), PostOne];
    var start := OrderlyIsASchedule(cfg, BRING_UP + issue);
    assert [] + [ERASE] == [ERASE];
    hide Exec, MoveAll, NewDrive, DevStep, Step, At, MoveOn;
    MoveAllAppend(Fresh(cfg), BRING_UP, issue);
    PostsAnErase(d, []);
    var before := SilentRun(cfg, start, d);
    run := Then(before, MainHandles);
    AckHandled(cfg, before, d);
    ManagerRest.ExecIs(cfg, before, MainHandles);
    HandleLeaves(cfg, Exec(cfg, before));
  }

  lemma AckHandled(cfg: Config, run: Run<SysAction>, d: Dev)
    requires cfg.open && !d.halted
    requires At(Exec(cfg, run), Orderly(d, [], [], [Some(Replied(ERASE, Good(Raw)))], 1), W.Idle)
    ensures Exec(cfg, Then(run, MainHandles)).dev.sani.inProgress
  {
    var c := Orderly(d, [], [], [Some(Replied(ERASE, Good(Raw)))], 1);
    ManagerRest.ExecIs(cfg, run, MainHandles);
    EraseSteps(d);
    hide Exec, Step, At, DevStep;
    HandleHappens(cfg, Exec(cfg, run), c);
    SameDev(Exec(cfg, Then(run, MainHandles)), MoveOn(c, HandleOne));
  }
}
