/** How commands and their callbacks travel: nothing issued is lost, and callbacks keep the order of their commands. */
module ManagerFlow {
  import opened Types
  import opened DriveTypes
  import opened Device
  import opened Manager
  import W = WorkerProtocol
  import NVMeMi

  // ------------------------------------------------------------ the parts follow their own machines

  ghost predicate PartsInv(cfg: Config, s: Sys) {
    && s.w == W.Exec(s.wRun) && s.w.dtor == W.NotStarted
    && s.dev == DevExec(cfg.path, cfg.garbage, s.devRun)
  }

  /** The step of the worker protocol that a step of the program contains. */
  function WorkerPart(s: Sys, a: SysAction): Option<W.Action<Command>> {
    if s.dev.halted then None else
    match a
    case WorkerRuns(_) => Some(W.WorkerStep)
    case SpuriousWakeup => Some(W.Spurious)
    case MainPosts =>
      if s.w.PosterAt(MAIN_THREAD) != W.Idle then Some(W.PosterStep(MAIN_THREAD))
      else if s.outbox == [] then None
      else Some(W.Call(MAIN_THREAD, s.outbox[0]))
    case _ => None
  }

  /** The step of the drive machine that a step of the program contains. */
  function DrivePart(s: Sys, a: SysAction): Option<DevAction> {
    if s.dev.halted || !MainIsFree(s) then None else
    match a
    case MainHandles => if s.mainQ == [] then None else ActionOf(s.mainQ[0])
    case Called(d) => if IsCall(d) then Some(d) else None
    case _ => None
  }

  lemma WorkerPartIs(cfg: Config, s: Sys, a: SysAction)
    ensures var t := Step(cfg, s, a);
            match WorkerPart(s, a)
            case None => t.w == s.w && t.wRun == s.wRun
            case Some(b) => t.w == W.Step(s.w, b) && t.wRun == Then(s.wRun, b)
  {
    match a
    case MainHandles =>
    case _ =>
  }

  lemma DrivePartIs(cfg: Config, s: Sys, a: SysAction)
    ensures var t := Step(cfg, s, a);
            match DrivePart(s, a)
            case None => t.dev == s.dev && t.devRun == s.devRun
            case Some(b) => t.dev == DevStep(s.dev, b).dev && t.devRun == Then(s.devRun, b)
  {
    match a
    case MainHandles =>
    case _ =>
  }

  lemma NoDestructor(w: W.State<Command>, a: W.Action<Command>)
    requires !a.DtorStep?
    ensures W.Step(w, a).dtor == w.dtor
  {
    if a == W.WorkerStep { W.WorkerFrame(w); }
  }

  /** Seen on its own, the worker runs its protocol and the drive runs its machine. */
  lemma {:induction false} PartsRun(cfg: Config, run: Run<SysAction>)
    ensures PartsInv(cfg, Exec(cfg, run))
    ensures W.Inv(Exec(cfg, run).w) && !Exec(cfg, run).w.stop
  {
    match run
    case Start =>
    case Then(before, a) =>
      PartsRun(cfg, before);
      var s := Exec(cfg, before);
      WorkerPartIs(cfg, s, a);
      DrivePartIs(cfg, s, a);
      match WorkerPart(s, a) { case Some(b) => NoDestructor(s.w, b); case None => }
    W.RunKeepsInv(Exec(cfg, run).wRun);
  }

  // ------------------------------------------------------------ commands on their way to the drive

  /** What the worker protocol holds of the commands not yet executed. */
  function Carried(w: W.State<Command>): seq<Command> {
    Payloads(AsSeq(w.running)) + Payloads(w.queue) + BeingPosted(w)
  }

  predicate Finishes(w: W.State<Command>) {
    w.running.Some? && W.WorkerNext(w).running == None
  }

  lemma RunCarries(w: W.State<Command>)
    ensures match W.RunQueue(w)
            case None => w.running == None && w.queue == []
            case Some(t) =>
              if w.running.Some? then
                t.running == None && t.queue == w.queue && t.executed == w.executed + [w.running.value]
              else
                t.running.Some? && Payloads(AsSeq(t.running)) + Payloads(t.queue) == Payloads(w.queue)
                && t.executed == w.executed
  {
  }

  lemma WorkerCarries(w: W.State<Command>)
    requires W.QueueInv(w)
    ensures var t := W.WorkerNext(w);
            if Finishes(w) then Carried(w) == [w.running.value.payload] + Carried(t) && |t.executed| == |w.executed| + 1
                                && t.executed == w.executed + [w.running.value]
            else Carried(t) == Carried(w) && t.executed == w.executed
  {
    hide W.WorkerNext, W.RunQueue;
    var t := W.WorkerNext(w);
    W.WorkerFrame(w);
    assert BeingPosted(t) == BeingPosted(w);
    W.OffQueue(w);
    RunCarries(w);
  }

  lemma PosterCarries(w: W.State<Command>)
    requires W.Inv(w) && !w.stop
    ensures var t := W.PosterNext(w, MAIN_THREAD); Carried(t) == Carried(w) && t.executed == w.executed
  {
    var t := W.PosterNext(w, MAIN_THREAD);
    match w.PosterAt(MAIN_THREAD)
    case Enqueueing(j) =>
      assert Payloads(t.queue) == Payloads(w.queue) + [j.payload];
    case _ =>
  }

  lemma CallCarries(w: W.State<Command>, c: Command)
    requires w.PosterAt(MAIN_THREAD) == W.Idle
    ensures var t := W.Step(w, W.Call(MAIN_THREAD, c)); Carried(t) == Carried(w) + [c] && t.executed == w.executed
  {
  }

  lemma SpuriousCarries(w: W.State<Command>)
    ensures var t := W.Step(w, W.Spurious); Carried(t) == Carried(w) && t.executed == w.executed
  {
  }

  // ------------------------------------------------------------ the order of requests

  /** The main thread being the only caller, the i-th accepted command is the i-th one requested. */
  ghost predicate CallOrder(w: W.State<Command>) {
    && (forall i :: 0 <= i < |w.accepted| ==> w.accepted[i].ticket == i)
    && (match w.PosterAt(MAIN_THREAD)
        case Idle => w.issued == |w.accepted|
        case Notifying(_, _) => w.issued == |w.accepted|
        case Unlocking(_, _) => w.issued == |w.accepted|
        case pc => pc.job.ticket == |w.accepted| && w.issued == |w.accepted| + 1)
  }

  lemma WorkerKeepsCallOrder(w: W.State<Command>)
    requires CallOrder(w)
    ensures CallOrder(W.WorkerNext(w))
  {
    W.WorkerFrame(w);
    IssuedStays(w);
    hide W.WorkerNext;
  }

  lemma IssuedStays(w: W.State<Command>)
    ensures W.WorkerNext(w).issued == w.issued
  {
  }

  lemma PosterKeepsCallOrder(w: W.State<Command>)
    requires CallOrder(w) && !w.stop
    ensures CallOrder(W.PosterNext(w, MAIN_THREAD))
  {
  }

  lemma CallKeepsCallOrder(w: W.State<Command>, c: Command)
    requires CallOrder(w)
    ensures CallOrder(W.Step(w, W.Call(MAIN_THREAD, c)))
  {
  }

  lemma SpuriousKeepsCallOrder(w: W.State<Command>)
    requires CallOrder(w)
    ensures CallOrder(W.Step(w, W.Spurious))
  {
  }

  lemma StepKeepsCallOrder(cfg: Config, s: Sys, a: SysAction)
    requires CallOrder(s.w) && !s.w.stop
    ensures CallOrder(Step(cfg, s, a).w)
  {
    WorkerPartIs(cfg, s, a);
    hide Step, W.Step, CallOrder;
    match WorkerPart(s, a)
    case None =>
    case Some(WorkerStep) => WorkerKeepsCallOrder(s.w); StepIsNext(s.w);
    case Some(Spurious) => SpuriousKeepsCallOrder(s.w);
    case Some(Call(_, c)) => CallKeepsCallOrder(s.w, c);
    case Some(PosterStep(_)) => PosterKeepsCallOrder(s.w); StepIsNext(s.w);
    case Some(DtorStep) =>
  }

  lemma StepIsNext(w: W.State<Command>)
    ensures W.Step(w, W.WorkerStep) == W.WorkerNext(w)
    ensures W.Step(w, W.PosterStep(MAIN_THREAD)) == W.PosterNext(w, MAIN_THREAD)
  {
    hide W.WorkerNext, W.PosterNext;
  }

  lemma {:induction false} AcceptedInRequestOrder(cfg: Config, run: Run<SysAction>)
    ensures CallOrder(Exec(cfg, run).w)
  {
    match run
    case Start =>
    case Then(before, a) =>
      hide Step, CallOrder, W.Inv;
      AcceptedInRequestOrder(cfg, before);
      PartsRun(cfg, before);
      StepKeepsCallOrder(cfg, Exec(cfg, before), a);
  }

  /** Commands are accepted, and hence executed, in the order in which the main thread requested them. */
  lemma ExecutedInRequestOrder(cfg: Config, run: Run<SysAction>)
    ensures var w := Exec(cfg, run).w;
            && (forall i :: 0 <= i < |w.accepted| ==> w.accepted[i].ticket == i)
            && (forall i :: 0 <= i < |w.executed| ==> w.executed[i].ticket == i)
  {
    hide Exec;
    AcceptedInRequestOrder(cfg, run);
    PartsRun(cfg, run);
    ExecutedTickets(Exec(cfg, run).w);
  }

  lemma ExecutedTickets(w: W.State<Command>)
    requires CallOrder(w) && W.Inv(w)
    ensures forall i :: 0 <= i < |w.executed| ==> w.executed[i].ticket == i
  {
    assert forall i :: 0 <= i < |w.executed| ==> w.accepted[i] == w.executed[i];
  }

  // ------------------------------------------------------------ what is in flight across a step

  lemma {:induction false} CommandsOfAppend(p: seq<Item>, q: seq<Item>)
    ensures CommandsOf(p + q) == CommandsOf(p) + CommandsOf(q)
  {
    if p == [] {
      assert p + q == q;
    } else {
      assert (p + q)[1..] == p[1..] + q;
      CommandsOfAppend(p[1..], q);
    }
  }

  lemma {:induction false} CommandsOfAborted(n: nat)
    ensures CommandsOf(Repeat(Aborted, n)) == []
  {
    if n > 0 {
      assert Repeat(Aborted, n)[1..] == Repeat(Aborted, n - 1);
      CommandsOfAborted(n - 1);
    }
  }

  lemma {:induction false} CommandsOfDirects(cs: seq<Command>)
    ensures CommandsOf(Directs(cs)) == cs
  {
    if cs != [] {
      assert Directs(cs)[1..] == Directs(cs[1..]);
      CommandsOfDirects(cs[1..]);
      assert [cs[0]] + cs[1..] == cs;
    }
  }

  lemma {:induction false} CommandsOfDones(index: nat, c: Command, rs: seq<Reply>)
    ensures multiset(CommandsOf(Dones(index, c, rs))) == multiset{}[c := |rs|]
  {
    if rs != [] {
      assert Dones(index, c, rs)[1..] == Dones(index, c, rs[1..]);
      CommandsOfDones(index, c, rs[1..]);
    }
  }

  lemma QueuedCommands(cfg: Config, q: seq<Item>, waits: nat, o: Outcome)
    ensures CommandsOf(Queued(cfg, q, waits, o)) == CommandsOf(q) + (if cfg.open then [] else o.issue)
  {
    var aborted := if o.rearm then Repeat(Aborted, waits) else [];
    var direct := if cfg.open then [] else Directs(o.issue);
    CommandsOfAborted(waits);
    CommandsOfDirects(o.issue);
    CommandsOfAppend(q, aborted);
    CommandsOfAppend(q + aborted, direct);
  }

  lemma PerformFlight(cfg: Config, s: Sys, b: DevAction, o: Outcome)
    ensures Flight(Perform(cfg, s, b, o)) == Flight(s) + multiset(o.issue)
  {
    var t := Perform(cfg, s, b, o);
    QueuedCommands(cfg, s.mainQ, s.waits, o);
    var carried := Carried(s.w);
    assert Unserved(s) == carried + s.outbox;
    assert Unserved(t) == carried + t.outbox;
    assert multiset(t.outbox) == multiset(s.outbox) + (if cfg.open then multiset(o.issue) else multiset{});
  }

  lemma TakeHeadFlight(s: Sys)
    requires s.mainQ != []
    ensures Flight(s) == multiset(CommandOf(s.mainQ[0])) + Flight(TakeHead(s))
  {
    var t := TakeHead(s);
    assert CommandsOf(s.mainQ) == CommandOf(s.mainQ[0]) + CommandsOf(t.mainQ);
  }

  /** The state in which the drive's part of a step is taken. */
  function Before(s: Sys, a: SysAction): Sys
    requires DrivePart(s, a).Some?
  {
    if a == MainHandles then TakeHead(s) else s
  }

  /** The command whose reply a step hands to the drive. */
  function Handled(s: Sys, a: SysAction): seq<Command> {
    if a == MainHandles && DrivePart(s, a).Some? then CommandOf(s.mainQ[0]) else []
  }

  lemma DriveStepIs(cfg: Config, s: Sys, a: SysAction)
    requires DrivePart(s, a).Some?
    ensures Step(cfg, s, a) == Perform(cfg, Before(s, a), DrivePart(s, a).value, DevStep(s.dev, DrivePart(s, a).value))
    ensures Before(s, a).w == s.w && Before(s, a).dev == s.dev && Before(s, a).waits == s.waits
  {
  }

  lemma HandleFlight(cfg: Config, s: Sys, a: SysAction, o: Outcome)
    requires DrivePart(s, a).Some?
    ensures Flight(s) == Flight(Before(s, a)) + multiset(Handled(s, a))
    ensures Flight(Perform(cfg, Before(s, a), DrivePart(s, a).value, o)) == Flight(Before(s, a)) + multiset(o.issue)
  {
    if a == MainHandles { TakeHeadFlight(s); }
    PerformFlight(cfg, Before(s, a), DrivePart(s, a).value, o);
  }

  predicate EndsCommand(s: Sys, a: SysAction) {
    !s.dev.halted && a.WorkerRuns? && Finishes(s.w)
  }

  lemma CompleteFlight(s: Sys, u: Sys, answer: Answer, c: Command, rs: seq<Reply>, index: nat)
    requires u.mainQ == s.mainQ && Unserved(s) == [c] + Unserved(u)
    ensures Flight(Complete(u, answer, Dones(index, c, rs))) + multiset{c} == Flight(s) + multiset{}[c := |rs|]
  {
    var t := Complete(u, answer, Dones(index, c, rs));
    CommandsOfDones(index, c, rs);
    CommandsOfAppend(s.mainQ, Dones(index, c, rs));
    assert Unserved(t) == Unserved(u);
  }

  lemma InvGivesQueue(w: W.State<Command>)
    requires W.Inv(w)
    ensures W.QueueInv(w)
  {
  }

  /** An executed command stays in flight as its callback; one that completes twice is there twice. */
  lemma FinishFlight(cfg: Config, s: Sys, answer: Answer)
    requires W.Inv(s.w) && EndsCommand(s, WorkerRuns(answer))
    ensures var c := s.w.running.value.payload;
            var t := Step(cfg, s, WorkerRuns(answer));
            Flight(t) + multiset{c} == Flight(s) + multiset{}[c := |NVMeMi.Completions(c, answer)|]
  {
    hide W.WorkerNext, W.Inv, NVMeMi.Completions;
    var c := s.w.running.value.payload;
    var u := WorkerTakes(s, W.WorkerStep);
    InvGivesQueue(s.w);
    WorkerCarries(s.w);
    assert Unserved(s) == Carried(s.w) + s.outbox;
    assert Unserved(u) == Carried(u.w) + s.outbox;
    CompleteFlight(s, u, answer, c, NVMeMi.Completions(c, answer), |s.w.executed|);
  }

  lemma QuietTake(s: Sys, a: W.Action<Command>)
    requires Carried(W.Step(s.w, a)) == Carried(s.w)
    ensures Flight(WorkerTakes(s, a)) == Flight(s)
  {
    var t := WorkerTakes(s, a);
    assert Unserved(s) == Carried(s.w) + s.outbox;
    assert Unserved(t) == Carried(t.w) + s.outbox;
  }

  lemma QuietCall(s: Sys)
    requires s.w.PosterAt(MAIN_THREAD) == W.Idle && s.outbox != []
    ensures Flight(WorkerTakes(s, W.Call(MAIN_THREAD, s.outbox[0])).(outbox := s.outbox[1..])) == Flight(s)
  {
    var t := WorkerTakes(s, W.Call(MAIN_THREAD, s.outbox[0])).(outbox := s.outbox[1..]);
    CallCarries(s.w, s.outbox[0]);
    assert s.outbox == [s.outbox[0]] + s.outbox[1..];
    assert Unserved(s) == Carried(s.w) + s.outbox;
    assert Unserved(t) == Carried(t.w) + t.outbox;
  }

  lemma QuietThreads(cfg: Config, s: Sys, a: SysAction)
    requires W.Inv(s.w) && !s.w.stop && !EndsCommand(s, a)
    requires a.WorkerRuns? || a.SpuriousWakeup? || a.MainPosts?
    ensures Flight(Step(cfg, s, a)) == Flight(s)
  {
    if !s.dev.halted {
      if a.WorkerRuns? {
        WorkerCarries(s.w);
        QuietTake(s, W.WorkerStep);
      } else if a.SpuriousWakeup? {
        SpuriousCarries(s.w);
        QuietTake(s, W.Spurious);
      } else if s.w.PosterAt(MAIN_THREAD) != W.Idle {
        PosterCarries(s.w);
        QuietTake(s, W.PosterStep(MAIN_THREAD));
      } else if s.outbox != [] {
        QuietCall(s);
      }
    }
  }

  lemma QuietLoopState(cfg: Config, s: Sys, a: SysAction)
    requires a.MainHandles? || a.TimerExpires? || a.Called?
    requires DrivePart(s, a) == None
    ensures var t := Step(cfg, s, a);
            || t == s
            || (s.mainQ != [] && s.mainQ[0] == Aborted && t == TakeHead(s))
            || (s.waits > 0 && t == s.(waits := s.waits - 1, mainQ := s.mainQ + [Fired]))
  {
  }

  lemma FiredFlight(s: Sys, t: Sys)
    requires t.mainQ == s.mainQ + [Fired] && t.w == s.w && t.outbox == s.outbox
    ensures Flight(t) == Flight(s)
  {
    CommandsOfAppend(s.mainQ, [Fired]);
  }

  lemma QuietLoop(cfg: Config, s: Sys, a: SysAction)
    requires a.MainHandles? || a.TimerExpires? || a.Called?
    requires DrivePart(s, a) == None
    ensures Flight(Step(cfg, s, a)) == Flight(s)
  {
    hide Step, Flight, TakeHead, DrivePart;
    QuietLoopState(cfg, s, a);
    var t := Step(cfg, s, a);
    if s.mainQ != [] && s.mainQ[0] == Aborted { TakeHeadFlight(s); }
    if t.mainQ == s.mainQ + [Fired] && t.w == s.w && t.outbox == s.outbox { FiredFlight(s, t); }
  }

  lemma ForeignFlight(cfg: Config, s: Sys)
    ensures Flight(Step(cfg, s, OtherDrive)) == Flight(s) ||
            Flight(Step(cfg, s, OtherDrive)) == Flight(s) + multiset{Foreign}
  {
    if !s.dev.halted && MainIsFree(s) {
      assert Unserved(Step(cfg, s, OtherDrive)) == Unserved(s) + [Foreign];
    }
  }
}
