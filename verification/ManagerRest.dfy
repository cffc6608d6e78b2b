/**
 When the whole program comes to rest: the states in which neither the worker, nor the main
 loop, nor the timer has anything to do.  Commands can be left behind in such a state, but
 only ones whose notification the worker missed, and the next command posted frees them.
 */
module ManagerRest {
  import opened Types
  import opened DriveTypes
  import opened Device
  import opened Manager
  import opened ManagerFlow
  import MP = ManagerProperties
  import W = WorkerProtocol

  const ANY_ANSWER: Answer :=
    Answer(0, 0, [], 0, [PortRead(0, PortPage(0, 0, 0, 0, 0))], HealthPage(0, 0), 0, ZERO_SANITIZE_PAGE, false)

  /** The steps that need neither a D-Bus call, nor another drive, nor a spurious wake-up. */
  predicate Internal(a: SysAction) {
    a.WorkerRuns? || a.MainPosts? || a.MainHandles? || a.TimerExpires?
  }

  /** No such step changes anything. */
  ghost predicate Stuck(cfg: Config, s: Sys) {
    forall a :: Internal(a) ==> Step(cfg, s, a).(wRun := s.wRun) == s
  }

  predicate AtRest(s: Sys) {
    s.w.pc == W.Waiting && MainIsFree(s) && s.mainQ == [] && s.waits == 0
  }

  // ------------------------------------------------------------ only the main thread posts

  ghost predicate OnlyMain(w: W.State<Command>) {
    forall p :: p in w.posters ==> p == MAIN_THREAD
  }

  lemma WorkerKeepsOnlyMain(w: W.State<Command>, b: W.Action<Command>)
    requires OnlyMain(w)
    requires b.Call? ==> b.poster == MAIN_THREAD
    requires b.PosterStep? ==> b.poster == MAIN_THREAD
    ensures OnlyMain(W.Step(w, b))
  {
    match b
    case WorkerStep => W.WorkerFrame(w);
    case _ =>
  }

  lemma {:induction false} OnlyMainPosts(cfg: Config, run: Run<SysAction>)
    ensures OnlyMain(Exec(cfg, run).w)
  {
    match run
    case Start =>
    case Then(before, a) =>
      hide Step, W.Step;
      OnlyMainPosts(cfg, before);
      var s := Exec(cfg, before);
      WorkerPartIs(cfg, s, a);
      if WorkerPart(s, a).Some? { WorkerKeepsOnlyMain(s.w, WorkerPart(s, a).value); }
  }

  /**
   With no destructor about, a caller that cannot proceed leaves the worker able to, and otherwise the worker
   waits.
   */
  lemma SomeoneMoves(w: W.State<Command>)
    requires W.LockInv(w) && W.StopInv(w) && w.dtor == W.NotStarted && OnlyMain(w) && !W.WorkerEnabled(w)
    ensures w.PosterAt(MAIN_THREAD).WantLock? ==> w.owner == W.Free
    ensures w.PosterAt(MAIN_THREAD) == W.Idle ==> w.pc == W.Waiting && w.owner == W.Free
  {
  }

  // ------------------------------------------------------------ at rest exactly when stuck

  lemma RestIsStuck(cfg: Config, s: Sys)
    requires AtRest(s)
    ensures Stuck(cfg, s)
  {
  }

  lemma WorkerMovesIfEnabled(cfg: Config, s: Sys, answer: Answer)
    requires !s.dev.halted && W.WorkerEnabled(s.w)
    ensures Step(cfg, s, WorkerRuns(answer)).w != s.w
  {
    W.WorkerStepLowersRank(s.w);
    WorkerPartIs(cfg, s, WorkerRuns(answer));
    hide Step, W.WorkerNext;
  }

  lemma PosterMovesUnlessLocked(w: W.State<Command>)
    requires w.PosterAt(MAIN_THREAD) != W.Idle
    requires w.PosterAt(MAIN_THREAD).WantLock? ==> w.owner == W.Free
    ensures W.PosterNext(w, MAIN_THREAD).PosterAt(MAIN_THREAD) != w.PosterAt(MAIN_THREAD)
  {
  }

  lemma MainMoves(cfg: Config, s: Sys)
    requires !s.dev.halted && !MainIsFree(s)
    requires s.w.PosterAt(MAIN_THREAD).WantLock? ==> s.w.owner == W.Free
    ensures Step(cfg, s, MainPosts).w != s.w || Step(cfg, s, MainPosts).outbox != s.outbox
  {
    if s.w.PosterAt(MAIN_THREAD) != W.Idle {
      WorkerPartIs(cfg, s, MainPosts);
      PosterMovesUnlessLocked(s.w);
      StepIsNext(s.w);
      hide Step, W.Step, W.PosterNext;
    }
  }

  lemma LoopMoves(cfg: Config, s: Sys)
    requires !s.dev.halted && MainIsFree(s) && s.mainQ != []
    ensures Step(cfg, s, MainHandles).mainQ != s.mainQ || Step(cfg, s, MainHandles).devRun != s.devRun
  {
    hide DevStep, Flight, W.State<Command>.PosterAt;
    DrivePartIs(cfg, s, MainHandles);
  }

  lemma StuckIsRest(cfg: Config, s: Sys)
    requires !s.dev.halted && Stuck(cfg, s)
    requires W.Inv(s.w) && s.w.dtor == W.NotStarted && OnlyMain(s.w)
    ensures AtRest(s)
  {
    NotEnabled(cfg, s, ANY_ANSWER);
    hide W.Inv, W.WorkerEnabled, Stuck, Step;
    LoopIsStill(cfg, s);
  }

  lemma NotEnabled(cfg: Config, s: Sys, answer: Answer)
    requires !s.dev.halted && Stuck(cfg, s)
    requires W.Inv(s.w) && s.w.dtor == W.NotStarted && OnlyMain(s.w)
    ensures MainIsFree(s) && s.w.pc == W.Waiting
  {
    assert Internal(WorkerRuns(answer)) && Internal(MainPosts);
    hide Step, W.TicketInv, W.RoundInv, W.JoinInv, W.QueueInv, W.WorkerEnabled;
    if W.WorkerEnabled(s.w) { WorkerMovesIfEnabled(cfg, s, answer); }
    SomeoneMoves(s.w);
    if !MainIsFree(s) { MainMoves(cfg, s); }
  }

  lemma LoopIsStill(cfg: Config, s: Sys)
    requires !s.dev.halted && Stuck(cfg, s) && MainIsFree(s)
    ensures s.mainQ == [] && s.waits == 0
  {
    hide Step;
    assert Internal(MainHandles) && Internal(TimerExpires);
    if s.mainQ != [] { LoopMoves(cfg, s); }
    if s.waits > 0 { TimerMoves(cfg, s); }
  }

  lemma TimerMoves(cfg: Config, s: Sys)
    requires !s.dev.halted && s.waits > 0
    ensures Step(cfg, s, TimerExpires).waits != s.waits
  {
  }

  /**
   Left to itself the program stops moving exactly when the worker waits, all is posted and handled, and no timer
   is armed.
   */
  lemma RestsExactly(cfg: Config, run: Run<SysAction>)
    requires !Exec(cfg, run).dev.halted
    ensures var s := Exec(cfg, run); Stuck(cfg, s) <==> AtRest(s)
  {
    var s := Exec(cfg, run);
    PartsRun(cfg, run);
    OnlyMainPosts(cfg, run);
    hide Exec, Stuck;
    if AtRest(s) { RestIsStuck(cfg, s); }
    if Stuck(cfg, s) { StuckIsRest(cfg, s); }
  }

  // ------------------------------------------------------------ what is left behind, and what frees it

  lemma RestFlight(s: Sys)
    requires AtRest(s) && W.QueueInv(s.w)
    ensures Flight(s) == multiset(Payloads(s.w.queue))
  {
    assert Unserved(s) == Payloads(s.w.queue);
  }

  /** The i-th accepted command was accepted after the worker's last run of its queue and before it took the lock. */
  predicate MissedWakeup(w: W.State<Command>, i: nat) {
    i < |w.stamps| && w.stamps[i].round == w.round && W.InWindow(w.stamps[i].pc)
  }

  /** A command that keeps the poll loop alive is stranded in the worker's queue. */
  ghost predicate LoopStranded(w: W.State<Command>) {
    exists i :: |w.executed| <= i < |w.accepted| && MP.KeepsLoopAlive(w.accepted[i].payload) && MissedWakeup(w, i)
  }

  lemma RestingWorker(cfg: Config, run: Run<SysAction>)
    requires AtRest(Exec(cfg, run))
    ensures var w := Exec(cfg, run).w;
            && w.owner == W.Free && w.pc == W.Waiting && !w.stop && |w.executed| <= |w.accepted|
            && w.queue == w.accepted[|w.executed|..]
            && forall i: nat :: i < |w.accepted| ==> (i >= |w.executed| <==> MissedWakeup(w, i))
  {
    var w := Exec(cfg, run).w;
    PartsRun(cfg, run);
    OnlyMainPosts(cfg, run);
    RestingIsFree(w);
    var wRun := Exec(cfg, run).wRun;
    hide Exec;
    W.RunKeepsInv(wRun);
    forall i: nat | i < |w.accepted| ensures i >= |w.executed| <==> MissedWakeup(w, i) {
      W.BlockedExactly(wRun, i);
      assert W.NotifyingIndex(w) == None;
    }
    RestingQueue(w);
  }

  lemma RestingIsFree(w: W.State<Command>)
    requires W.LockInv(w) && w.dtor == W.NotStarted && OnlyMain(w)
    requires w.pc == W.Waiting && w.PosterAt(MAIN_THREAD) == W.Idle
    ensures w.owner == W.Free
  {
  }

  lemma RestingQueue(w: W.State<Command>)
    requires W.QueueInv(w) && w.pc == W.Waiting
    ensures |w.executed| <= |w.accepted| && w.queue == w.accepted[|w.executed|..] && w.running == None
  {
  }

  /**
   A program at rest holds exactly the commands whose notification was missed; and a drive
   published as present can then only be waiting for one of them.
   */
  lemma RestMeansLostWakeup(cfg: Config, run: Run<SysAction>)
    requires AtRest(Exec(cfg, run))
    ensures var s := Exec(cfg, run);
            && Flight(s) == multiset(Payloads(s.w.queue))
            && |s.w.executed| <= |s.w.accepted| && s.w.queue == s.w.accepted[|s.w.executed|..]
            && (forall i: nat :: i < |s.w.accepted| ==> (i >= |s.w.executed| <==> MissedWakeup(s.w, i)))
            && (s.dev.control.present && !s.dev.halted ==> LoopStranded(s.w))
  {
    var s := Exec(cfg, run);
    PartsRun(cfg, run);
    RestFlight(s);
    RestingWorker(cfg, run);
    MP.PollLoopNeverDies(cfg, run);
    hide Exec, Flight, W.Inv, MissedWakeup, MP.LiveCommands, LoopStranded;
    if s.dev.control.present && !s.dev.halted {
      assert Flight(s) == multiset(Payloads(s.w.queue));
      StrandedIs(s.w);
    }
  }

  lemma StrandedIs(w: W.State<Command>)
    requires |w.executed| <= |w.accepted| && w.queue == w.accepted[|w.executed|..]
    requires forall i: nat :: i < |w.accepted| ==> (i >= |w.executed| <==> MissedWakeup(w, i))
    requires MP.LiveCommands(multiset(Payloads(w.queue))) > 0
    ensures LoopStranded(w)
  {
    var c := LiveOne(Payloads(w.queue));
    hide MP.LiveCommands, MissedWakeup, MP.KeepsLoopAlive;
    var k :| 0 <= k < |w.queue| && Payloads(w.queue)[k] == c;
    assert w.accepted[|w.executed| + k].payload == c;
  }

  lemma LiveOne(cs: seq<Command>) returns (c: Command)
    requires MP.LiveCommands(multiset(cs)) > 0
    ensures MP.KeepsLoopAlive(c) && c in cs
  {
    c := if ScanControllers in cs then ScanControllers else if Identify in cs then Identify
         else if PortInformation in cs then PortInformation else READ_SMART;
    assert c in multiset(cs);
  }

  // ------------------------------------------------------------ the next command

  /** The main thread inside `post`, nobody in its way. */
  predicate PostingAt(s: Sys, pc: W.PosterPc<Command>) {
    && !s.dev.halted && !s.w.stop && s.w.PosterAt(MAIN_THREAD) == pc
    && s.w.owner == (if W.HoldsLock(pc) then W.ByPoster(MAIN_THREAD) else W.Free)
    && s.w.pc == (if pc.Unlocking? || pc.Idle? then W.Woken else W.Waiting)
  }

  lemma MainGoesOn(cfg: Config, s: Sys, pc: W.PosterPc<Command>)
    requires PostingAt(s, pc) && !pc.Idle?
    ensures PostingAt(Step(cfg, s, MainPosts), W.NextPlace(pc, |s.w.accepted|))
    ensures Step(cfg, s, MainPosts).w == W.PosterNext(s.w, MAIN_THREAD)
  {
    W.PostGoesOn(s.w, MAIN_THREAD);
    StepIsNext(s.w);
    hide W.PosterNext, W.Step;
  }

  function MainPostsTimes(run: Run<SysAction>, n: nat): Run<SysAction> {
    if n == 0 then run else Then(MainPostsTimes(run, n - 1), MainPosts)
  }

  lemma MainStarts(cfg: Config, s: Sys)
    requires s.outbox != [] && !s.dev.halted
    requires !s.w.stop && s.w.owner == W.Free && s.w.pc == W.Waiting && s.w.PosterAt(MAIN_THREAD) == W.Idle
    ensures var t := Step(cfg, s, MainPosts);
            && t.w == W.Step(s.w, W.Call(MAIN_THREAD, s.outbox[0]))
            && PostingAt(t, W.FirstCheck(W.Job(s.w.issued, s.outbox[0]))) && t.w.accepted == s.w.accepted
  {
  }

  lemma Times(cfg: Config, run: Run<SysAction>, n: nat)
    ensures MainPostsTimes(run, 0) == run
    ensures Exec(cfg, MainPostsTimes(run, n + 1)) == Step(cfg, Exec(cfg, MainPostsTimes(run, n)), MainPosts)
  {
  }

  lemma MainFinishes(cfg: Config, run: Run<SysAction>, j: W.Job<Command>)
    requires PostingAt(Exec(cfg, run), W.FirstCheck(j))
    ensures var v := Exec(cfg, MainPostsTimes(run, 6));
            PostingAt(v, W.Idle) && v.w.accepted == Exec(cfg, run).w.accepted + [j]
  {
    hide Step, PostingAt, W.PosterNext, Exec, MainPostsTimes;
    Times(cfg, run, 0); Times(cfg, run, 1); Times(cfg, run, 2);
    Times(cfg, run, 3); Times(cfg, run, 4); Times(cfg, run, 5);
    var s1 := Exec(cfg, run);
    var s2, s3 := Exec(cfg, MainPostsTimes(run, 1)), Exec(cfg, MainPostsTimes(run, 2));
    var s4, s5 := Exec(cfg, MainPostsTimes(run, 3)), Exec(cfg, MainPostsTimes(run, 4));
    var s6 := Exec(cfg, MainPostsTimes(run, 5));
    MainGoesOn(cfg, s1, W.FirstCheck(j));
    MainGoesOn(cfg, s2, W.WantLock(j));
    MainGoesOn(cfg, s3, W.SecondCheck(j));
    MainGoesOn(cfg, s4, W.Enqueueing(j));
    MainGoesOn(cfg, s5, W.Notifying(j, |s4.w.accepted|));
    MainGoesOn(cfg, s6, W.Unlocking(j, |s4.w.accepted|));
    PostingAtIs(s1, W.FirstCheck(j));
    W.PostArrives(s1.w, MAIN_THREAD, j);
  }

  lemma PostingAtIs(s: Sys, pc: W.PosterPc<Command>)
    requires PostingAt(s, pc)
    ensures !s.w.stop && s.w.PosterAt(MAIN_THREAD) == pc
    ensures s.w.owner == (if W.HoldsLock(pc) then W.ByPoster(MAIN_THREAD) else W.Free)
    ensures s.w.pc == (if pc.Unlocking? || pc.Idle? then W.Woken else W.Waiting)
  {
  }

  lemma CallLeavesWorker(cfg: Config, s: Sys, a: SysAction)
    requires AtRest(s) && !s.dev.halted && (a.OtherDrive? || a.Called?)
    ensures var u := Step(cfg, s, a); u.w == s.w && !u.dev.halted
  {
  }

  /**
   Any command that another drive or a call makes the resting program post, a fresh start of the
   drive among them, frees everything left behind: once posted, the worker left alone executes all.
   */
  lemma NextCommandFrees(cfg: Config, run: Run<SysAction>, a: SysAction)
    requires AtRest(Exec(cfg, run)) && !Exec(cfg, run).dev.halted && (a.OtherDrive? || a.Called?)
    requires Exec(cfg, Then(run, a)).outbox != []
    ensures var u := Exec(cfg, Then(run, a));
            var v := Exec(cfg, MainPostsTimes(Then(Then(run, a), MainPosts), 6));
            && v.w.accepted == Exec(cfg, run).w.accepted + [W.Job(u.w.issued, u.outbox[0])]
            && W.Settle(v.w).executed == v.w.accepted && W.Settle(v.w).queue == []
  {
    var u := Exec(cfg, Then(run, a));
    var r1 := Then(Then(run, a), MainPosts);
    RestingWorker(cfg, run);
    CallLeavesWorker(cfg, Exec(cfg, run), a);
    ExecIs(cfg, run, a);
    ExecIs(cfg, Then(run, a), MainPosts);
    hide Exec, Step, W.Step, PostingAt, W.Settle, W.Inv, MainPostsTimes;
    MainStarts(cfg, u);
    MainFinishes(cfg, r1, W.Job(u.w.issued, u.outbox[0]));
    WokenServes(cfg, MainPostsTimes(r1, 6));
  }

  lemma WokenServes(cfg: Config, run: Run<SysAction>)
    requires PostingAt(Exec(cfg, run), W.Idle)
    ensures var w := Exec(cfg, run).w; W.Settle(w).executed == w.accepted && W.Settle(w).queue == []
  {
    hide Exec, W.Settle, W.Inv;
    PartsRun(cfg, run);
    W.LeftAloneServes(Exec(cfg, run).wRun);
  }

  lemma ExecIs(cfg: Config, run: Run<SysAction>, a: SysAction)
    ensures Exec(cfg, Then(run, a)) == Step(cfg, Exec(cfg, run), a)
  {
  }

  // ------------------------------------------------------------ the loss can happen

  /** The worker between two looks at its queue, nothing running and nothing else going on. */
  predicate Calm(s: Sys, pc: W.WorkerPc, place: W.PosterPc<Command>, queue: seq<W.Job<Command>>) {
    && !s.dev.halted && s.mainQ == [] && s.waits == 0 && s.outbox == []
    && !s.w.stop && s.w.running == None && s.w.pc == pc && s.w.PosterAt(MAIN_THREAD) == place && s.w.queue == queue
    && s.w.owner == (if W.HoldsLock(place) then W.ByPoster(MAIN_THREAD)
                     else if pc == W.Locked then W.ByWorker else W.Free)
  }

  function NextCalm(pc: W.WorkerPc): W.WorkerPc {
    match pc
    case Running => W.Drained
    case Drained => W.Restarted
    case Restarted => W.Locked
    case _ => W.Waiting
  }

  lemma CalmWorker(cfg: Config, s: Sys, pc: W.WorkerPc, queue: seq<W.Job<Command>>, answer: Answer)
    requires Calm(s, pc, W.Idle, queue) && (W.InWindow(pc) || pc == W.Locked)
    ensures Calm(Step(cfg, s, WorkerRuns(answer)), NextCalm(pc), W.Idle, queue)
  {
    hide Flight;
  }

  lemma CalmPoster(cfg: Config, s: Sys, place: W.PosterPc<Command>, queue: seq<W.Job<Command>>)
    requires Calm(s, W.Drained, place, queue) && !place.Idle?
    ensures Calm(Step(cfg, s, MainPosts), W.Drained, W.NextPlace(place, |s.w.accepted|),
                 if place.Enqueueing? then queue + [place.job] else queue)
  {
    hide Flight;
  }

  /** The first call of the drive and the worker's first, fruitless, run of its queue. */
  lemma CalmStart(cfg: Config, answer: Answer)
    requires cfg.open
    ensures var run := Then(Then(Then(Start, Called(Initialize)), WorkerRuns(answer)), MainPosts);
            Calm(Exec(cfg, run), W.Drained, W.FirstCheck(W.Job(0, ScanControllers)), [])
  {
    hide Flight, Exec;
    var r1 := Then(Start, Called(Initialize));
    InitIs(cfg);
    ExecIs(cfg, Start, Called(Initialize));
    ExecIs(cfg, r1, WorkerRuns(answer));
    ExecIs(cfg, Then(r1, WorkerRuns(answer)), MainPosts);
  }

  lemma InitIs(cfg: Config)
    ensures Exec(cfg, Start) == Init(cfg)
  {
  }

  lemma CalmPosts(cfg: Config, r: Run<SysAction>, j: W.Job<Command>)
    requires Calm(Exec(cfg, r), W.Drained, W.FirstCheck(j), [])
    ensures Calm(Exec(cfg, MainPostsTimes(r, 6)), W.Drained, W.Idle, [j])
  {
    hide Exec, MainPostsTimes, Step, Calm, W.HoldsLock;
    Times(cfg, r, 0); Times(cfg, r, 1); Times(cfg, r, 2); Times(cfg, r, 3); Times(cfg, r, 4); Times(cfg, r, 5);
    var n := |Exec(cfg, MainPostsTimes(r, 3)).w.accepted|;
    CalmPoster(cfg, Exec(cfg, r), W.FirstCheck(j), []);
    CalmPoster(cfg, Exec(cfg, MainPostsTimes(r, 1)), W.WantLock(j), []);
    CalmPoster(cfg, Exec(cfg, MainPostsTimes(r, 2)), W.SecondCheck(j), []);
    CalmPoster(cfg, Exec(cfg, MainPostsTimes(r, 3)), W.Enqueueing(j), []);
    assert [] + [j] == [j];
    CalmPoster(cfg, Exec(cfg, MainPostsTimes(r, 4)), W.Notifying(j, n), [j]);
    CalmPoster(cfg, Exec(cfg, MainPostsTimes(r, 5)), W.Unlocking(j, n), [j]);
  }

  /** A drive's very first scan can be left behind in the queue of a worker that waits for good. */
  lemma FirstScanCanStall(cfg: Config) returns (run: Run<SysAction>)
    requires cfg.open
    ensures var s := Exec(cfg, run);
            !s.dev.halted && AtRest(s) && Payloads(s.w.queue) == [ScanControllers]
  {
    var j: W.Job<Command> := W.Job(0, ScanControllers);
    var r := Then(Then(Then(Start, Called(Initialize)), WorkerRuns(ANY_ANSWER)), MainPosts);
    CalmStart(cfg, ANY_ANSWER);
    CalmPosts(cfg, r, j);
    var q := MainPostsTimes(r, 6);
    var q1, q2 := Then(q, WorkerRuns(ANY_ANSWER)), Then(Then(q, WorkerRuns(ANY_ANSWER)), WorkerRuns(ANY_ANSWER));
    run := Then(q2, WorkerRuns(ANY_ANSWER));
    hide Exec, MainPostsTimes, Step, Calm, AtRest;
    ExecIs(cfg, q, WorkerRuns(ANY_ANSWER));
    ExecIs(cfg, q1, WorkerRuns(ANY_ANSWER));
    ExecIs(cfg, q2, WorkerRuns(ANY_ANSWER));
    CalmWorker(cfg, Exec(cfg, q), W.Drained, [j], ANY_ANSWER);
    CalmWorker(cfg, Exec(cfg, q1), W.Restarted, [j], ANY_ANSWER);
    CalmWorker(cfg, Exec(cfg, q2), W.Locked, [j], ANY_ANSWER);
    CalmRests(Exec(cfg, run), [j]);
  }

  lemma CalmRests(s: Sys, queue: seq<W.Job<Command>>)
    requires Calm(s, W.Waiting, W.Idle, queue)
    ensures !s.dev.halted && AtRest(s) && s.w.queue == queue
  {
  }
}
