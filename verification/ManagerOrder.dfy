/**
 Callbacks: exactly which ones each executed command posts, in what order, and what that means for sanitize
 verdicts.
 */
module ManagerOrder {
  import opened Types
  import opened DriveTypes
  import opened Device
  import opened Manager
  import opened ManagerFlow
  import MP = ManagerProperties
  import DP = DeviceProperties
  import W = WorkerProtocol
  import NVMeMi

  // ------------------------------------------------------------ the worker's completions

  /** The completions of a sequence of executed commands, oldest first. */
  function FlatDones(jobs: seq<W.Job<Command>>, answers: seq<Answer>): seq<Item>
    requires |jobs| == |answers|
  {
    if jobs == [] then []
    else
      var n := |jobs| - 1;
      FlatDones(jobs[..n], answers[..n]) + Dones(n, jobs[n].payload, NVMeMi.Completions(jobs[n].payload, answers[n]))
  }

  function DonesOf(q: seq<Item>): seq<Item> {
    if q == [] then [] else (if q[0].Done? then [q[0]] else []) + DonesOf(q[1..])
  }

  lemma {:induction false} DonesOfAppend(p: seq<Item>, q: seq<Item>)
    ensures DonesOf(p + q) == DonesOf(p) + DonesOf(q)
  {
    if p == [] {
      assert p + q == q;
    } else {
      assert (p + q)[1..] == p[1..] + q;
      DonesOfAppend(p[1..], q);
    }
  }

  lemma {:induction false} AllDone(q: seq<Item>)
    requires forall i :: 0 <= i < |q| ==> q[i].Done?
    ensures DonesOf(q) == q
  {
    if q != [] { AllDone(q[1..]); }
  }

  lemma {:induction false} NoneDone(q: seq<Item>)
    requires forall i :: 0 <= i < |q| ==> !q[i].Done?
    ensures DonesOf(q) == []
  {
    if q != [] { NoneDone(q[1..]); }
  }

  lemma QueuedDones(cfg: Config, q: seq<Item>, waits: nat, o: Outcome)
    ensures DonesOf(Queued(cfg, q, waits, o)) == DonesOf(q)
  {
    var aborted := if o.rearm then Repeat(Aborted, waits) else [];
    var direct := if cfg.open then [] else Directs(o.issue);
    NoneDone(aborted);
    NoneDone(direct);
    DonesOfAppend(q, aborted);
    DonesOfAppend(q + aborted, direct);
  }

  /** The completions posted are those of the executed commands, and each is handled once and in order. */
  ghost predicate OrderInv(s: Sys) {
    && |s.hist.answers| == |s.w.executed|
    && s.hist.posted == FlatDones(s.w.executed, s.hist.answers)
    && s.hist.posted == s.hist.handled + DonesOf(s.mainQ)
  }

  lemma FlatDonesGrow(jobs: seq<W.Job<Command>>, answers: seq<Answer>, j: W.Job<Command>, a: Answer)
    requires |jobs| == |answers|
    ensures FlatDones(jobs + [j], answers + [a]) ==
            FlatDones(jobs, answers) + Dones(|jobs|, j.payload, NVMeMi.Completions(j.payload, a))
  {
    assert (jobs + [j])[..|jobs|] == jobs && (answers + [a])[..|jobs|] == answers;
  }

  lemma HeadHandled(s: Sys)
    requires s.mainQ != []
    ensures TakeHead(s).hist.handled + DonesOf(TakeHead(s).mainQ) == s.hist.handled + DonesOf(s.mainQ)
    ensures TakeHead(s).hist.posted == s.hist.posted && TakeHead(s).hist.answers == s.hist.answers
    ensures TakeHead(s).mainQ == s.mainQ[1..]
  {
  }

  lemma DriveKeepsOrder(cfg: Config, s: Sys, a: SysAction)
    requires OrderInv(s) && DrivePart(s, a).Some?
    ensures OrderInv(Step(cfg, s, a))
  {
    hide Step, DevStep, Queued, TakeHead;
    DriveStepIs(cfg, s, a);
    var u := Before(s, a);
    var o := DevStep(s.dev, DrivePart(s, a).value);
    if a == MainHandles { HeadHandled(s); }
    QueuedDones(cfg, u.mainQ, u.waits, o);
  }

  lemma DonesAreDone(index: nat, c: Command, rs: seq<Reply>)
    ensures DonesOf(Dones(index, c, rs)) == Dones(index, c, rs)
  {
    AllDone(Dones(index, c, rs));
  }

  lemma OrderGrows(posted: seq<Item>, handled: seq<Item>, q: seq<Item>, jobs: seq<W.Job<Command>>, answers: seq<Answer>,
                   j: W.Job<Command>, a: Answer)
    requires |jobs| == |answers| && posted == FlatDones(jobs, answers) && posted == handled + DonesOf(q)
    ensures var items := Dones(|jobs|, j.payload, NVMeMi.Completions(j.payload, a));
            && posted + items == FlatDones(jobs + [j], answers + [a])
            && posted + items == handled + DonesOf(q + items)
  {
    hide NVMeMi.Completions, Dones, FlatDones, DonesOf;
    var items := Dones(|jobs|, j.payload, NVMeMi.Completions(j.payload, a));
    FlatDonesGrow(jobs, answers, j, a);
    DonesAreDone(|jobs|, j.payload, NVMeMi.Completions(j.payload, a));
    DonesOfAppend(q, items);
  }

  lemma EndExecutes(cfg: Config, s: Sys, a: SysAction)
    requires W.QueueInv(s.w) && EndsCommand(s, a)
    ensures Step(cfg, s, a).w.executed == s.w.executed + [s.w.running.value]
  {
    MP.EndIs(cfg, s, a);
    WorkerCarries(s.w);
  }

  lemma EndKeepsOrder(cfg: Config, s: Sys, a: SysAction)
    requires OrderInv(s) && W.QueueInv(s.w) && EndsCommand(s, a)
    ensures OrderInv(Step(cfg, s, a))
  {
    hide Step, W.WorkerNext, NVMeMi.Completions, W.QueueInv, FlatDones, DonesOf, Dones;
    var j := s.w.running.value;
    MP.EndIs(cfg, s, a);
    EndExecutes(cfg, s, a);
    OrderGrows(s.hist.posted, s.hist.handled, s.mainQ, s.w.executed, s.hist.answers, j, a.answer);
  }

  lemma WorkerPartCarries(s: Sys, a: SysAction)
    requires W.Inv(s.w) && !s.w.stop && !EndsCommand(s, a) && WorkerPart(s, a).Some?
    ensures W.Step(s.w, WorkerPart(s, a).value).executed == s.w.executed
  {
    match a
    case WorkerRuns(_) => WorkerCarries(s.w);
    case SpuriousWakeup => SpuriousCarries(s.w);
    case MainPosts =>
      if s.w.PosterAt(MAIN_THREAD) != W.Idle { PosterCarries(s.w); } else { CallCarries(s.w, s.outbox[0]); }
  }

  lemma QuietQueue(cfg: Config, s: Sys, a: SysAction)
    requires MP.Quiet(s, a)
    ensures var q := Step(cfg, s, a).mainQ;
            q == s.mainQ || q == s.mainQ + [Fired] || (s.mainQ != [] && s.mainQ[0] == Aborted && q == s.mainQ[1..])
  {
  }

  lemma QuietIsNoDrive(s: Sys, a: SysAction)
    requires MP.Quiet(s, a)
    ensures !EndsCommand(s, a) && DrivePart(s, a) == None
  {
  }

  lemma QuietKeepsOrder(cfg: Config, s: Sys, a: SysAction)
    requires OrderInv(s) && W.Inv(s.w) && !s.w.stop && MP.Quiet(s, a)
    ensures OrderInv(Step(cfg, s, a))
  {
    hide Step, W.Step, W.Inv, Flight, WorkerPart, EndsCommand, MP.FiredIn, DrivePart, FlatDones;
    QuietIsNoDrive(s, a);
    WorkerPartIs(cfg, s, a);
    MP.QuietSummary(cfg, s, a);
    QuietQueue(cfg, s, a);
    if WorkerPart(s, a).Some? { WorkerPartCarries(s, a); }
    DonesOfAppend(s.mainQ, [Fired]);
  }

  lemma {:induction false} CallbacksInOrder(cfg: Config, run: Run<SysAction>)
    ensures OrderInv(Exec(cfg, run))
  {
    match run
    case Start =>
    case Then(before, a) =>
      hide Step, W.Inv, OrderInv;
      CallbacksInOrder(cfg, before);
      PartsRun(cfg, before);
      var s := Exec(cfg, before);
      if DrivePart(s, a).Some? {
        DriveKeepsOrder(cfg, s, a);
      } else if EndsCommand(s, a) {
        InvGivesQueue(s.w);
        EndKeepsOrder(cfg, s, a);
      } else {
        QuietKeepsOrder(cfg, s, a);
      }
  }

  // ------------------------------------------------------------ exactly once

  /** The callbacks of one executed command. */
  function CallbacksOf(q: seq<Item>, index: nat): seq<Item> {
    if q == [] then []
    else (if q[0].Done? && q[0].index == index then [q[0]] else []) + CallbacksOf(q[1..], index)
  }

  lemma {:induction false} CallbacksOfAppend(p: seq<Item>, q: seq<Item>, index: nat)
    ensures CallbacksOf(p + q, index) == CallbacksOf(p, index) + CallbacksOf(q, index)
  {
    if p == [] {
      assert p + q == q;
    } else {
      assert (p + q)[1..] == p[1..] + q;
      CallbacksOfAppend(p[1..], q, index);
    }
  }

  lemma {:induction false} CallbacksOfDones(i: nat, c: Command, rs: seq<Reply>, index: nat)
    ensures CallbacksOf(Dones(i, c, rs), index) == if i == index then Dones(i, c, rs) else []
  {
    if rs != [] {
      assert Dones(i, c, rs)[1..] == Dones(i, c, rs[1..]);
      CallbacksOfDones(i, c, rs[1..], index);
      assert Dones(i, c, rs) == [Dones(i, c, rs)[0]] + Dones(i, c, rs[1..]);
    }
  }

  lemma {:induction false} CallbacksOfFlat(jobs: seq<W.Job<Command>>, answers: seq<Answer>, index: nat)
    requires |jobs| == |answers|
    ensures CallbacksOf(FlatDones(jobs, answers), index) ==
            if index < |jobs|
            then Dones(index, jobs[index].payload, NVMeMi.Completions(jobs[index].payload, answers[index]))
            else []
  {
    if jobs != [] {
      var n := |jobs| - 1;
      var rs := NVMeMi.Completions(jobs[n].payload, answers[n]);
      CallbacksOfFlat(jobs[..n], answers[..n], index);
      CallbacksOfAppend(FlatDones(jobs[..n], answers[..n]), Dones(n, jobs[n].payload, rs), index);
      CallbacksOfDones(n, jobs[n].payload, rs, index);
    }
  }

  /**
   Along every run each executed command has posted exactly its completions, one callback, or an
   error and then a success for a log request with a positive code; an unexecuted one none; and
   the callbacks handled are the first ones posted.
   */
  lemma CallbacksExactly(cfg: Config, run: Run<SysAction>, index: nat)
    ensures var s := Exec(cfg, run);
            && |s.hist.answers| == |s.w.executed|
            && s.hist.handled <= s.hist.posted
            && (index >= |s.w.executed| ==> CallbacksOf(s.hist.posted, index) == [])
            && (index < |s.w.executed| ==>
                 var c := s.w.executed[index].payload;
                 && CallbacksOf(s.hist.posted, index) == Dones(index, c, NVMeMi.Completions(c, s.hist.answers[index]))
                 && |CallbacksOf(s.hist.posted, index)| ==
                    if NVMeMi.CompletesTwice(c, s.hist.answers[index]) then 2 else 1)
  {
    CallbacksInOrder(cfg, run);
    var s := Exec(cfg, run);
    hide Exec;
    CallbacksOfFlat(s.w.executed, s.hist.answers, index);
    if index < |s.w.executed| {
      NVMeMi.OnceExactly(s.w.executed[index].payload, s.hist.answers[index]);
    }
  }

  /** The item is a callback of the command with its index, with one of that command's replies. */
  predicate CallbackOf(x: Item, jobs: seq<W.Job<Command>>, answers: seq<Answer>)
    requires |jobs| == |answers|
  {
    x.Done? && x.index < |jobs| && x.command == jobs[x.index].payload
    && x.reply in NVMeMi.Completions(x.command, answers[x.index])
  }

  ghost predicate Sorted(q: seq<Item>, jobs: seq<W.Job<Command>>, answers: seq<Answer>)
    requires |jobs| == |answers|
  {
    && (forall i :: 0 <= i < |q| ==> CallbackOf(q[i], jobs, answers))
    && (forall i, j :: 0 <= i <= j < |q| ==> q[i].Done? && q[j].Done? && q[i].index <= q[j].index)
  }

  lemma DonesAreCallbacks(n: nat, jobs: seq<W.Job<Command>>, answers: seq<Answer>)
    requires |jobs| == |answers| && n < |jobs|
    ensures var d := Dones(n, jobs[n].payload, NVMeMi.Completions(jobs[n].payload, answers[n]));
            forall i :: 0 <= i < |d| ==> CallbackOf(d[i], jobs, answers) && d[i].index == n
  {
    hide NVMeMi.Completions;
  }

  lemma {:induction false} FlatSorted(jobs: seq<W.Job<Command>>, answers: seq<Answer>)
    requires |jobs| == |answers|
    ensures Sorted(FlatDones(jobs, answers), jobs, answers)
  {
    hide NVMeMi.Completions;
    if jobs != [] {
      var n := |jobs| - 1;
      var p := FlatDones(jobs[..n], answers[..n]);
      FlatSorted(jobs[..n], answers[..n]);
      DonesAreCallbacks(n, jobs, answers);
      forall i | 0 <= i < |p| ensures CallbackOf(p[i], jobs, answers) && p[i].index < n {
        assert CallbackOf(p[i], jobs[..n], answers[..n]);
      }
    }
  }

  /** Callbacks come in the order in which the worker executed their commands. */
  lemma CallbacksSorted(cfg: Config, run: Run<SysAction>, i: nat, j: nat)
    requires i <= j < |Exec(cfg, run).hist.posted|
    ensures var s := Exec(cfg, run);
            var p := s.hist.posted;
            && |s.hist.answers| == |s.w.executed|
            && CallbackOf(p[i], s.w.executed, s.hist.answers) && CallbackOf(p[j], s.w.executed, s.hist.answers)
            && p[i].index <= p[j].index
  {
    CallbacksInOrder(cfg, run);
    hide Exec, NVMeMi.Completions, CallbackOf;
    FlatSorted(Exec(cfg, run).w.executed, Exec(cfg, run).hist.answers);
  }

  /** And so in the order in which the main thread requested them: no callback overtakes that of an earlier request. */
  lemma CallbacksInRequestOrder(cfg: Config, run: Run<SysAction>, i: nat, j: nat)
    requires i < j < |Exec(cfg, run).hist.posted|
    ensures var s := Exec(cfg, run);
            var p := s.hist.posted;
            && p[i].Done? && p[j].Done? && p[i].index < |s.w.executed| && p[j].index < |s.w.executed|
            && s.w.executed[p[i].index].ticket <= s.w.executed[p[j].index].ticket
  {
    CallbacksSorted(cfg, run, i, j);
    ExecutedInRequestOrder(cfg, run);
    hide Exec, NVMeMi.Completions;
  }

  // ------------------------------------------------------------ no stale verdict

  /** The recorded acknowledgement is a handled success of the sanitize that the drive believes in progress. */
  ghost predicate AckInv(h: History, d: Dev) {
    && (d.sani.inProgress ==> h.ack.Some?)
    && (h.ack.Some? ==>
         && h.ack.value < |h.handled| && h.handled[h.ack.value].Done?
         && h.handled[h.ack.value].command.Sanitize? && h.handled[h.ack.value].reply.Good?
         && (d.sani.inProgress ==> h.handled[h.ack.value].command == Sanitize(d.sani.eraseType)))
  }

  /** A drive starts to be in progress, or changes its erase method, only by an acknowledgement. */
  lemma AckMove(d: Dev, b: DevAction)
    requires b.Replied? ==> Fits(b.command, b.reply)
    requires !d.halted
    ensures var o := DevStep(d, b);
            if b.Replied? && IsAck(b.command, b.reply) then o.dev.sani.eraseType == b.command.eraseMethod
            else o.dev.sani.inProgress ==> d.sani.inProgress && o.dev.sani.eraseType == d.sani.eraseType
  {
    match b
    case Replied(c, r) =>
    case _ =>
  }

  lemma AckHistory(cfg: Config, s: Sys, a: SysAction)
    requires DrivePart(s, a).Some? && MP.QueueFits(s.mainQ)
    ensures var t := Step(cfg, s, a);
            var b := DrivePart(s, a).value;
            if b.Replied? && IsAck(b.command, b.reply) then
              && t.hist.ack == Some(|s.hist.handled|) && |t.hist.handled| == |s.hist.handled| + 1
              && t.hist.handled[|s.hist.handled|].Done?
              && t.hist.handled[|s.hist.handled|].command == b.command
                  && t.hist.handled[|s.hist.handled|].reply == b.reply
            else t.hist.ack == s.hist.ack && s.hist.handled <= t.hist.handled
  {
    hide Step, DevStep, Queued, Flight;
    DriveStepIs(cfg, s, a);
  }

  lemma StepKeepsAck(cfg: Config, s: Sys, a: SysAction)
    requires AckInv(s.hist, s.dev) && MP.QueueFits(s.mainQ) && W.Inv(s.w) && !s.w.stop
    ensures AckInv(Step(cfg, s, a).hist, Step(cfg, s, a).dev)
  {
    hide Step, DevStep, W.Inv, Flight, MP.FiredIn;
    if DrivePart(s, a).Some? {
      MP.HandledIs(s, a);
      DrivePartIs(cfg, s, a);
      AckMove(s.dev, DrivePart(s, a).value);
      AckHistory(cfg, s, a);
    } else if EndsCommand(s, a) {
      MP.EndIs(cfg, s, a);
    } else {
      MP.QuietSummary(cfg, s, a);
    }
  }

  lemma {:induction false} AckRecorded(cfg: Config, run: Run<SysAction>)
    ensures AckInv(Exec(cfg, run).hist, Exec(cfg, run).dev)
  {
    match run
    case Start =>
    case Then(before, a) =>
      hide Step, W.Inv;
      AckRecorded(cfg, before);
      PartsRun(cfg, before);
      MP.RunFits(cfg, before);
      StepKeepsAck(cfg, Exec(cfg, before), a);
  }

  /**
   No stale verdict: when the reply at the head of the main loop is a sanitize log and the drive is
   in progress, the worker read that log after it had executed the very sanitize command whose
   callback last set the drive in progress, and the reply is what the drive answered then.  That
   command succeeded, or failed without an error number.
   */
  lemma NoStaleVerdict(cfg: Config, run: Run<SysAction>)
    requires var s := Exec(cfg, run);
             s.mainQ != [] && s.mainQ[0].Done? && DP.IsSanitizeLog(s.mainQ[0].command) && s.dev.sani.inProgress
    ensures var s := Exec(cfg, run);
            var k := s.mainQ[0].index;
            && s.hist.ack.Some? && s.hist.ack.value < |s.hist.handled|
            && |s.hist.answers| == |s.w.executed|
            && s.hist.handled[s.hist.ack.value].Done?
            && var i := s.hist.handled[s.hist.ack.value].index;
            && i < k < |s.w.executed|
            && s.w.executed[i].payload == Sanitize(s.dev.sani.eraseType)
            && (s.hist.answers[i].rc == 0 || NVMeMi.Silent(s.hist.answers[i].rc, s.hist.answers[i].errno))
            && s.w.executed[k].payload == s.mainQ[0].command
            && s.mainQ[0].reply in NVMeMi.Completions(s.mainQ[0].command, s.hist.answers[k])
            && (IsVerdict(s.mainQ[0].command, s.mainQ[0].reply) ==>
                 s.hist.answers[k].rc == 0 && s.mainQ[0].reply == Good(SanitizeStatus(s.hist.answers[k].log)))
  {
    AckRecorded(cfg, run);
    CallbacksInOrder(cfg, run);
    var s := Exec(cfg, run);
    hide Exec, NVMeMi.Completions;
    var p := s.hist.ack.value;
    assert DonesOf(s.mainQ)[0] == s.mainQ[0];
    assert s.hist.posted[|s.hist.handled|] == s.mainQ[0];
    assert s.hist.posted[p] == s.hist.handled[p];
    CallbacksSorted(cfg, run, p, |s.hist.handled|);
    AcknowledgedExactly(s.hist.answers[s.hist.posted[p].index], s.dev.sani.eraseType, s.hist.posted[p].reply);
    if IsVerdict(s.mainQ[0].command, s.mainQ[0].reply) {
      VerdictIsRead(s.mainQ[0].command, s.mainQ[0].reply, s.hist.answers[s.mainQ[0].index]);
    }
  }

  lemma ZeroPageIsNoVerdict()
    ensures !IsVerdict(READ_SANITIZE, Good(SanitizeStatus(ZERO_SANITIZE_PAGE)))
  {
  }

  /** A verdict is never taken from the page that stands in for a failed read. */
  lemma VerdictIsRead(c: Command, r: Reply, a: Answer)
    requires r in NVMeMi.Completions(c, a) && IsVerdict(c, r)
    ensures a.rc == 0 && r == Good(SanitizeStatus(a.log))
  {
    ZeroPageIsNoVerdict();
  }

  /** A sanitize is taken as acknowledged exactly if it succeeded, or failed without an error number. */
  lemma AcknowledgedExactly(a: Answer, m: EraseMethod, r: Reply)
    requires r in NVMeMi.Completions(Sanitize(m), a)
    ensures IsAck(Sanitize(m), r) <==> a.rc == 0 || NVMeMi.Silent(a.rc, a.errno)
  {
  }
}
