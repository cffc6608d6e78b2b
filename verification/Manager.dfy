/**
 The whole program seen from one drive: the shared worker, the main loop with its
 first-in first-out queue, the poll timer, and the drive state machine.  The commands
 of other drives pass through the same worker and main loop as foreign traffic.  A
 handler hands its commands to an outbox that the main thread then posts to the worker,
 one atomic step of the posting protocol at a time, before it handles anything else.
 */
module Manager {
  import opened Types
  import opened DriveTypes
  import opened Device
  import W = WorkerProtocol
  import NVMeMi

  /** What waits in the main loop; the index of a completion is its command's place among the executed ones. */
  datatype Item =
    | Done(index: nat, command: Command, reply: Reply)
    | Direct(command: Command, reply: Reply)   // posted without the worker, for want of an endpoint
    | Fired
    | Aborted

  datatype History = History(
    answers: seq<Answer>,        // the drive's answer to each executed command
    posted: seq<Item>,           // the worker's completions, in the order posted
    handled: seq<Item>,          // the worker's completions already handled
    ack: Option<nat>,            // where in handled the last sanitize success is
    scans: nat,                  // successful scan replies handled
    identifies: nat,             // identify replies handled
    window: bool,                // a sanitize was acknowledged, no other being unanswered, and has no verdict yet
    issuedInWindow: seq<Command>)

  datatype Sys = Sys(
    w: W.State<Command>, dev: Dev, outbox: seq<Command>, mainQ: seq<Item>, waits: nat,
    wRun: Run<W.Action<Command>>, devRun: Run<DevAction>, hist: History)

  /** The drive's path, what its constructor left uninitialised, and whether its endpoint could be opened. */
  datatype Config = Config(path: string, garbage: Garbage, open: bool)

  datatype SysAction =
    | WorkerRuns(answer: Answer)   // the worker's next step; the answer counts if it ends a command
    | SpuriousWakeup
    | MainPosts                    // the main thread's next step in posting its outbox
    | MainHandles                  // the main thread takes the next item of its queue
    | TimerExpires
    | Called(action: DevAction)    // the discovery code or D-Bus calls the drive
    | OtherDrive                   // a handler of another drive issues a command

  const MAIN_THREAD: nat := 0

  function Init(cfg: Config): Sys {
    Sys(W.Init(), NewDrive(cfg.path, cfg.garbage), [], [], 0, Start, Start,
        History([], [], [], None, 0, 0, false, []))
  }

  // ------------------------------------------------------------ what is in flight

  function Payloads(jobs: seq<W.Job<Command>>): seq<Command> {
    seq(|jobs|, i requires 0 <= i < |jobs| => jobs[i].payload)
  }

  /** The command whose posting has begun but which is not yet in the worker's queue. */
  function BeingPosted(w: W.State<Command>): seq<Command> {
    match w.PosterAt(MAIN_THREAD)
    case Idle => []
    case Notifying(_, _) => []
    case Unlocking(_, _) => []
    case pc => [pc.job.payload]
  }

  /** The commands issued and not yet executed, oldest first. */
  function Unserved(s: Sys): seq<Command> {
    Payloads(AsSeq(s.w.running)) + Payloads(s.w.queue) + BeingPosted(s.w) + s.outbox
  }

  function CommandOf(x: Item): seq<Command> {
    match x
    case Done(_, c, _) => [c]
    case Direct(c, _) => [c]
    case _ => []
  }

  function CommandsOf(q: seq<Item>): seq<Command> {
    if q == [] then [] else CommandOf(q[0]) + CommandsOf(q[1..])
  }

  /** The commands issued whose callbacks have not all run. */
  function Flight(s: Sys): multiset<Command> {
    multiset(CommandsOf(s.mainQ)) + multiset(Unserved(s))
  }

  function SanitizesIn(f: multiset<Command>): nat {
    f[Sanitize(Overwrite)] + f[Sanitize(BlockErase)] + f[Sanitize(CryptoErase)]
  }

  // ------------------------------------------------------------ steps

  function Repeat(x: Item, n: nat): seq<Item> {
    seq(n, _ => x)
  }

  function Directs(cs: seq<Command>): seq<Item> {
    seq(|cs|, i requires 0 <= i < |cs| => Direct(cs[i], Bad(NoSuchDevice)))
  }

  function Dones(index: nat, c: Command, rs: seq<Reply>): seq<Item> {
    seq(|rs|, i requires 0 <= i < |rs| => Done(index, c, rs[i]))
  }

  /** Lets the drive take a step and carries out what it asks for. */
  function Dispatch(cfg: Config, s: Sys, a: DevAction): Sys {
    Perform(cfg, s, a, DevStep(s.dev, a))
  }

  /** A re-armed timer cancels its waits; without an endpoint the commands fail at once. */
  function Queued(cfg: Config, q: seq<Item>, waits: nat, o: Outcome): seq<Item> {
    q + (if o.rearm then Repeat(Aborted, waits) else []) + (if cfg.open then [] else Directs(o.issue))
  }

  function Perform(cfg: Config, s: Sys, a: DevAction, o: Outcome): Sys {
    s.(dev := o.dev,
       devRun := Then(s.devRun, a),
       outbox := s.outbox + (if cfg.open then o.issue else []),
       mainQ := Queued(cfg, s.mainQ, s.waits, o),
       waits := if o.rearm then 1 else s.waits,
       hist := s.hist.(issuedInWindow := if s.hist.window then s.hist.issuedInWindow + o.issue else []))
  }

  predicate IsVerdict(c: Command, r: Reply) {
    c.GetLog? && c.lid == SanitizeLog && r.Good? && r.payload.SanitizeStatus? &&
    var res := Verdict(r.payload.log);
    res == COMPLETE_SUCCESS || res == ND_COMPLETE_SUCCESS || res == COMPLETED_FAILED
  }

  predicate IsAck(c: Command, r: Reply) {
    c.Sanitize? && r.Good?
  }

  predicate IsScanSuccess(c: Command, r: Reply) {
    c == ScanControllers && r.Good? && r.payload.Controllers? && r.payload.list != []
  }

  /** Records a reply about to be handled; `rest` is what stays in flight. */
  function Note(h: History, c: Command, r: Reply, rest: multiset<Command>): History {
    h.(scans := h.scans + (if IsScanSuccess(c, r) then 1 else 0),
       identifies := h.identifies + (if c == Identify then 1 else 0),
       window := if IsAck(c, r) then SanitizesIn(rest) == 0 else h.window && !IsVerdict(c, r))
  }

  /** The main thread may take a new item only when it has posted everything. */
  predicate MainIsFree(s: Sys) {
    s.w.PosterAt(MAIN_THREAD) == W.Idle && s.outbox == []
  }

  /** What an item of the main loop makes the drive do. */
  function ActionOf(x: Item): Option<DevAction> {
    match x
    case Done(_, c, r) => Some(Replied(c, r))
    case Direct(c, r) => Some(Replied(c, r))
    case Fired => Some(TimerFired)
    case Aborted => None
  }

  /** The state with the head of the main loop's queue taken off and recorded. */
  function TakeHead(s: Sys): Sys
    requires s.mainQ != []
  {
    var t := s.(mainQ := s.mainQ[1..]);
    match s.mainQ[0]
    case Done(i, c, r) =>
      var h := Note(s.hist, c, r, Flight(t));
      t.(hist := h.(handled := h.handled + [s.mainQ[0]], ack := if IsAck(c, r) then Some(|h.handled|) else h.ack))
    case Direct(c, r) => t.(hist := Note(s.hist, c, r, Flight(t)))
    case _ => t
  }

  function Handle(cfg: Config, s: Sys): Sys
    requires s.mainQ != []
  {
    match ActionOf(s.mainQ[0])
    case Some(a) => Dispatch(cfg, TakeHead(s), a)
    case None => TakeHead(s)
  }

  function WorkerTakes(s: Sys, a: W.Action<Command>): Sys {
    s.(w := W.Step(s.w, a), wRun := Then(s.wRun, a))
  }

  /** The worker's step; at the end of a command its completions go to the main loop. */
  function WorkerStep(s: Sys, answer: Answer): Sys {
    var t := WorkerTakes(s, W.WorkerStep);
    if s.w.running.Some? && t.w.running == None then
      var c := s.w.running.value.payload;
      Complete(t, answer, Dones(|s.w.executed|, c, NVMeMi.Completions(c, answer)))
    else t
  }

  function Complete(s: Sys, answer: Answer, items: seq<Item>): Sys {
    s.(mainQ := s.mainQ + items,
       hist := s.hist.(answers := s.hist.answers + [answer], posted := s.hist.posted + items))
  }

  function PostStep(s: Sys): Sys {
    if s.w.PosterAt(MAIN_THREAD) != W.Idle then WorkerTakes(s, W.PosterStep(MAIN_THREAD))
    else if s.outbox == [] then s
    else WorkerTakes(s, W.Call(MAIN_THREAD, s.outbox[0])).(outbox := s.outbox[1..])
  }

  /** The calls that come from outside the drive's own handlers. */
  predicate IsCall(a: DevAction) {
    a.Initialize? || a.Erase? || a.Inject? || a.Associate?
  }

  function Step(cfg: Config, s: Sys, a: SysAction): Sys {
    if s.dev.halted then s else
    match a
    case WorkerRuns(answer) => WorkerStep(s, answer)
    case SpuriousWakeup => WorkerTakes(s, W.Spurious)
    case MainPosts => PostStep(s)
    case MainHandles => if MainIsFree(s) && s.mainQ != [] then Handle(cfg, s) else s
    case TimerExpires => if s.waits > 0 then s.(waits := s.waits - 1, mainQ := s.mainQ + [Fired]) else s
    case Called(d) => if MainIsFree(s) && IsCall(d) then Dispatch(cfg, s, d) else s
    case OtherDrive => if MainIsFree(s) then s.(outbox := [Foreign]) else s
  }

  function Exec(cfg: Config, run: Run<SysAction>): Sys {
    match run
    case Start => Init(cfg)
    case Then(before, a) => Step(cfg, Exec(cfg, before), a)
  }
}
