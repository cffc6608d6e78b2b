/**
 The worker thread shared by all NVMe-MI endpoints, as interleaved atomic steps
 of three kinds of thread: the worker loop, any number of callers of `post`, and
 the thread that runs the worker's destructor.  Every lock operation, every read
 or write of the stop flag, every queue operation and every notification is a
 step of its own.  A thread picked while it is blocked does nothing, so every
 sequence of actions is a schedule.
 */
module WorkerProtocol {
  import opened Types

  /** Where the worker loop stands. */
  datatype WorkerPc =
    | Running    // in the loop's run of the task queue
    | Drained    // that run has returned
    | Restarted  // the queue is runnable again, the lock is to be taken
    | Locked     // lock held, about to wait
    | Waiting    // blocked on the condition variable, lock released
    | Woken      // woken, has to take the lock again
    | Relocked   // the wait has returned, lock held, stop flag to be read
    | FinalRun   // stop flag seen, running the queue under the lock
    | Exited

  /** A queued function object; the ticket is the number of the call that made it. */
  datatype Job<+T> = Job(ticket: nat, payload: T)

  /** Where a caller of `post` stands. */
  datatype PosterPc<+T> =
    | Idle
    | FirstCheck(job: Job<T>)
    | WantLock(job: Job<T>)
    | SecondCheck(job: Job<T>)
    | Enqueueing(job: Job<T>)
    | Notifying(job: Job<T>, index: nat)
    | Unlocking(job: Job<T>, index: nat)

  /** Where the destructor stands. */
  datatype DtorPc = NotStarted | StopSet | DtorLocked | Notified | Joining | Joined

  datatype Owner = Free | ByWorker | ByPoster(poster: nat) | ByDtor

  /** What became of a call of `post`; the index is the job's place among the accepted ones. */
  datatype Fate = Pending(poster: nat) | Accepted(index: nat, poster: nat) | Returned(index: nat) | Rejected

  /** When a job was accepted: the number of wake-ups so far and where the worker stood. */
  datatype Stamp = Stamp(round: nat, pc: WorkerPc)

  datatype State<+T> = State(
    stop: bool,
    owner: Owner,
    pc: WorkerPc,
    running: Option<Job<T>>,
    queue: seq<Job<T>>,
    posters: map<nat, PosterPc<T>>,
    dtor: DtorPc,
    // history
    issued: nat,
    fates: map<nat, Fate>,
    accepted: seq<Job<T>>,
    stamps: seq<Stamp>,
    executed: seq<Job<T>>,
    round: nat,
    dtorSaw: Option<WorkerPc>,
    wokenAfterDtor: bool)
  {
    function PosterAt(p: nat): PosterPc<T> {
      if p in posters then posters[p] else Idle
    }
  }

  datatype Action<+T> =
    | WorkerStep
    | Spurious
    | Call(poster: nat, payload: T)
    | PosterStep(poster: nat)
    | DtorStep

  function Init<T>(): State<T> {
    State(false, Free, Running, None, [], map[], NotStarted, 0, map[], [], [], [], 0, None, false)
  }

  predicate HoldsLock<T>(pc: PosterPc<T>) {
    pc.SecondCheck? || pc.Enqueueing? || pc.Notifying? || pc.Unlocking?
  }

  /** `notify_all`: only a worker that is already waiting is woken. */
  function Wake<T>(s: State<T>): State<T> {
    if s.pc == Waiting then s.(pc := Woken, round := s.round + 1) else s
  }

  predicate WorkerEnabled<T>(s: State<T>) {
    match s.pc
    case Restarted => s.owner == Free
    case Woken => s.owner == Free
    case Waiting => false
    case Exited => false
    case _ => true
  }

  /** One step of a run of the task queue; `None` when the run returns. */
  function RunQueue<T>(s: State<T>): Option<State<T>> {
    if s.running.Some? then
      Some(s.(running := None, executed := s.executed + [s.running.value]))
    else if s.queue != [] then
      Some(s.(running := Some(s.queue[0]), queue := s.queue[1..]))
    else
      None
  }

  function WorkerNext<T>(s: State<T>): State<T> {
    if !WorkerEnabled(s) then s else
    match s.pc
    case Running => (match RunQueue(s) case Some(t) => t case None => s.(pc := Drained))
    case Drained => s.(pc := Restarted)
    case Restarted => s.(pc := Locked, owner := ByWorker)
    case Locked => s.(pc := Waiting, owner := Free)
    case Woken => s.(pc := Relocked, owner := ByWorker)
    case Relocked => if s.stop then s.(pc := FinalRun) else s.(pc := Running, owner := Free)
    case FinalRun => (match RunQueue(s) case Some(t) => t case None => s.(pc := Exited, owner := Free))
    case _ => s
  }

  function PosterNext<T>(s: State<T>, p: nat): State<T> {
    match s.PosterAt(p)
    case Idle => s
    case FirstCheck(j) =>
      if s.stop then s.(posters := s.posters[p := Idle], fates := s.fates[j.ticket := Rejected])
      else s.(posters := s.posters[p := WantLock(j)])
    case WantLock(j) =>
      if s.owner != Free then s
      else s.(posters := s.posters[p := SecondCheck(j)], owner := ByPoster(p))
    case SecondCheck(j) =>
      if s.stop then
        s.(posters := s.posters[p := Idle], owner := Free, fates := s.fates[j.ticket := Rejected])
      else s.(posters := s.posters[p := Enqueueing(j)])
    case Enqueueing(j) =>
      s.(posters := s.posters[p := Notifying(j, |s.accepted|)],
         queue := s.queue + [j],
         accepted := s.accepted + [j],
         stamps := s.stamps + [Stamp(s.round, s.pc)],
         fates := s.fates[j.ticket := Accepted(|s.accepted|, p)])
    case Notifying(j, i) => Wake(s.(posters := s.posters[p := Unlocking(j, i)]))
    case Unlocking(j, i) =>
      s.(posters := s.posters[p := Idle], owner := Free, fates := s.fates[j.ticket := Returned(i)])
  }

  function DtorNext<T>(s: State<T>): State<T> {
    match s.dtor
    case NotStarted => s.(dtor := StopSet, stop := true)
    case StopSet => if s.owner != Free then s else s.(dtor := DtorLocked, owner := ByDtor)
    case DtorLocked => Wake(s.(dtor := Notified, dtorSaw := Some(s.pc)))
    case Notified => s.(dtor := Joining, owner := Free)
    case Joining => if s.pc == Exited then s.(dtor := Joined) else s
    case Joined => s
  }

  function Step<T>(s: State<T>, a: Action<T>): State<T> {
    match a
    case WorkerStep => WorkerNext(s)
    case Spurious => Wake(s).(wokenAfterDtor := s.wokenAfterDtor || (s.pc == Waiting && s.dtorSaw.Some?))
    case Call(p, payload) =>
      if s.PosterAt(p) != Idle then s
      else s.(posters := s.posters[p := FirstCheck(Job(s.issued, payload))],
              fates := s.fates[s.issued := Pending(p)],
              issued := s.issued + 1)
    case PosterStep(p) => PosterNext(s, p)
    case DtorStep => DtorNext(s)
  }

  /** The state after a schedule. */
  function Exec<T>(run: Run<Action<T>>): State<T> {
    match run
    case Start => Init()
    case Then(before, a) => Step(Exec(before), a)
  }

  lemma ExecIs<T>(run: Run<Action<T>>, a: Action<T>)
    ensures Exec<T>(Start) == Init<T>()
    ensures Exec(Then(run, a)) == Step(Exec(run), a)
  {
  }

  // ------------------------------------------------------------ invariants

  ghost predicate LockInv<T>(s: State<T>) {
    && (s.owner == ByWorker <==> s.pc == Locked || s.pc == Relocked || s.pc == FinalRun)
    && (s.owner == ByDtor <==> s.dtor == DtorLocked || s.dtor == Notified)
    && (s.owner.ByPoster? ==> HoldsLock(s.PosterAt(s.owner.poster)))
    && (forall p :: p in s.posters && HoldsLock(s.posters[p]) ==> s.owner == ByPoster(p))
  }

  ghost predicate StopInv<T>(s: State<T>) {
    && (s.stop <==> s.dtor != NotStarted)
    && (s.pc == FinalRun || s.pc == Exited ==> s.stop)
    && (s.dtor == Joined ==> s.pc == Exited)
    && (s.pc == Exited ==> forall p :: p in s.posters ==> !s.posters[p].Enqueueing?)
  }

  ghost predicate QueueInv<T>(s: State<T>) {
    && s.accepted == s.executed + AsSeq(s.running) + s.queue
    && (s.running.Some? ==> s.pc == Running || s.pc == FinalRun)
    && (s.pc == Exited ==> s.queue == [])
  }

  /** Every call has one fate, and the accepted calls are exactly the accepted jobs. */
  ghost predicate TicketInv<T>(s: State<T>) {
    Tickets(s.posters, s.fates, s.issued, s.accepted)
  }

  ghost predicate Tickets<T>(posters: map<nat, PosterPc<T>>, fates: map<nat, Fate>, issued: nat,
                             accepted: seq<Job<T>>) {
    && (forall t: nat :: t in fates <==> t < issued)
    && (forall i :: 0 <= i < |accepted| ==>
         accepted[i].ticket in fates && AcceptedAs(fates[accepted[i].ticket], i))
    && (forall t :: t in fates ==> FateInv(fates[t], t, posters, accepted))
    && (forall p :: p in posters ==> PosterTicketInv(posters[p], p, fates))
  }

  predicate AcceptedAs(f: Fate, i: nat) {
    (f.Accepted? || f.Returned?) && f.index == i
  }

  ghost predicate FateInv<T>(f: Fate, t: nat, posters: map<nat, PosterPc<T>>, accepted: seq<Job<T>>) {
    match f
    case Pending(p) => p in posters && !posters[p].Idle? && posters[p].job.ticket == t
    case Rejected => true
    case _ => f.index < |accepted| && accepted[f.index].ticket == t
  }

  ghost predicate PosterTicketInv<T>(pc: PosterPc<T>, p: nat, fates: map<nat, Fate>) {
    match pc
    case Idle => true
    case Notifying(j, i) => j.ticket in fates && fates[j.ticket] == Accepted(i, p)
    case Unlocking(j, i) => j.ticket in fates && fates[j.ticket] == Accepted(i, p)
    case _ => pc.job.ticket in fates && fates[pc.job.ticket] == Pending(p)
  }

  /** The stretch between the return of a run of the queue and the taking of the lock. */
  predicate InWindow(pc: WorkerPc) {
    pc == Drained || pc == Restarted
  }

  predicate TowardsWait(pc: WorkerPc) {
    InWindow(pc) || pc == Locked || pc == Waiting
  }

  /** The job whose notification is still to come, if a caller stands between the two steps. */
  function NotifyingIndex<T>(s: State<T>): Option<nat> {
    if s.owner.ByPoster? && s.PosterAt(s.owner.poster).Notifying? then
      Some(s.PosterAt(s.owner.poster).index)
    else None
  }

  ghost predicate RoundInv<T>(s: State<T>) {
    |s.stamps| == |s.accepted| && Rounds(s.pc, s.round, s.stamps, |s.executed|, NotifyingIndex(s))
  }

  /**
   What the stamps say: a worker on its way from a wake-up to the end of its run
   has met no job of this round's window yet; a worker on its way to the wait
   has done every job except those of this round's window, and, once it waits,
   except one whose notification is still to come.
   */
  ghost predicate Rounds(pc: WorkerPc, round: nat, stamps: seq<Stamp>, done: nat, notifying: Option<nat>) {
    && (forall i :: 0 <= i < |stamps| ==> stamps[i].round <= round)
    && (pc == Woken || pc == Relocked || pc == Running ==>
         forall i :: 0 <= i < |stamps| && stamps[i].round == round ==> !TowardsWait(stamps[i].pc))
    && (pc == Waiting && notifying.Some? ==> notifying.value >= done)
    && (TowardsWait(pc) ==>
         && done <= |stamps|
         && (forall i :: 0 <= i < done && stamps[i].round == round ==> !TowardsWait(stamps[i].pc))
         && (forall i :: done <= i < |stamps| ==>
              stamps[i].round == round && (InWindow(stamps[i].pc) || (pc == Waiting && notifying == Some(i)))))
  }

  lemma RoundsAccept(pc: WorkerPc, round: nat, stamps: seq<Stamp>, done: nat)
    requires Rounds(pc, round, stamps, done, None) && pc != Locked
    ensures Rounds(pc, round, stamps + [Stamp(round, pc)], done, Some(|stamps|))
  {
  }

  lemma RoundsWake(round: nat, stamps: seq<Stamp>, done: nat, notifying: Option<nat>, later: Option<nat>)
    requires Rounds(Waiting, round, stamps, done, notifying)
    ensures Rounds(Woken, round + 1, stamps, done, later)
  {
  }

  predicate WillExit(pc: WorkerPc) {
    pc == Woken || pc == Relocked || pc == FinalRun || pc == Exited
  }

  ghost predicate JoinInv<T>(s: State<T>) {
    && (s.dtorSaw.Some? <==> s.dtor in {Notified, Joining, Joined})
    && (s.wokenAfterDtor ==> s.dtorSaw.Some? && WillExit(s.pc))
    && (s.dtorSaw.Some? ==>
         && (forall p :: p in s.posters ==> !s.posters[p].Enqueueing? && !s.posters[p].Notifying?)
         && (if SawExit(s.dtorSaw.value) then WillExit(s.pc)
             else s.wokenAfterDtor || s.pc == Running || TowardsWait(s.pc)))
  }

  /** Where the worker must have stood for the destructor's notification to count. */
  predicate SawExit(pc: WorkerPc) {
    pc == Waiting || WillExit(pc)
  }

  ghost predicate Inv<T>(s: State<T>) {
    LockInv(s) && StopInv(s) && QueueInv(s) && TicketInv(s) && RoundInv(s) && JoinInv(s)
  }

  lemma WorkerKeepsStop<T>(s: State<T>)
    requires LockInv(s) && StopInv(s)
    ensures var t := WorkerNext(s); StopInv(t)
  {
  }

  predicate WorkerHoldsAt(pc: WorkerPc) {
    pc == Locked || pc == Relocked || pc == FinalRun
  }

  /** The worker's steps leave the lock alone, take it when it is free, or give it back. */
  lemma LockMoves<T>(s: State<T>, t: State<T>)
    requires LockInv(s) && t.posters == s.posters && t.dtor == s.dtor
    requires t.owner == s.owner || (s.owner == Free && t.owner == ByWorker) || (s.owner == ByWorker && t.owner == Free)
    requires t.owner == ByWorker <==> WorkerHoldsAt(t.pc)
    ensures LockInv(t)
  {
  }

  lemma WorkerKeepsLock<T>(s: State<T>)
    requires LockInv(s)
    ensures var t := WorkerNext(s); LockInv(t)
  {
    RunFrame(s);
    WorkerFrame(s);
    assert s.owner == ByWorker <==> WorkerHoldsAt(s.pc);
    hide LockInv, RunQueue;
    LockMoves(s, WorkerNext(s));
  }

  lemma RunFrame<T>(s: State<T>)
    ensures RunQueue(s).Some? ==>
              var t := RunQueue(s).value;
              && t.stop == s.stop && t.owner == s.owner && t.pc == s.pc && t.posters == s.posters && t.dtor == s.dtor
              && t.dtorSaw == s.dtorSaw && t.wokenAfterDtor == s.wokenAfterDtor && t.fates == s.fates
              && t.accepted == s.accepted && t.issued == s.issued
  {
  }

  lemma RunKeepsJobs<T>(s: State<T>)
    requires s.accepted == s.executed + AsSeq(s.running) + s.queue
    ensures match RunQueue(s)
            case None => s.queue == [] && s.running == None
            case Some(t) => s.accepted == t.executed + AsSeq(t.running) + t.queue
  {
  }

  /** Where the worker stands after a step, as far as its tasks are concerned. */
  lemma WorkerPlaces<T>(s: State<T>)
    ensures var t := WorkerNext(s);
            && ((s.pc == Running || s.pc == FinalRun) && RunQueue(s).Some? ==> t.pc == s.pc)
            && (t.pc == Exited ==> s.pc == Exited || (s.pc == FinalRun && RunQueue(s) == None))
  {
    hide RunQueue;
    RunFrame(s);
  }

  lemma WorkerKeepsQueue<T>(s: State<T>)
    requires LockInv(s) && StopInv(s) && QueueInv(s)
    ensures var t := WorkerNext(s); QueueInv(t)
  {
    hide WorkerNext, RunQueue, LockInv, StopInv;
    WorkerFrame(s);
    OffQueue(s);
    RunKeepsJobs(s);
    WorkerPlaces(s);
  }

  lemma WorkerKeepsTickets<T>(s: State<T>)
    requires TicketInv(s)
    ensures var t := WorkerNext(s); TicketInv(t)
  {
    hide RunQueue;
    RunFrame(s);
  }

  /** The worker's moves between its program points, and the work done so far. */
  predicate WorkerMove(pc: WorkerPc, pc': WorkerPc, done: nat, done': nat, total: nat) {
    match pc
    case Running => pc' == Running || (pc' == Drained && done' == total)
    case Drained => pc' == Restarted && done' == done
    case Restarted => (pc' == Restarted || pc' == Locked) && done' == done
    case Locked => pc' == Waiting && done' == done
    case Waiting => pc' == Waiting && done' == done
    case Woken => pc' == Woken || pc' == Relocked
    case Relocked => pc' == Running || pc' == FinalRun
    case FinalRun => pc' == FinalRun || pc' == Exited
    case Exited => pc' == Exited
  }

  lemma WorkerMoves<T>(s: State<T>)
    requires LockInv(s) && QueueInv(s)
    ensures var t := WorkerNext(s);
            && t.stamps == s.stamps && t.accepted == s.accepted && t.round == s.round && t.posters == s.posters
            && (t.owner == s.owner || (!t.owner.ByPoster? && !s.owner.ByPoster?))
            && WorkerMove(s.pc, t.pc, |s.executed|, |t.executed|, |s.accepted|)
  {
    match s.pc
    case Running => assert |s.accepted| == |s.executed| + |AsSeq(s.running)| + |s.queue|;
    case _ =>
  }

  lemma RoundsMove(pc: WorkerPc, pc': WorkerPc, round: nat, stamps: seq<Stamp>, done: nat, done': nat,
                   notifying: Option<nat>)
    requires Rounds(pc, round, stamps, done, notifying) && (pc == Locked ==> notifying == None)
    requires WorkerMove(pc, pc', done, done', |stamps|)
    ensures Rounds(pc', round, stamps, done', notifying)
  {
  }

  lemma WorkerKeepsRounds<T>(s: State<T>)
    requires LockInv(s) && QueueInv(s) && RoundInv(s)
    ensures RoundInv(WorkerNext(s))
  {
    var t := WorkerNext(s);
    WorkerMoves(s);
    RoundsMove(s.pc, t.pc, s.round, s.stamps, |s.executed|, |t.executed|, NotifyingIndex(s));
    assert NotifyingIndex(t) == NotifyingIndex(s);
  }

  lemma WorkerKeepsJoin<T>(s: State<T>)
    requires LockInv(s) && StopInv(s) && JoinInv(s)
    ensures var t := WorkerNext(s); JoinInv(t)
  {
    hide RunQueue;
    RunFrame(s);
  }

  lemma PosterKeepsStop<T>(s: State<T>, p: nat)
    requires LockInv(s) && StopInv(s)
    ensures var t := PosterNext(s, p); StopInv(t)
  {
  }

  lemma PosterKeepsLock<T>(s: State<T>, p: nat)
    requires LockInv(s)
    ensures var t := PosterNext(s, p); LockInv(t)
  {
    match s.PosterAt(p)
    case WantLock(j) =>
    case SecondCheck(j) =>
    case Unlocking(j, i) =>
    case _ =>
  }

  lemma PosterKeepsQueue<T>(s: State<T>, p: nat)
    requires LockInv(s) && StopInv(s) && QueueInv(s)
    ensures var t := PosterNext(s, p); QueueInv(t)
  {
  }

  lemma TicketMoves<T>(s: State<T>, p: nat, pc: PosterPc<T>)
    requires TicketInv(s) && p in s.posters
    requires !pc.Idle? && !s.posters[p].Idle? && s.posters[p].job == pc.job
    requires PosterTicketInv(pc, p, s.fates)
    ensures Tickets(s.posters[p := pc], s.fates, s.issued, s.accepted)
  {
  }

  lemma TicketRejected<T>(s: State<T>, p: nat, j: Job<T>)
    requires TicketInv(s) && p in s.posters
    requires s.posters[p] == FirstCheck(j) || s.posters[p] == SecondCheck(j)
    ensures Tickets(s.posters[p := Idle], s.fates[j.ticket := Rejected], s.issued, s.accepted)
  {
    assert PosterTicketInv(s.posters[p], p, s.fates);
  }

  lemma TicketAccepted<T>(s: State<T>, p: nat, j: Job<T>)
    requires TicketInv(s) && p in s.posters && s.posters[p] == Enqueueing(j)
    ensures Tickets(s.posters[p := Notifying(j, |s.accepted|)], s.fates[j.ticket := Accepted(|s.accepted|, p)],
                    s.issued, s.accepted + [j])
  {
    assert PosterTicketInv(s.posters[p], p, s.fates);
  }

  lemma TicketReturned<T>(s: State<T>, p: nat, j: Job<T>, i: nat)
    requires TicketInv(s) && p in s.posters && s.posters[p] == Unlocking(j, i)
    ensures Tickets(s.posters[p := Idle], s.fates[j.ticket := Returned(i)], s.issued, s.accepted)
  {
    assert PosterTicketInv(s.posters[p], p, s.fates);
  }

  lemma PosterKeepsTickets<T>(s: State<T>, p: nat)
    requires TicketInv(s)
    ensures var t := PosterNext(s, p); TicketInv(t)
  {
    match s.PosterAt(p)
    case Idle =>
    case FirstCheck(j) => TicketRejected(s, p, j); TicketMoves(s, p, WantLock(j));
    case WantLock(j) => TicketMoves(s, p, SecondCheck(j));
    case SecondCheck(j) => TicketRejected(s, p, j); TicketMoves(s, p, Enqueueing(j));
    case Enqueueing(j) => TicketAccepted(s, p, j);
    case Notifying(j, i) => TicketMoves(s, p, Unlocking(j, i));
    case Unlocking(j, i) => TicketReturned(s, p, j, i);
  }

  lemma PosterMoves<T>(s: State<T>, p: nat)
    requires LockInv(s)
    ensures var t := PosterNext(s, p);
            && t.executed == s.executed
            && (s.PosterAt(p).Enqueueing? || t.accepted == s.accepted)
            && (s.PosterAt(p).Enqueueing? || t.stamps == s.stamps)
            && (s.PosterAt(p).Enqueueing? || s.PosterAt(p).Notifying? ||
                (t.pc == s.pc && t.round == s.round && NotifyingIndex(t) == NotifyingIndex(s)))
  {
    match s.PosterAt(p)
    case Idle =>
    case FirstCheck(j) =>
    case _ =>
  }

  lemma PosterKeepsRounds<T>(s: State<T>, p: nat)
    requires LockInv(s) && QueueInv(s) && RoundInv(s)
    ensures RoundInv(PosterNext(s, p))
  {
    match s.PosterAt(p)
    case Enqueueing(j) =>
      assert s.owner == ByPoster(p);
      RoundsAccept(s.pc, s.round, s.stamps, |s.executed|);
    case Notifying(j, i) =>
      assert s.owner == ByPoster(p);
      if s.pc == Waiting { RoundsWake(s.round, s.stamps, |s.executed|, Some(i), None); }
    case _ =>
      PosterMoves(s, p);
  }

  lemma PosterKeepsJoin<T>(s: State<T>, p: nat)
    requires LockInv(s) && StopInv(s) && JoinInv(s)
    ensures var t := PosterNext(s, p); JoinInv(t)
  {
  }

  lemma DtorKeepsLock<T>(s: State<T>)
    requires LockInv(s) && StopInv(s)
    ensures var t := DtorNext(s); LockInv(t) && StopInv(t)
  {
  }

  lemma DtorKeepsQueue<T>(s: State<T>)
    requires LockInv(s) && StopInv(s) && QueueInv(s)
    ensures var t := DtorNext(s); QueueInv(t)
  {
  }

  lemma DtorKeepsTickets<T>(s: State<T>)
    requires TicketInv(s)
    ensures var t := DtorNext(s); TicketInv(t)
  {
  }

  lemma DtorKeepsRounds<T>(s: State<T>)
    requires LockInv(s) && QueueInv(s) && RoundInv(s)
    ensures var t := DtorNext(s); RoundInv(t)
  {
    match s.dtor
    case DtorLocked =>
      if s.pc == Waiting { RoundsWake(s.round, s.stamps, |s.executed|, None, None); }
    case _ =>
  }

  lemma DtorKeepsJoin<T>(s: State<T>)
    requires LockInv(s) && StopInv(s) && JoinInv(s)
    ensures var t := DtorNext(s); JoinInv(t)
  {
  }

  lemma CallKeepsLock<T>(s: State<T>, p: nat, payload: T)
    requires LockInv(s) && StopInv(s)
    ensures var t := Step(s, Call(p, payload)); LockInv(t) && StopInv(t)
  {
  }

  lemma CallKeepsQueue<T>(s: State<T>, p: nat, payload: T)
    requires LockInv(s) && StopInv(s) && QueueInv(s)
    ensures var t := Step(s, Call(p, payload)); QueueInv(t)
  {
  }

  lemma CallKeepsTickets<T>(s: State<T>, p: nat, payload: T)
    requires TicketInv(s)
    ensures var t := Step(s, Call(p, payload)); TicketInv(t)
  {
  }

  lemma CallKeepsRounds<T>(s: State<T>, p: nat, payload: T)
    requires LockInv(s) && QueueInv(s) && RoundInv(s)
    ensures var t := Step(s, Call(p, payload)); RoundInv(t)
  {
  }

  lemma CallKeepsJoin<T>(s: State<T>, p: nat, payload: T)
    requires LockInv(s) && StopInv(s) && JoinInv(s)
    ensures var t := Step(s, Call(p, payload)); JoinInv(t)
  {
  }

  lemma SpuriousKeepsLock<T>(s: State<T>)
    requires LockInv(s) && StopInv(s)
    ensures var t := Step(s, Spurious); LockInv(t) && StopInv(t)
  {
  }

  lemma SpuriousKeepsQueue<T>(s: State<T>)
    requires LockInv(s) && StopInv(s) && QueueInv(s)
    ensures var t := Step(s, Spurious); QueueInv(t)
  {
  }

  lemma SpuriousKeepsTickets<T>(s: State<T>)
    requires TicketInv(s)
    ensures var t := Step(s, Spurious); TicketInv(t)
  {
  }

  lemma SpuriousKeepsRounds<T>(s: State<T>)
    requires LockInv(s) && QueueInv(s) && RoundInv(s)
    ensures var t := Step(s, Spurious); RoundInv(t)
  {
  }

  lemma SpuriousKeepsJoin<T>(s: State<T>)
    requires LockInv(s) && StopInv(s) && JoinInv(s)
    ensures var t := Step(s, Spurious); JoinInv(t)
  {
  }

  lemma {:induction false} StepKeepsInv<T>(s: State<T>, a: Action<T>)
    requires Inv(s)
    ensures Inv(Step(s, a))
  {
    match a
    case WorkerStep =>
      WorkerKeepsStop(s); WorkerKeepsLock(s); WorkerKeepsQueue(s); WorkerKeepsTickets(s);
      WorkerKeepsRounds(s); WorkerKeepsJoin(s);
    case Spurious =>
      SpuriousKeepsLock(s); SpuriousKeepsQueue(s); SpuriousKeepsTickets(s); SpuriousKeepsRounds(s);
      SpuriousKeepsJoin(s);
    case Call(p, payload) =>
      CallKeepsLock(s, p, payload); CallKeepsQueue(s, p, payload); CallKeepsTickets(s, p, payload);
      CallKeepsRounds(s, p, payload); CallKeepsJoin(s, p, payload);
    case PosterStep(p) =>
      PosterKeepsStop(s, p); PosterKeepsLock(s, p); PosterKeepsQueue(s, p); PosterKeepsTickets(s, p);
      PosterKeepsRounds(s, p); PosterKeepsJoin(s, p);
    case DtorStep =>
      DtorKeepsLock(s); DtorKeepsQueue(s); DtorKeepsTickets(s); DtorKeepsRounds(s); DtorKeepsJoin(s);
  }

  lemma {:induction false} RunKeepsInv<T>(run: Run<Action<T>>)
    ensures Inv(Exec(run))
  {
    match run
    case Start =>
    case Then(before, a) =>
      RunKeepsInv(before);
      StepKeepsInv(Exec(before), a);
  }

  // ------------------------------------------------------------ conservation and drain

  /** In every interleaving the accepted jobs are the executed, the running and the queued ones, in that order. */
  lemma Conservation<T>(run: Run<Action<T>>)
    ensures var s := Exec(run); s.accepted == s.executed + AsSeq(s.running) + s.queue
    ensures var s := Exec(run); forall i, j :: 0 <= i < j < |s.accepted| ==>
        s.accepted[i].ticket != s.accepted[j].ticket
  {
    RunKeepsInv(run);
  }

  /** A call that returned is among the accepted jobs exactly once; a call that threw is not among them. */
  lemma CallOutcome<T>(run: Run<Action<T>>, ticket: nat)
    requires ticket in Exec(run).fates
    ensures var s := Exec(run);
            match s.fates[ticket]
            case Returned(i) => i < |s.accepted| && s.accepted[i].ticket == ticket
            case Accepted(i, p) => i < |s.accepted| && s.accepted[i].ticket == ticket
            case Pending(p) => forall i :: 0 <= i < |s.accepted| ==> s.accepted[i].ticket != ticket
            case Rejected => s.stop && forall i :: 0 <= i < |s.accepted| ==> s.accepted[i].ticket != ticket
  {
    RunKeepsInv(run);
    FateOutcome(Exec(run), ticket);
    if Exec(run).fates[ticket].Rejected? { RejectedMeansStopped(run, ticket); }
  }

  lemma FateOutcome<T>(s: State<T>, ticket: nat)
    requires TicketInv(s) && ticket in s.fates
    ensures s.fates[ticket].Accepted? || s.fates[ticket].Returned? ==>
              s.fates[ticket].index < |s.accepted| && s.accepted[s.fates[ticket].index].ticket == ticket
    ensures s.fates[ticket].Pending? || s.fates[ticket].Rejected? ==>
              forall i :: 0 <= i < |s.accepted| ==> s.accepted[i].ticket != ticket
  {
    assert FateInv(s.fates[ticket], ticket, s.posters, s.accepted);
  }

  lemma {:induction false} RejectedMeansStopped<T>(run: Run<Action<T>>, ticket: nat)
    requires ticket in Exec(run).fates && Exec(run).fates[ticket].Rejected?
    ensures Exec(run).stop
  {
    var Then(before, a) := run;
    var s := Exec(before);
    if ticket in s.fates && s.fates[ticket].Rejected? {
      RejectedMeansStopped(before, ticket);
    } else if a.PosterStep? {
      RejectionSeesStop(s, a.poster, ticket);
    }
    StopStays(s, a);
  }

  lemma RejectionSeesStop<T>(s: State<T>, p: nat, ticket: nat)
    requires !(ticket in s.fates && s.fates[ticket].Rejected?)
    requires ticket in PosterNext(s, p).fates && PosterNext(s, p).fates[ticket].Rejected?
    ensures s.stop
  {
  }

  lemma StopStays<T>(s: State<T>, a: Action<T>)
    requires s.stop
    ensures Step(s, a).stop
  {
  }

  /** Once the thread has exited, every call that returned normally has been executed. */
  lemma DrainOnExit<T>(run: Run<Action<T>>)
    requires Exec(run).pc == Exited
    ensures var s := Exec(run); s.queue == [] && s.running == None && s.executed == s.accepted
    ensures var s := Exec(run);
            forall t :: t in s.fates && s.fates[t].Returned? ==>
              exists i :: 0 <= i < |s.executed| && s.executed[i].ticket == t
  {
    RunKeepsInv(run);
    var s := Exec(run);
    forall t | t in s.fates && s.fates[t].Returned?
      ensures exists i :: 0 <= i < |s.executed| && s.executed[i].ticket == t
    {
      assert FateInv(s.fates[t], t, s.posters, s.accepted);
      assert s.executed[s.fates[t].index].ticket == t;
    }
  }

  // ------------------------------------------------------------ wake-ups

  /**
   While the worker blocks, a job is still undone exactly when it was accepted in this round's window, after the run of
   the queue had returned and before the worker took the lock, or when its notification is just about to be sent.
   */
  lemma BlockedExactly<T>(run: Run<Action<T>>, i: nat)
    requires Exec(run).pc == Waiting && i < |Exec(run).accepted|
    ensures var s := Exec(run);
            |s.stamps| == |s.accepted| &&
            (i >= |s.executed| <==>
              (s.stamps[i].round == s.round && InWindow(s.stamps[i].pc)) || NotifyingIndex(s) == Some(i))
    ensures var s := Exec(run); |s.executed| <= |s.accepted| && s.queue == s.accepted[|s.executed|..]
  {
    RunKeepsInv(run);
  }

  /** When the worker blocks again, everything accepted before its last wake-up has been executed. */
  lemma WakeupServesEarlierJobs<T>(run: Run<Action<T>>, i: nat)
    requires Exec(run).pc == Locked || Exec(run).pc == Waiting
    requires i < |Exec(run).accepted|
    ensures var s := Exec(run); |s.stamps| == |s.accepted| && (s.stamps[i].round < s.round ==> i < |s.executed|)
  {
    RunKeepsInv(run);
  }

  // ------------------------------------------------------------ the worker left alone

  /** The worker's own steps still to come before it exits or blocks. */
  function Rank<T>(s: State<T>): nat {
    var work := 2 * |s.queue| + |AsSeq(s.running)|;
    match s.pc
    case Running => work + 4
    case Drained => 3
    case Restarted => 2
    case Locked => 1
    case Waiting => 0
    case Woken => if s.stop then work + 3 else work + 6
    case Relocked => if s.stop then work + 2 else work + 5
    case FinalRun => work + 1
    case Exited => 0
  }

  lemma WorkerStepLowersRank<T>(s: State<T>)
    requires WorkerEnabled(s)
    ensures Rank(WorkerNext(s)) < Rank(s)
  {
  }

  /** The state in which the worker, left alone, comes to rest. */
  function Settle<T>(s: State<T>): State<T>
    decreases Rank(s)
  {
    if WorkerEnabled(s) then
      WorkerStepLowersRank(s);
      Settle(WorkerNext(s))
    else s
  }

  lemma WorkerFrame<T>(s: State<T>)
    ensures var t := WorkerNext(s);
            t.stop == s.stop && t.accepted == s.accepted && t.dtor == s.dtor && t.posters == s.posters
  {
    match s.pc
    case Running =>
    case _ =>
  }

  /** Outside a run of the queue the worker touches no job; inside, it does what the run does. */
  lemma OffQueue<T>(s: State<T>)
    ensures s.pc != Running && s.pc != FinalRun ==>
              var t := WorkerNext(s);
              t.running == s.running && t.queue == s.queue && t.executed == s.executed
    ensures (s.pc == Running || s.pc == FinalRun) ==>
              var t := WorkerNext(s);
              var u := match RunQueue(s) case None => s case Some(u) => u;
              t.running == u.running && t.queue == u.queue && t.executed == u.executed
  {
  }

  predicate LockIsOurs<T>(s: State<T>) {
    s.owner == Free || s.owner == ByWorker
  }

  lemma LockStaysOurs<T>(s: State<T>)
    requires LockIsOurs(s)
    ensures LockIsOurs(WorkerNext(s))
  {
    match s.pc
    case Running =>
    case _ =>
  }

  /** With the stop flag set: a worker past its wake-up exits with everything done, any other one blocks. */
  lemma {:induction false} SettleStopped<T>(s: State<T>)
    requires s.stop && LockIsOurs(s) && LockInv(s) && StopInv(s) && QueueInv(s)
    ensures WillExit(s.pc) ==> Settle(s).pc == Exited && Settle(s).executed == s.accepted
    ensures !WillExit(s.pc) ==> Settle(s).pc == Waiting
    decreases Rank(s)
  {
    if WorkerEnabled(s) {
      WorkerStepLowersRank(s);
      WorkerFrame(s); LockStaysOurs(s);
      WorkerKeepsLock(s); WorkerKeepsStop(s); WorkerKeepsQueue(s);
      SettleStopped(WorkerNext(s));
    }
  }

  /** With the stop flag clear: a woken or running worker does all the accepted jobs and blocks again. */
  lemma {:induction false} SettleServes<T>(s: State<T>)
    requires !s.stop && LockIsOurs(s) && LockInv(s) && StopInv(s) && QueueInv(s)
    ensures Settle(s).pc == Waiting
    ensures !TowardsWait(s.pc) ==> Settle(s).executed == s.accepted && Settle(s).queue == []
    ensures TowardsWait(s.pc) ==> Settle(s).executed == s.executed && Settle(s).queue == s.queue
    decreases Rank(s)
  {
    if WorkerEnabled(s) {
      WorkerStepLowersRank(s);
      WorkerFrame(s); LockStaysOurs(s);
      WorkerKeepsLock(s); WorkerKeepsStop(s); WorkerKeepsQueue(s);
      SettleServes(WorkerNext(s));
    }
  }

  /** A worker that no other thread keeps from the lock serves all accepted jobs unless it is on its way to the wait. */
  lemma LeftAloneServes<T>(run: Run<Action<T>>)
    requires !Exec(run).stop && LockIsOurs(Exec(run))
    ensures var s := Exec(run);
            Settle(s).pc == Waiting &&
            (TowardsWait(s.pc) ==> Settle(s).queue == s.queue) &&
            (!TowardsWait(s.pc) ==> Settle(s).queue == [] && Settle(s).executed == s.accepted)
  {
    RunKeepsInv(run);
    SettleServes(Exec(run));
  }

  /** A whole call of `post` that nothing interrupts. */
  function Posting<T>(run: Run<Action<T>>, p: nat, payload: T): Run<Action<T>> {
    var step := PosterStep(p);
    Then(Then(Then(Then(Then(Then(Then(run, Call(p, payload)), step), step), step), step), step), step)
  }

  /** A step of a caller that finds the stop flag clear and nobody else in its way. */
  ghost predicate PostGoes<T>(s: State<T>, t: State<T>, p: nat) {
    !t.stop && t.executed == s.executed && t.issued == s.issued
    && t.owner == (if HoldsLock(t.PosterAt(p)) then ByPoster(p) else Free)
    && t.pc == (if t.PosterAt(p).Unlocking? || t.PosterAt(p).Idle? then Woken else Waiting)
    && t.accepted == (if s.PosterAt(p).Enqueueing? then s.accepted + [s.PosterAt(p).job] else s.accepted)
  }

  /** The next place in `post` when the stop flag is clear and the lock is free. */
  function NextPlace<T>(pc: PosterPc<T>, index: nat): PosterPc<T> {
    match pc
    case Idle => Idle
    case FirstCheck(j) => WantLock(j)
    case WantLock(j) => SecondCheck(j)
    case SecondCheck(j) => Enqueueing(j)
    case Enqueueing(j) => Notifying(j, index)
    case Notifying(j, i) => Unlocking(j, i)
    case Unlocking(_, _) => Idle
  }

  lemma PostGoesOn<T>(s: State<T>, p: nat)
    requires !s.stop && !s.PosterAt(p).Idle?
    requires s.owner == (if HoldsLock(s.PosterAt(p)) then ByPoster(p) else Free)
    requires s.pc == (if s.PosterAt(p).Unlocking? then Woken else Waiting)
    ensures var t := PosterNext(s, p); PostGoes(s, t, p) && t.PosterAt(p) == NextPlace(s.PosterAt(p), |s.accepted|)
  {
    match s.PosterAt(p)
    case FirstCheck(j) =>
    case _ =>
  }

  /** Six such steps take a caller from the first check to the end. */
  lemma PostArrives<T>(s1: State<T>, p: nat, j: Job<T>)
    requires !s1.stop && s1.owner == Free && s1.pc == Waiting && s1.PosterAt(p) == FirstCheck(j)
    ensures var s4 := PosterNext(PosterNext(PosterNext(s1, p), p), p);
            var t := PosterNext(PosterNext(PosterNext(s4, p), p), p);
            && t.accepted == s1.accepted + [j] && t.PosterAt(p) == Idle
            && !t.stop && t.pc == Woken && t.owner == Free
  {
    hide PosterNext;
    var s2 := PosterNext(s1, p);
    var s3 := PosterNext(s2, p);
    var s4 := PosterNext(s3, p);
    var s5 := PosterNext(s4, p);
    var s6 := PosterNext(s5, p);
    PostGoesOn(s1, p);
    PostGoesOn(s2, p);
    PostGoesOn(s3, p);
    PostGoesOn(s4, p);
    PostGoesOn(s5, p);
    PostGoesOn(s6, p);
  }

  /**
   One more call of `post` makes up for every notification the waiting worker has missed:
   left alone it then executes everything accepted, the new job included.
   */
  lemma PostMakesUp<T>(run: Run<Action<T>>, p: nat, payload: T)
    requires var s := Exec(run); s.pc == Waiting && s.owner == Free && !s.stop && s.PosterAt(p) == Idle
    ensures var s := Exec(run);
            var t := Exec(Posting(run, p, payload));
            && t.accepted == s.accepted + [Job(s.issued, payload)] && t.PosterAt(p) == Idle
            && !t.stop && t.pc == Woken && t.owner == Free
            && Settle(t).executed == t.accepted && Settle(t).queue == [] && Settle(t).pc == Waiting
  {
    hide PosterNext, Settle;
    var s := Exec(run);
    PostingIs(run, p, payload);
    PostArrives(Step(s, Call(p, payload)), p, Job(s.issued, payload));
    LeftAloneServes(Posting(run, p, payload));
  }

  lemma PostingIs<T>(run: Run<Action<T>>, p: nat, payload: T)
    ensures var s4 := PosterNext(PosterNext(PosterNext(Step(Exec(run), Call(p, payload)), p), p), p);
            Exec(Posting(run, p, payload)) == PosterNext(PosterNext(PosterNext(s4, p), p), p)
  {
    hide PosterNext;
    var step := PosterStep(p);
    var r1 := Then(run, Call(p, payload));
    var r3 := Then(Then(r1, step), step);
    var r5 := Then(Then(r3, step), step);
    var r7 := Then(Then(r5, step), step);
    assert Exec(r3) == PosterNext(PosterNext(Exec(r1), p), p);
    assert Exec(r5) == PosterNext(PosterNext(Exec(r3), p), p);
    assert Exec(r7) == PosterNext(PosterNext(Exec(r5), p), p);
  }

  // ------------------------------------------------------------ join

  /** The state once a caller that still holds the lock has finished with it. */
  function LockFreed<T>(s: State<T>): State<T> {
    if s.owner.ByPoster? then PosterNext(s, s.owner.poster) else s
  }

  lemma LockIsFreed<T>(s: State<T>)
    requires LockInv(s) && StopInv(s) && JoinInv(s) && s.dtor == Joining
    ensures var t := LockFreed(s);
            LockIsOurs(t) && t.stop && t.dtor == s.dtor && t.pc == s.pc && t.dtorSaw == s.dtorSaw
            && t.wokenAfterDtor == s.wokenAfterDtor && t.accepted == s.accepted && t.executed == s.executed
  {
  }

  /**
   The join returns exactly when the destructor's notification met a worker that
   was waiting or had already been woken, or when a wake-up without a notification
   came afterwards.  Otherwise the worker ends up blocked for good.
   */
  lemma JoinReturnsExactly<T>(run: Run<Action<T>>)
    requires Exec(run).dtor == Joining
    ensures var s := Exec(run);
            var t := Settle(LockFreed(s));
            s.stop && s.dtorSaw.Some? &&
            (t.pc == Exited <==> SawExit(s.dtorSaw.value) || s.wokenAfterDtor) &&
            (t.pc == Exited ==> t.executed == s.accepted) &&
            (t.pc != Exited ==> t.pc == Waiting)
  {
    hide Exec, Inv, LockFreed, Settle;
    RunKeepsInv(run);
    FreedKeepsInv(Exec(run));
    JoinSettles(Exec(run), LockFreed(Exec(run)));
  }

  lemma FreedKeepsInv<T>(s: State<T>)
    requires Inv(s)
    ensures Inv(LockFreed(s))
  {
    hide Inv, PosterNext;
    if s.owner.ByPoster? { StepKeepsInv(s, PosterStep(s.owner.poster)); }
  }

  lemma JoinSettles<T>(s: State<T>, t: State<T>)
    requires Inv(s) && Inv(t) && s.dtor == Joining && t == LockFreed(s)
    ensures s.stop && s.dtorSaw.Some?
    ensures Settle(t).pc == Exited <==> SawExit(s.dtorSaw.value) || s.wokenAfterDtor
    ensures Settle(t).pc == Exited ==> Settle(t).executed == s.accepted
    ensures Settle(t).pc != Exited ==> Settle(t).pc == Waiting
  {
    LockIsFreed(s);
    hide TicketInv, RoundInv, Settle, LockFreed;
    SettleStopped(t);
  }

  lemma WorkerLeavesVerdict<T>(s: State<T>)
    ensures WorkerNext(s).dtorSaw == s.dtorSaw && WorkerNext(s).wokenAfterDtor == s.wokenAfterDtor
  {
    hide RunQueue;
    RunFrame(s);
  }

  lemma PosterLeavesVerdict<T>(s: State<T>, p: nat)
    ensures PosterNext(s, p).dtorSaw == s.dtorSaw && PosterNext(s, p).wokenAfterDtor == s.wokenAfterDtor
  {
  }

  lemma DtorLeavesVerdict<T>(s: State<T>)
    requires s.dtor in {Notified, Joining, Joined}
    ensures DtorNext(s).dtorSaw == s.dtorSaw && DtorNext(s).wokenAfterDtor == s.wokenAfterDtor
  {
  }

  lemma JoinStage<T>(run: Run<Action<T>>)
    ensures Exec(run).dtorSaw.Some? ==> Exec(run).dtor in {Notified, Joining, Joined}
  {
    hide Exec, LockInv, StopInv, QueueInv, TicketInv, RoundInv;
    RunKeepsInv(run);
  }

  /**
   What decides the join stands: no step of any thread changes it, neither of the worker nor of a caller that comes
   meanwhile, except a wake-up without a notification.
   */
  lemma JoinVerdictStands<T>(run: Run<Action<T>>, a: Action<T>)
    requires Exec(run).dtorSaw.Some?
    ensures var s, t := Exec(run), Exec(Then(run, a));
            t.dtorSaw == s.dtorSaw && (t.wokenAfterDtor <==> s.wokenAfterDtor || (a == Spurious && s.pc == Waiting))
  {
    ExecIs(run, a);
    JoinStage(run);
    var s := Exec(run);
    hide Exec, WorkerNext, PosterNext, DtorNext;
    match a
    case WorkerStep => WorkerLeavesVerdict(s);
    case PosterStep(p) => PosterLeavesVerdict(s, p);
    case DtorStep => DtorLeavesVerdict(s);
    case _ =>
  }

  /** In no schedule does the join return without one of the two. */
  lemma JoinedOnlyIf<T>(run: Run<Action<T>>)
    requires Exec(run).dtor == Joined
    ensures var s := Exec(run); s.dtorSaw.Some? && (SawExit(s.dtorSaw.value) || s.wokenAfterDtor)
  {
    RunKeepsInv(run);
  }

  /** A schedule in which the destructor's notification is lost although no job was ever posted. */
  lemma JoinCanHang()
    ensures exists run: Run<Action<nat>> ::
              Exec(run).dtor == Joining && Exec(run).pc == Waiting && Exec(run).accepted == []
  {
    var r1: Run<Action<nat>> := Then(Then(Then(Then(Start, DtorStep), DtorStep), DtorStep), DtorStep);
    assert Exec(r1) == Init<nat>().(stop := true, dtor := Joining, dtorSaw := Some(Running));
    var r2 := Then(Then(Then(Then(r1, WorkerStep), WorkerStep), WorkerStep), WorkerStep);
    assert Exec(r2).pc == Waiting && Exec(r2).dtor == Joining;
  }
}
