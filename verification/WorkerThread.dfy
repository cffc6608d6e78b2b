/**
 The worker object itself: the stop flag, the lock, the task queue and the
 positions of the threads that use them, changed in place one atomic step at a
 time.  Each method is proved against the corresponding step of WorkerProtocol.
 */
module WorkerThread {
  import opened Types
  import opened WorkerProtocol

  class Worker<T> {
    var workerStop: bool
    var workerMtx: Owner
    var workerIO: seq<Job<T>>
    var thread: WorkerPc
    var current: Option<Job<T>>
    var posters: map<nat, PosterPc<T>>
    var destructor: DtorPc
    var tickets: nat

    ghost var fates: map<nat, Fate>
    var accepted: seq<Job<T>>
    ghost var stamps: seq<Stamp>
    ghost var executed: seq<Job<T>>
    ghost var round: nat
    ghost var dtorSaw: Option<WorkerPc>
    ghost var wokenAfterDtor: bool
    ghost var history: Run<Action<T>>

    ghost function View(): State<T>
      reads this
    {
      State(workerStop, workerMtx, thread, current, workerIO, posters, destructor, tickets, fates,
            accepted, stamps, executed, round, dtorSaw, wokenAfterDtor)
    }

    /** The object is where its history takes the protocol, so what holds of every schedule holds of the object. */
    ghost predicate Valid()
      reads this
    {
      View() == Exec(history)
    }

    lemma Consistent()
      requires Valid()
      ensures Inv(View()) && accepted == executed + AsSeq(current) + workerIO
    {
      RunKeepsInv(history);
    }

    constructor ()
      ensures Valid() && history == Start && View() == Init()
    {
      history := Start;
      workerStop, workerMtx, workerIO, thread, current := false, Free, [], Running, None;
      posters, destructor, tickets := map[], NotStarted, 0;
      fates, accepted, stamps, executed, round := map[], [], [], [], 0;
      dtorSaw, wokenAfterDtor := None, false;
    }

    method NotifyAll()
      modifies this`thread, this`round
      ensures View() == Wake(old(View()))
    {
      if thread == Waiting {
        thread := Woken;
        round := round + 1;
      }
    }

    method SpuriousWakeup()
      modifies this`thread, this`round, this`wokenAfterDtor
      ensures View() == Step(old(View()), Spurious)
    {
      wokenAfterDtor := wokenAfterDtor || (thread == Waiting && dtorSaw.Some?);
      NotifyAll();
    }

    /** One step of a run of the task queue; false when the run returns. */
    method RunOne() returns (more: bool)
      modifies this`current, this`workerIO, this`executed
      ensures match RunQueue(old(View()))
              case Some(v) => more && View() == v
              case None => !more && View() == old(View())
    {
      more := true;
      match current {
        case Some(job) =>
          executed := executed + [job];
          current := None;
        case None =>
          if workerIO != [] {
            current := Some(workerIO[0]);
            workerIO := workerIO[1..];
          } else {
            more := false;
          }
      }
    }

    /** The next atomic step of the worker thread's loop. */
    method LoopStep()
      modifies this
      ensures View() == Step(old(View()), WorkerStep)
    {
      match thread {
        case Running =>
          var more := RunOne();
          if !more { thread := Drained; }
        case Drained =>
          thread := Restarted;
        case Restarted =>
          if workerMtx == Free { workerMtx, thread := ByWorker, Locked; }
        case Locked =>
          workerMtx, thread := Free, Waiting;
        case Woken =>
          if workerMtx == Free { workerMtx, thread := ByWorker, Relocked; }
        case Relocked =>
          if workerStop {
            thread := FinalRun;
          } else {
            workerMtx, thread := Free, Running;
          }
        case FinalRun =>
          var more := RunOne();
          if !more { workerMtx, thread := Free, Exited; }
        case _ =>
      }
    }

    /** A caller enters `post`. */
    method BeginPost(p: nat, payload: T)
      modifies this`posters, this`fates, this`tickets
      ensures View() == Step(old(View()), Call(p, payload))
    {
      if p !in posters || posters[p].Idle? {
        posters := posters[p := FirstCheck(Job(tickets, payload))];
        fates := fates[tickets := Pending(p)];
        tickets := tickets + 1;
      }
    }

    /** The next atomic step of a caller inside `post`; `threw` reports the exception. */
    method PostStep(p: nat) returns (threw: bool)
      modifies this
      ensures View() == Step(old(View()), PosterStep(p))
      ensures threw <==>
              old(workerStop) && (old(View()).PosterAt(p).FirstCheck? || old(View()).PosterAt(p).SecondCheck?)
    {
      threw := false;
      if p !in posters || posters[p].Idle? { return; }
      if posters[p].FirstCheck? || posters[p].WantLock? {
        threw := PostUnlocked(p);
      } else {
        threw := PostLocked(p);
      }
    }

    /** The part of `post` before the lock is taken. */
    method PostUnlocked(p: nat) returns (threw: bool)
      requires p in posters && (posters[p].FirstCheck? || posters[p].WantLock?)
      modifies this`posters, this`fates, this`workerMtx
      ensures View() == PosterNext(old(View()), p)
      ensures threw <==> old(workerStop) && old(posters)[p].FirstCheck?
    {
      threw := false;
      match posters[p] {
        case FirstCheck(j) =>
          if workerStop {
            threw := true;
            Reject(p, j);
          } else {
            posters := posters[p := WantLock(j)];
          }
        case WantLock(j) =>
          if workerMtx == Free {
            workerMtx := ByPoster(p);
            posters := posters[p := SecondCheck(j)];
          }
      }
    }

    /** The part of `post` that holds the lock. */
    method PostLocked(p: nat) returns (threw: bool)
      requires p in posters && HoldsLock(posters[p])
      modifies this`posters, this`fates, this`workerMtx, this`workerIO, this`thread
      modifies this`accepted, this`stamps, this`round
      ensures View() == PosterNext(old(View()), p)
      ensures threw <==> old(workerStop) && old(posters)[p].SecondCheck?
    {
      threw := false;
      match posters[p] {
        case SecondCheck(j) =>
          if workerStop {
            threw := true;
            workerMtx := Free;
            Reject(p, j);
          } else {
            posters := posters[p := Enqueueing(j)];
          }
        case Enqueueing(j) => Enqueue(p, j);
        case Notifying(j, i) =>
          posters := posters[p := Unlocking(j, i)];
          NotifyAll();
        case Unlocking(j, i) =>
          workerMtx := Free;
          posters := posters[p := Idle];
          fates := fates[j.ticket := Returned(i)];
      }
    }

    /** The caller leaves with an exception. */
    method Reject(p: nat, j: Job<T>)
      modifies this`posters, this`fates
      ensures posters == old(posters)[p := Idle] && fates == old(fates)[j.ticket := Rejected]
    {
      posters := posters[p := Idle];
      fates := fates[j.ticket := Rejected];
    }

    method Enqueue(p: nat, j: Job<T>)
      modifies this`posters, this`fates, this`workerIO, this`accepted, this`stamps
      ensures posters == old(posters)[p := Notifying(j, |old(accepted)|)]
      ensures fates == old(fates)[j.ticket := Accepted(|old(accepted)|, p)]
      ensures workerIO == old(workerIO) + [j] && accepted == old(accepted) + [j]
      ensures stamps == old(stamps) + [Stamp(round, thread)]
    {
      workerIO := workerIO + [j];
      posters := posters[p := Notifying(j, |accepted|)];
      fates := fates[j.ticket := Accepted(|accepted|, p)];
      accepted := accepted + [j];
      stamps := stamps + [Stamp(round, thread)];
    }

    /** The next atomic step of the destructor. */
    method DestructorStep()
      modifies this
      ensures View() == Step(old(View()), DtorStep)
    {
      match destructor {
        case NotStarted =>
          workerStop, destructor := true, StopSet;
        case StopSet =>
          if workerMtx == Free { workerMtx, destructor := ByDtor, DtorLocked; }
        case DtorLocked =>
          dtorSaw := Some(thread);
          destructor := Notified;
          NotifyAll();
        case Notified =>
          workerMtx, destructor := Free, Joining;
        case Joining =>
          if thread == Exited { destructor := Joined; }
        case Joined =>
      }
    }

    /** One scheduled step, whichever thread's it is; `threw` reports an exception out of `post`. */
    method Take(a: Action<T>) returns (threw: bool)
      requires Valid()
      modifies this
      ensures Valid() && history == Then(old(history), a) && View() == Step(old(View()), a)
      ensures threw <==>
              a.PosterStep? && old(workerStop) &&
              (old(View()).PosterAt(a.poster).FirstCheck? || old(View()).PosterAt(a.poster).SecondCheck?)
    {
      ExecIs(history, a);
      hide Exec, Step;
      threw := false;
      match a {
        case WorkerStep => LoopStep();
        case Spurious => SpuriousWakeup();
        case Call(p, payload) => BeginPost(p, payload);
        case PosterStep(p) => threw := PostStep(p);
        case DtorStep => DestructorStep();
      }
      history := Then(old(history), a);
    }
  }
}
