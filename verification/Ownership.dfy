/**
 Who keeps whom alive: endpoints hold the shared worker, function objects waiting to run
 or being posted hold their endpoint, and the map from bus to worker holds nothing.  A
 worker's destructor starts once no live endpoint refers to it.
 */
module Ownership {
  import opened Types
  import W = WorkerProtocol

  type WorkerState = W.State<nat>   // a job's payload is the endpoint it belongs to

  /** The references held from outside the worker, and the worker the endpoint was given. */
  datatype Handle = Handle(refs: nat, worker: nat)

  datatype Net = Net(workers: seq<WorkerState>, shared: Option<nat>, endpoints: map<nat, Handle>)

  datatype NetAction =
    | CreateEndpoint(endpoint: nat)
    | Copy(endpoint: nat)
    | Release(endpoint: nat)
    | Post(endpoint: nat, poster: nat)
    | Thread(worker: nat, step: W.Action<nat>)
    | Destroy(worker: nat)

  const EMPTY := Net([], None, map[])

  function HeldByQueue(running: Option<W.Job<nat>>, queue: seq<W.Job<nat>>): set<nat> {
    set j | j in AsSeq(running) + queue :: j.payload
  }

  function HeldByPosters(posters: map<nat, W.PosterPc<nat>>): set<nat> {
    set p | p in posters && !posters[p].Idle? :: posters[p].job.payload
  }

  /** The endpoints that a worker's function objects keep alive. */
  function Held(w: WorkerState): set<nat> {
    HeldByQueue(w.running, w.queue) + HeldByPosters(w.posters)
  }

  predicate Live(n: Net, e: nat) {
    e in n.endpoints &&
    (n.endpoints[e].refs > 0 ||
     (n.endpoints[e].worker < |n.workers| && e in Held(n.workers[n.endpoints[e].worker])))
  }

  ghost predicate Alive(n: Net, w: nat) {
    exists e :: e in n.endpoints && Live(n, e) && n.endpoints[e].worker == w
  }

  /** The step of a thread inside a worker: the loop, a spurious wake-up, or a caller of `post`. */
  predicate IsThreadStep(a: W.Action<nat>) {
    a.WorkerStep? || a.Spurious? || a.PosterStep?
  }

  ghost function Step(n: Net, a: NetAction): Net {
    match a
    case CreateEndpoint(e) =>
      if e in n.endpoints then n
      else if n.shared.Some? && Alive(n, n.shared.value) then
        n.(endpoints := n.endpoints[e := Handle(1, n.shared.value)])
      else
        Net(n.workers + [W.Init()], Some(|n.workers|), n.endpoints[e := Handle(1, |n.workers|)])
    case Copy(e) =>
      if Live(n, e) then n.(endpoints := n.endpoints[e := n.endpoints[e].(refs := n.endpoints[e].refs + 1)]) else n
    case Release(e) =>
      if e in n.endpoints && n.endpoints[e].refs > 0
      then n.(endpoints := n.endpoints[e := n.endpoints[e].(refs := n.endpoints[e].refs - 1)]) else n
    case Post(e, p) =>
      if e in n.endpoints && n.endpoints[e].refs > 0 && n.endpoints[e].worker < |n.workers|
      then Update(n, n.endpoints[e].worker, W.Call(p, e)) else n
    case Thread(w, s) => if w < |n.workers| && IsThreadStep(s) then Update(n, w, s) else n
    case Destroy(w) => if w < |n.workers| && !Alive(n, w) then Update(n, w, W.DtorStep) else n
  }

  function Update(n: Net, w: nat, a: W.Action<nat>): Net
    requires w < |n.workers|
  {
    n.(workers := n.workers[w := W.Step(n.workers[w], a)])
  }

  ghost function Exec(run: Run<NetAction>): Net {
    match run
    case Start => EMPTY
    case Then(before, a) => Step(Exec(before), a)
  }

  /** The steps that are a step of one worker. */
  lemma StepIsUpdate(n: Net, w: nat, e: nat, p: nat, a: W.Action<nat>)
    requires w < |n.workers|
    ensures e in n.endpoints && n.endpoints[e].refs > 0 && n.endpoints[e].worker == w ==>
              Step(n, Post(e, p)) == Update(n, w, W.Call(p, e))
    ensures IsThreadStep(a) ==> Step(n, Thread(w, a)) == Update(n, w, a)
    ensures !Alive(n, w) ==> Step(n, Destroy(w)) == Update(n, w, W.DtorStep)
  {
    hide Update, Alive;
  }

  lemma ExecIs(run: Run<NetAction>, a: NetAction)
    ensures Exec(Start) == EMPTY && Exec(Then(run, a)) == Step(Exec(run), a)
  {
    hide Step;
  }

  // ------------------------------------------------------------ invariants

  ghost predicate Inv(n: Net) {
    && (n.shared.Some? ==> n.shared.value < |n.workers|)
    && (forall e :: e in n.endpoints ==> n.endpoints[e].worker < |n.workers|)
    && (forall w :: 0 <= w < |n.workers| ==> WorkerInv(n, w))
    && (forall e :: e in n.endpoints && Live(n, e) ==> n.shared == Some(n.endpoints[e].worker))
  }

  ghost predicate WorkerInv(n: Net, w: nat)
    requires w < |n.workers|
  {
    && W.Inv(n.workers[w])
    && (forall e :: e in Held(n.workers[w]) ==> e in n.endpoints && n.endpoints[e].worker == w)
    && (n.workers[w].stop ==>
         && Held(n.workers[w]) == {}
         && forall e :: e in n.endpoints && n.endpoints[e].worker == w ==> n.endpoints[e].refs == 0)
    && (forall t :: t in n.workers[w].fates ==> !n.workers[w].fates[t].Rejected?)
  }

  lemma PosterMoves(posters: map<nat, W.PosterPc<nat>>, p: nat, pc: W.PosterPc<nat>)
    requires p in posters && !posters[p].Idle?
    ensures pc.Idle? || pc.job == posters[p].job ==>
              HeldByPosters(posters[p := pc]) <= HeldByPosters(posters)
    ensures posters[p].job.payload in HeldByPosters(posters)
  {
  }

  lemma WorkerHeldShrinks(w: WorkerState)
    ensures Held(W.WorkerNext(w)) <= Held(w)
  {
    var t := W.WorkerNext(w);
    W.WorkerFrame(w);
    W.OffQueue(w);
    assert forall j :: j in AsSeq(t.running) + t.queue ==> j in AsSeq(w.running) + w.queue by {
      hide W.WorkerNext;
    }
    hide W.WorkerNext;
  }

  lemma QueueGrows(running: Option<W.Job<nat>>, queue: seq<W.Job<nat>>, j: W.Job<nat>)
    ensures HeldByQueue(running, queue + [j]) == HeldByQueue(running, queue) + {j.payload}
  {
    assert forall x :: x in AsSeq(running) + (queue + [j]) <==> x in AsSeq(running) + queue || x == j;
    assert j in AsSeq(running) + (queue + [j]);
  }

  lemma PosterHeldShrinks(w: WorkerState, p: nat)
    ensures Held(W.PosterNext(w, p)) <= Held(w)
  {
    hide HeldByPosters, HeldByQueue;
    match w.PosterAt(p)
    case Idle =>
    case FirstCheck(j) => PosterMoves(w.posters, p, W.Idle); PosterMoves(w.posters, p, W.WantLock(j));
    case WantLock(j) => PosterMoves(w.posters, p, W.SecondCheck(j));
    case SecondCheck(j) => PosterMoves(w.posters, p, W.Idle); PosterMoves(w.posters, p, W.Enqueueing(j));
    case Enqueueing(j) =>
      PosterMoves(w.posters, p, W.Notifying(j, |w.accepted|));
      QueueGrows(w.running, w.queue, j);
    case Notifying(j, i) => PosterMoves(w.posters, p, W.Unlocking(j, i));
    case Unlocking(j, i) => PosterMoves(w.posters, p, W.Idle);
  }

  lemma HeldShrinks(w: WorkerState, a: W.Action<nat>)
    requires IsThreadStep(a) || a.DtorStep?
    ensures Held(W.Step(w, a)) <= Held(w)
  {
    match a
    case WorkerStep => WorkerHeldShrinks(w);
    case PosterStep(p) => PosterHeldShrinks(w, p);
    case _ =>
  }

  lemma CallHolds(w: WorkerState, p: nat, e: nat)
    ensures Held(W.Step(w, W.Call(p, e))) <= Held(w) + {e}
  {
  }

  // ------------------------------------------------------------ every step keeps the invariant

  lemma ThreadKeepsStop(w: WorkerState, a: W.Action<nat>)
    requires IsThreadStep(a) || a.Call?
    ensures W.Step(w, a).stop == w.stop
  {
    if a.WorkerStep? { W.WorkerFrame(w); }
  }

  lemma NoRejection(w: WorkerState, a: W.Action<nat>)
    requires W.Inv(w) && (w.stop ==> Held(w) == {})
    requires forall t :: t in w.fates ==> !w.fates[t].Rejected?
    requires a.Call? ==> !w.stop
    ensures forall t :: t in W.Step(w, a).fates ==> !W.Step(w, a).fates[t].Rejected?
  {
    match a
    case WorkerStep => FatesStay(w);
    case PosterStep(p) =>
      if w.stop {
        assert w.PosterAt(p) == W.Idle by {
          if p in w.posters && !w.posters[p].Idle? { PosterMoves(w.posters, p, W.Idle); }
        }
      }
      forall t | t in W.Step(w, a).fates ensures !W.Step(w, a).fates[t].Rejected? {
        if W.PosterNext(w, p).fates[t].Rejected? { W.RejectionSeesStop(w, p, t); }
      }
    case _ =>
  }

  lemma FatesStay(w: WorkerState)
    ensures W.WorkerNext(w).fates == w.fates
  {
  }

  /** A step inside one worker, other than its destructor's, may only make fewer endpoints live. */
  lemma ThreadKeepsInv(n: Net, w: nat, a: W.Action<nat>)
    requires Inv(n) && w < |n.workers| && IsThreadStep(a)
    ensures Inv(Update(n, w, a))
  {
    hide W.Step, W.Inv, Held;
    var t := Update(n, w, a);
    assert WorkerInv(n, w);
    HeldShrinks(n.workers[w], a);
    ThreadKeepsStop(n.workers[w], a);
    NoRejection(n.workers[w], a);
    W.StepKeepsInv(n.workers[w], a);
    assert WorkerInv(t, w);
    forall v | 0 <= v < |t.workers| ensures WorkerInv(t, v) {
      assert WorkerInv(n, v);
    }
    forall e | e in t.endpoints && Live(t, e) ensures t.shared == Some(t.endpoints[e].worker) {
      assert Live(n, e);
    }
  }

  lemma PostKeepsInv(n: Net, w: nat, p: nat, e: nat)
    requires Inv(n) && e in n.endpoints && n.endpoints[e].refs > 0 && n.endpoints[e].worker == w < |n.workers|
    ensures Inv(Update(n, w, W.Call(p, e)))
  {
    hide W.Step, W.Inv, Held;
    var a := W.Call(p, e);
    var t := Update(n, w, a);
    assert WorkerInv(n, w);
    CallHolds(n.workers[w], p, e);
    ThreadKeepsStop(n.workers[w], a);
    NoRejection(n.workers[w], a);
    W.StepKeepsInv(n.workers[w], a);
    assert WorkerInv(t, w);
    forall v | 0 <= v < |t.workers| ensures WorkerInv(t, v) {
      assert WorkerInv(n, v);
    }
    forall x | x in t.endpoints && Live(t, x) ensures t.shared == Some(t.endpoints[x].worker) {
      assert Live(n, x);
    }
  }

  /**
   Whatever a worker's function objects hold, or outside references keep, makes the worker alive and the shared
   one.
   */
  lemma InUse(n: Net, w: nat, e: nat)
    requires Inv(n) && w < |n.workers|
    requires e in Held(n.workers[w]) || (e in n.endpoints && n.endpoints[e].worker == w && n.endpoints[e].refs > 0)
    ensures Alive(n, w) && n.shared == Some(w)
  {
    assert WorkerInv(n, w);
    assert Live(n, e);
  }

  lemma InUseAtAll(n: Net, w: nat)
    requires Inv(n) && w < |n.workers|
    ensures Held(n.workers[w]) != {} ==> Alive(n, w) && n.shared == Some(w)
    ensures forall e :: e in n.endpoints && n.endpoints[e].worker == w && n.endpoints[e].refs > 0 ==> Alive(n, w)
  {
    hide Inv, Alive, Held;
    if Held(n.workers[w]) != {} {
      var e :| e in Held(n.workers[w]);
      InUse(n, w, e);
    }
    forall e | e in n.endpoints && n.endpoints[e].worker == w && n.endpoints[e].refs > 0 ensures Alive(n, w) {
      InUse(n, w, e);
    }
  }

  lemma DestroyKeepsInv(n: Net, w: nat)
    requires Inv(n) && w < |n.workers| && !Alive(n, w)
    ensures Inv(Update(n, w, W.DtorStep))
  {
    hide W.Step, W.Inv, Held, Alive;
    InUseAtAll(n, w);
    var t := Update(n, w, W.DtorStep);
    assert WorkerInv(n, w);
    HeldShrinks(n.workers[w], W.DtorStep);
    NoRejection(n.workers[w], W.DtorStep);
    W.StepKeepsInv(n.workers[w], W.DtorStep);
    assert WorkerInv(t, w);
    forall v | 0 <= v < |t.workers| ensures WorkerInv(t, v) {
      assert WorkerInv(n, v);
    }
    forall e | e in t.endpoints && Live(t, e) ensures t.shared == Some(t.endpoints[e].worker) {
      assert Live(n, e);
    }
  }

  lemma FreshWorker()
    ensures W.Inv(W.Init<nat>()) && Held(W.Init<nat>()) == {} && !W.Init<nat>().stop && W.Init<nat>().fates == map[]
  {
  }

  lemma CreateKeepsInv(n: Net, e: nat)
    requires Inv(n) && e !in n.endpoints
    ensures Inv(Step(n, CreateEndpoint(e)))
  {
    hide W.Inv, Held, W.Init;
    FreshWorker();
    var t := Step(n, CreateEndpoint(e));
    forall v | 0 <= v < |t.workers| ensures WorkerInv(t, v) {
      if v < |n.workers| {
        assert WorkerInv(n, v);
        if n.shared == Some(v) && Alive(n, v) {
          var x :| x in n.endpoints && Live(n, x) && n.endpoints[x].worker == v;
        }
      }
    }
    forall x | x in t.endpoints && Live(t, x) ensures t.shared == Some(t.endpoints[x].worker) {
      if x != e {
        assert Live(n, x);
        assert Alive(n, n.endpoints[x].worker);
      }
    }
  }

  lemma CountKeepsInv(n: Net, a: NetAction)
    requires Inv(n) && (a.Copy? || a.Release?)
    ensures Inv(Step(n, a))
  {
    hide W.Inv, Held;
    var t := Step(n, a);
    forall v | 0 <= v < |t.workers| ensures WorkerInv(t, v) {
      assert WorkerInv(n, v);
    }
    forall x | x in t.endpoints && Live(t, x) ensures t.shared == Some(t.endpoints[x].worker) {
      assert Live(n, x);
    }
  }

  lemma {:induction false} RunKeepsInv(run: Run<NetAction>)
    ensures Inv(Exec(run))
  {
    match run
    case Start =>
    case Then(before, a) =>
      hide Inv, Alive, W.Step;
      RunKeepsInv(before);
      var n := Exec(before);
      match a {
        case CreateEndpoint(e) => if e !in n.endpoints { CreateKeepsInv(n, e); }
        case Copy(_) => CountKeepsInv(n, a);
        case Release(_) => CountKeepsInv(n, a);
        case Post(e, p) =>
          if e in n.endpoints && n.endpoints[e].refs > 0 && n.endpoints[e].worker < |n.workers| {
            PostKeepsInv(n, n.endpoints[e].worker, p, e);
          }
        case Thread(w, s) => if w < |n.workers| && IsThreadStep(s) { ThreadKeepsInv(n, w, s); }
        case Destroy(w) => if w < |n.workers| && !Alive(n, w) { DestroyKeepsInv(n, w); }
      }
  }

  // ------------------------------------------------------------ references

  /** How often a reference to the endpoint has been copied. */
  ghost function Copies(run: Run<NetAction>, e: nat): nat {
    match run
    case Start => 0
    case Then(before, a) => Copies(before, e) + (if a == Copy(e) && Live(Exec(before), e) then 1 else 0)
  }

  /** How often one has been given up. */
  ghost function Releases(run: Run<NetAction>, e: nat): nat {
    match run
    case Start => 0
    case Then(before, a) =>
      var n := Exec(before);
      Releases(before, e) + (if a == Release(e) && e in n.endpoints && n.endpoints[e].refs > 0 then 1 else 0)
  }

  lemma HandleMoves(n: Net, a: NetAction, e: nat)
    requires e in n.endpoints
    ensures e in Step(n, a).endpoints
    ensures var h, t := n.endpoints[e], Step(n, a).endpoints[e];
            && t.worker == h.worker
            && t.refs == (if a == Copy(e) && Live(n, e) then h.refs + 1
                          else if a == Release(e) && h.refs > 0 then h.refs - 1 else h.refs)
  {
    hide Live, Alive, W.Init;
  }

  lemma HandleStarts(n: Net, a: NetAction, e: nat)
    requires e !in n.endpoints
    ensures e in Step(n, a).endpoints <==> a == CreateEndpoint(e)
    ensures a == CreateEndpoint(e) ==> Step(n, a).endpoints[e].refs == 1
  {
    hide Held, Alive, W.Init;
  }

  /** In every run an endpoint is referred to once for its creation and each copy, less what has been given up. */
  lemma {:induction false} ReferencesCounted(run: Run<NetAction>, e: nat)
    ensures var n := Exec(run);
            if e in n.endpoints then n.endpoints[e].refs + Releases(run, e) == 1 + Copies(run, e)
            else Copies(run, e) == 0 && Releases(run, e) == 0
  {
    match run
    case Start =>
    case Then(before, a) =>
      ReferencesCounted(before, e);
      hide Step, Held;
      if e in Exec(before).endpoints {
        HandleMoves(Exec(before), a, e);
      } else {
        HandleStarts(Exec(before), a, e);
      }
  }

  // ------------------------------------------------------------ the theorems

  /** All live endpoints share one worker, and that worker's stop flag is clear. */
  lemma SingleLiveWorker(run: Run<NetAction>, e: nat, f: nat)
    requires Live(Exec(run), e) && Live(Exec(run), f)
    ensures var n := Exec(run);
            var w := n.endpoints[e].worker;
            w == n.endpoints[f].worker && n.shared == Some(w) && w < |n.workers| && !n.workers[w].stop
  {
    RunKeepsInv(run);
    var n := Exec(run);
    assert WorkerInv(n, n.endpoints[e].worker);
  }

  /**
   Once a worker's stop flag is set, no job of it is queued or running and no caller is inside
   `post`; and no call of `post` through an endpoint has ever been rejected.
   */
  lemma StopFindsNothing(run: Run<NetAction>, w: nat)
    requires w < |Exec(run).workers|
    ensures var s := Exec(run).workers[w];
            && (s.stop ==> s.queue == [] && s.running == None && forall p :: p in s.posters ==> s.posters[p].Idle?)
            && (forall t :: t in s.fates ==> !s.fates[t].Rejected?)
  {
    RunKeepsInv(run);
    var n := Exec(run);
    assert WorkerInv(n, w);
    hide Exec, Inv, Held;
    EverythingHolds(n.workers[w]);
  }

  lemma EverythingHolds(s: WorkerState)
    ensures s.running.Some? ==> s.running.value.payload in Held(s)
    ensures s.queue != [] ==> s.queue[0].payload in Held(s)
    ensures forall p :: p in s.posters && !s.posters[p].Idle? ==> s.posters[p].job.payload in Held(s)
  {
    if s.running.Some? { assert s.running.value in AsSeq(s.running) + s.queue; }
    if s.queue != [] { assert s.queue[0] in AsSeq(s.running) + s.queue; }
  }

  /** At most one worker has anything to do, so the commands of all endpoints run one after the other. */
  lemma OneWorkerWorks(run: Run<NetAction>, v: nat, w: nat)
    requires v < |Exec(run).workers| && w < |Exec(run).workers| && v != w
    ensures Held(Exec(run).workers[v]) == {} || Held(Exec(run).workers[w]) == {}
  {
    RunKeepsInv(run);
    hide Exec, Held, Inv;
    InUseAtAll(Exec(run), v);
    InUseAtAll(Exec(run), w);
  }
}
