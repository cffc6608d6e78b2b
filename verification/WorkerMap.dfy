/**
 The endpoints and the map that lets them share a worker, as objects changed in place.
 Each method is proved against the step of module Ownership that it carries out.
 */
module WorkerSharing {
  import opened Types
  import opened Ownership
  import W = WorkerProtocol
  import opened WorkerThread

  /** A caller's next step reads the stop flag at one of its two checks, and finds it set. */
  predicate MayThrow(v: WorkerState, poster: nat) {
    v.stop && (v.PosterAt(poster).FirstCheck? || v.PosterAt(poster).SecondCheck?)
  }

  class WorkerMap {
    var workers: seq<Worker<nat>>
    var shared: Option<nat>             // the map's weak reference, under its only key
    var endpoints: map<nat, Handle>

    ghost var history: Run<NetAction>

    ghost function Views(): (v: seq<WorkerState>)
      reads this, workers
      ensures |v| == |workers| && forall i :: 0 <= i < |v| ==> v[i] == workers[i].View()
    {
      seq(|workers|, i requires 0 <= i < |workers| reads this, workers => workers[i].View())
    }

    ghost function View(): Net
      reads this, workers
    {
      Net(Views(), shared, endpoints)
    }

    /** The objects are where their history takes the machine, so what holds of every run holds of them. */
    ghost predicate Valid()
      reads this, workers
    {
      && (forall i, j :: 0 <= i < j < |workers| ==> workers[i] != workers[j])
      && (forall i :: 0 <= i < |workers| ==> workers[i].Valid())
      && View() == Exec(history)
    }

    /** In particular the ownership invariant holds of them. */
    lemma Consistent()
      requires Valid()
      ensures Inv(View())
    {
      RunKeepsInv(history);
    }

    lemma InRange(e: nat)
      requires Valid() && e in endpoints
      ensures endpoints[e].worker < |workers|
    {
      Consistent();
    }

    lemma StoppedIsIdle(w: nat, poster: nat)
      requires Valid() && w < |workers|
      ensures workers[w].View().stop ==> workers[w].View().PosterAt(poster) == W.Idle
    {
      var v := workers[w].View();
      Consistent();
      assert WorkerInv(View(), w);
      hide Exec, Held, W.Inv;
      EverythingHolds(v);
    }

    constructor ()
      ensures Valid() && history == Start && View() == EMPTY
    {
      workers, shared, endpoints, history := [], None, map[], Start;
    }

    /** A new endpoint takes the shared worker, or starts one if there is none or its last owner has gone. */
    method CreateEndpoint(e: nat, expired: bool)
      requires Valid() && e !in endpoints
      requires shared.Some? ==> (expired <==> !Alive(View(), shared.value))
      modifies this
      ensures Valid() && history == Then(old(history), NetAction.CreateEndpoint(e))
      ensures View() == Step(old(View()), NetAction.CreateEndpoint(e))
    {
      ExecIs(history, NetAction.CreateEndpoint(e));
      hide Exec, Worker.Valid, Worker.View;
      if shared == None || expired {
        var worker := new Worker<nat>();
        shared := Some(|workers|);
        endpoints := endpoints[e := Handle(1, |workers|)];
        workers := workers + [worker];
        assert Views() == old(Views()) + [W.Init()];
      } else {
        endpoints := endpoints[e := Handle(1, shared.value)];
        assert Views() == old(Views());
      }
      history := Then(history, NetAction.CreateEndpoint(e));
    }

    /** Another reference to a live endpoint. */
    method Copy(e: nat)
      requires Valid() && Live(View(), e)
      modifies this
      ensures Valid() && history == Then(old(history), NetAction.Copy(e))
      ensures View() == Step(old(View()), NetAction.Copy(e)) && workers == old(workers) && shared == old(shared)
    {
      ExecIs(history, NetAction.Copy(e));
      hide Exec, Worker.Valid, Worker.View;
      endpoints := endpoints[e := endpoints[e].(refs := endpoints[e].refs + 1)];
      assert Views() == old(Views());
      history := Then(history, NetAction.Copy(e));
    }

    /** A reference is given up; no worker is touched, for the map does not own one. */
    method Release(e: nat)
      requires Valid() && e in endpoints && endpoints[e].refs > 0
      modifies this
      ensures Valid() && history == Then(old(history), NetAction.Release(e))
      ensures View() == Step(old(View()), NetAction.Release(e)) && workers == old(workers) && shared == old(shared)
    {
      ExecIs(history, NetAction.Release(e));
      hide Exec, Worker.Valid, Worker.View;
      endpoints := endpoints[e := endpoints[e].(refs := endpoints[e].refs - 1)];
      assert Views() == old(Views());
      history := Then(history, NetAction.Release(e));
    }

    /** The object of one worker takes a step, the others stay. */
    method StepObject(w: nat, a: W.Action<nat>) returns (threw: bool)
      requires w < |workers|
      requires forall i, j :: 0 <= i < j < |workers| ==> workers[i] != workers[j]
      requires forall i :: 0 <= i < |workers| ==> workers[i].Valid()
      modifies workers[w]
      ensures forall i :: 0 <= i < |workers| ==> workers[i].Valid()
      ensures View() == Update(old(View()), w, a)
      ensures threw <==> a.PosterStep? && MayThrow(old(workers[w].View()), a.poster)
    {
      hide Worker.Valid, W.Step;
      threw := workers[w].Take(a);
      assert Views() == old(Views())[w := W.Step(old(Views())[w], a)];
    }

    /** A step of the machine that is one of a single worker. */
    method StepWorker(w: nat, a: W.Action<nat>, ghost b: NetAction) returns (threw: bool)
      requires Valid() && w < |workers| && Step(View(), b) == Update(View(), w, a)
      modifies this`history, workers
      ensures Valid() && history == Then(old(history), b) && View() == Step(old(View()), b)
      ensures threw <==> a.PosterStep? && MayThrow(old(workers[w].View()), a.poster)
    {
      ExecIs(history, b);
      hide Exec, Step, Update, Worker.Valid, Worker.View, Views;
      threw := StepObject(w, a);
      history := Then(history, b);
    }

    /** A call of `post` through an endpoint that the caller holds. */
    method Post(e: nat, poster: nat)
      requires Valid() && e in endpoints && endpoints[e].refs > 0
      modifies this`history, workers
      ensures Valid() && history == Then(old(history), NetAction.Post(e, poster))
      ensures View() == Step(old(View()), NetAction.Post(e, poster))
    {
      hide Exec, Step, Update, Valid, Views;
      InRange(e);
      StepIsUpdate(View(), endpoints[e].worker, e, poster, W.WorkerStep);
      var threw := StepWorker(endpoints[e].worker, W.Call(poster, e), NetAction.Post(e, poster));
    }

    /** A step of a caller inside `post`; it never throws. */
    method PostStep(w: nat, poster: nat) returns (threw: bool)
      requires Valid() && w < |workers|
      modifies this`history, workers
      ensures Valid() && history == Then(old(history), Thread(w, W.PosterStep(poster)))
      ensures View() == Step(old(View()), Thread(w, W.PosterStep(poster)))
      ensures !threw
    {
      hide Exec, Step, Update, Valid, Views;
      StoppedIsIdle(w, poster);
      StepIsUpdate(View(), w, 0, poster, W.PosterStep(poster));
      threw := StepWorker(w, W.PosterStep(poster), Thread(w, W.PosterStep(poster)));
    }

    method LoopStep(w: nat)
      requires Valid() && w < |workers|
      modifies this`history, workers
      ensures Valid() && history == Then(old(history), Thread(w, W.WorkerStep))
      ensures View() == Step(old(View()), Thread(w, W.WorkerStep))
    {
      hide Exec, Step, Update, Valid, Views;
      StepIsUpdate(View(), w, 0, 0, W.WorkerStep);
      var threw := StepWorker(w, W.WorkerStep, Thread(w, W.WorkerStep));
    }

    method SpuriousWakeup(w: nat)
      requires Valid() && w < |workers|
      modifies this`history, workers
      ensures Valid() && history == Then(old(history), Thread(w, W.Spurious))
      ensures View() == Step(old(View()), Thread(w, W.Spurious))
    {
      hide Exec, Step, Update, Valid, Views;
      StepIsUpdate(View(), w, 0, 0, W.Spurious);
      var threw := StepWorker(w, W.Spurious, Thread(w, W.Spurious));
    }

    /** A step of the destructor of a worker that nobody owns any more. */
    method DestructorStep(w: nat)
      requires Valid() && w < |workers| && !Alive(View(), w)
      modifies this`history, workers
      ensures Valid() && history == Then(old(history), Destroy(w))
      ensures View() == Step(old(View()), Destroy(w))
    {
      hide Exec, Step, Update, Valid, Views;
      StepIsUpdate(View(), w, 0, 0, W.Spurious);
      var threw := StepWorker(w, W.DtorStep, Destroy(w));
    }
  }
}
