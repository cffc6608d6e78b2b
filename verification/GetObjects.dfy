/**
 The discovery object: its reference count, the fetches it has started and the data they
 have brought, changed in place by the callbacks.  Proved against module ForkJoin.
 */
module ObjectGetter {
  import opened Types
  import opened Discovery
  import opened ForkJoin

  class GetObjects {
    const requested: seq<string>
    var refs: nat
    var creator: bool
    var mapper: Mapper
    var fetches: seq<Fetch>
    var respData: Response
    var delivered: seq<Response>

    ghost const limit: nat              // the retries asked for
    ghost var history: Run<Action>

    ghost function View(): State
      reads this
    {
      State(requested, refs, creator, mapper, fetches, respData, delivered)
    }

    /** The object is where its history takes the machine, so what holds of every run holds of the object. */
    ghost predicate Valid()
      reads this
    {
      View() == Exec(requested, limit, history)
    }

    lemma Consistent()
      requires Valid()
      ensures refs == HeldRefs(View()) && |delivered| == (if AllSettled(View()) then 1 else 0)
    {
      RunKeepsInv(requested, limit, history);
      DeliversExactlyOnce(requested, limit, history);
    }

    /** Creates the object and makes the call to the object mapper. */
    constructor (interfaces: seq<string>, retries: nat)
      ensures Valid() && history == Start && requested == interfaces && limit == retries
      ensures View() == Init(interfaces, retries)
    {
      requested, limit, history := interfaces, retries, Start;
      refs, creator, fetches, respData, delivered := 2, true, [], map[], [];
      mapper := MapperCalling(if retries > MAX_RETRIES then MAX_RETRIES else retries);
    }

    /** Gives up one reference; the destructor hands the collected data to the callback. */
    method DropReference()
      modifies this`refs, this`delivered
      ensures View() == Unref(old(View()))
    {
      if refs > 0 {
        refs := refs - 1;
        if refs == 0 {
          delivered := delivered + [respData];
        }
      }
    }

    method CreatorDone()
      requires Valid()
      modifies this
      ensures Valid() && history == Then(old(history), CreatorReleases) && View() == Step(old(View()), CreatorReleases)
    {
      ExecIs(requested, limit, history, CreatorReleases);
      hide Exec;
      history := Then(history, CreatorReleases);
      if creator {
        creator := false;
        DropReference();
      }
    }

    method GetPath(key: Key)
      modifies this`refs, this`fetches
      ensures View() == old(View()).(refs := old(refs) + 1,
                                     fetches := old(fetches) + [Fetch(key, MAX_RETRIES, 1, Calling)])
    {
      refs := refs + 1;
      fetches := fetches + [Fetch(key, MAX_RETRIES, 1, Calling)];
    }

    method StartFetches(keys: seq<Key>)
      modifies this`refs, this`fetches
      ensures View() == old(View()).(refs := old(refs) + |keys|, fetches := old(fetches) + NewFetches(keys))
    {
      for i := 0 to |keys|
        invariant View() == old(View()).(refs := old(refs) + i, fetches := old(fetches) + NewFetches(keys[..i]))
      {
        GetPath(keys[i]);
        assert NewFetches(keys[..i + 1]) == NewFetches(keys[..i]) + [Fetch(keys[i], MAX_RETRIES, 1, Calling)];
      }
      assert keys[..|keys|] == keys;
    }

    method MapperReplied(tree: Option<SubTree>)
      requires Valid()
      modifies this
      ensures Valid() && history == Then(old(history), MapperReplies(tree))
      ensures View() == Step(old(View()), MapperReplies(tree))
    {
      ExecIs(requested, limit, history, MapperReplies(tree));
      hide Exec;
      history := Then(history, MapperReplies(tree));
      if !mapper.MapperCalling? { return; }
      match tree {
        case None =>
          if mapper.retries == 0 {
            mapper := MapperSettled;
            DropReference();
          } else {
            mapper := MapperBackoff(mapper.retries);
          }
        case Some(t) =>
          mapper := MapperSettled;
          var keys := Collect(t, requested);
          StartFetches(keys);
          DropReference();
      }
    }

    method MapperTimerDone(expired: bool)
      requires Valid()
      modifies this
      ensures Valid() && history == Then(old(history), MapperTimer(expired))
      ensures View() == Step(old(View()), MapperTimer(expired))
    {
      ExecIs(requested, limit, history, MapperTimer(expired));
      hide Exec;
      history := Then(history, MapperTimer(expired));
      if !mapper.MapperBackoff? || mapper.retries == 0 { return; }
      if !expired {
        mapper := MapperSettled;
        DropReference();
        return;
      }
      mapper := MapperCalling(if mapper.retries - 1 > MAX_RETRIES then MAX_RETRIES else mapper.retries - 1);
    }

    method SetFetch(i: nat, f: Fetch)
      requires i < |fetches|
      modifies this`fetches
      ensures View() == old(View()).(fetches := old(fetches)[i := f])
    {
      fetches := fetches[i := f];
    }

    method FetchReplied(i: nat, answer: Option<Data>)
      requires Valid()
      modifies this
      ensures Valid() && history == Then(old(history), FetchReplies(i, answer))
      ensures View() == Step(old(View()), FetchReplies(i, answer))
    {
      ExecIs(requested, limit, history, FetchReplies(i, answer));
      hide Exec;
      history := Then(history, FetchReplies(i, answer));
      if i >= |fetches| || fetches[i].phase != Calling { return; }
      match answer {
        case None =>
          if fetches[i].retries == 0 {
            SetFetch(i, fetches[i].(phase := Exhausted));
            DropReference();
          } else {
            SetFetch(i, fetches[i].(phase := Backoff));
          }
        case Some(data) =>
          respData := respData[fetches[i].key := data];
          SetFetch(i, fetches[i].(phase := Succeeded(data)));
          DropReference();
      }
    }

    method FetchTimerDone(i: nat, expired: bool)
      requires Valid()
      modifies this
      ensures Valid() && history == Then(old(history), FetchTimer(i, expired))
      ensures View() == Step(old(View()), FetchTimer(i, expired))
    {
      ExecIs(requested, limit, history, FetchTimer(i, expired));
      hide Exec;
      history := Then(history, FetchTimer(i, expired));
      if i >= |fetches| || fetches[i].phase != Backoff || fetches[i].retries == 0 { return; }
      if !expired {
        SetFetch(i, fetches[i].(phase := TimerFailed));
        DropReference();
        return;
      }
      var left := if fetches[i].retries - 1 > MAX_RETRIES then MAX_RETRIES else fetches[i].retries - 1;
      SetFetch(i, fetches[i].(phase := Calling, retries := left, attempts := fetches[i].attempts + 1));
    }
  }
}
