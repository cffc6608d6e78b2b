/**
 The shared object of one discovery: every call and timer in flight holds a reference,
 and the release of the last reference delivers what has been collected.
 */
module ForkJoin {
  import opened Types
  import opened Discovery

  datatype Phase =
    | Calling
    | Backoff
    | Succeeded(data: Data)
    | Exhausted        // failed with no retry left
    | TimerFailed      // the back-off timer reported an error

  datatype Fetch = Fetch(key: Key, retries: nat, attempts: nat, phase: Phase)

  /** The call to the object mapper. */
  datatype Mapper = MapperCalling(retries: nat) | MapperBackoff(retries: nat) | MapperSettled

  datatype State = State(
    requested: seq<string>,
    refs: nat,
    creator: bool,
    mapper: Mapper,
    fetches: seq<Fetch>,
    respData: Response,
    delivered: seq<Response>)

  datatype Action =
    | CreatorReleases
    | MapperReplies(tree: Option<SubTree>)
    | MapperTimer(expired: bool)
    | FetchReplies(fetch: nat, answer: Option<Data>)
    | FetchTimer(fetch: nat, expired: bool)

  function Clamp(retries: nat): nat {
    if retries > MAX_RETRIES then MAX_RETRIES else retries
  }

  /** The creator holds one reference and the mapper call another. */
  function Init(requested: seq<string>, retries: nat): State {
    State(requested, 2, true, MapperCalling(Clamp(retries)), [], map[], [])
  }

  /** Lets go of one reference; the last one runs the callback. */
  function Unref(s: State): State {
    if s.refs == 0 then s
    else if s.refs == 1 then s.(refs := 0, delivered := s.delivered + [s.respData])
    else s.(refs := s.refs - 1)
  }

  function NewFetches(keys: seq<Key>): seq<Fetch> {
    seq(|keys|, i requires 0 <= i < |keys| => Fetch(keys[i], MAX_RETRIES, 1, Calling))
  }

  function SetPhase(s: State, i: nat, p: Phase): State
    requires i < |s.fetches|
  {
    s.(fetches := s.fetches[i := s.fetches[i].(phase := p)])
  }

  function OnMapper(s: State, answer: Option<SubTree>): State {
    if !s.mapper.MapperCalling? then s else
    match answer
    case None =>
      if s.mapper.retries == 0 then Unref(s.(mapper := MapperSettled))
      else s.(mapper := MapperBackoff(s.mapper.retries))
    case Some(tree) =>
      var keys := Spawned(tree, s.requested);
      Unref(s.(mapper := MapperSettled, fetches := s.fetches + NewFetches(keys), refs := s.refs + |keys|))
  }

  function OnFetch(s: State, i: nat, answer: Option<Data>): State {
    if i >= |s.fetches| || s.fetches[i].phase != Calling then s else
    match answer
    case None =>
      if s.fetches[i].retries == 0 then Unref(SetPhase(s, i, Exhausted)) else SetPhase(s, i, Backoff)
    case Some(d) =>
      Unref(SetPhase(s, i, Succeeded(d)).(respData := s.respData[s.fetches[i].key := d]))
  }

  function OnFetchTimer(s: State, i: nat, expired: bool): State {
    if i >= |s.fetches| || s.fetches[i].phase != Backoff || s.fetches[i].retries == 0 then s
    else if !expired then Unref(SetPhase(s, i, TimerFailed))
    else
      var f := s.fetches[i];
      s.(fetches := s.fetches[i := f.(phase := Calling, retries := Clamp(f.retries - 1), attempts := f.attempts + 1)])
  }

  function Step(s: State, a: Action): State {
    match a
    case CreatorReleases => if s.creator then Unref(s.(creator := false)) else s
    case MapperReplies(answer) => OnMapper(s, answer)
    case MapperTimer(expired) =>
      if !s.mapper.MapperBackoff? || s.mapper.retries == 0 then s
      else if expired then s.(mapper := MapperCalling(Clamp(s.mapper.retries - 1)))
      else Unref(s.(mapper := MapperSettled))
    case FetchReplies(i, answer) => OnFetch(s, i, answer)
    case FetchTimer(i, expired) => OnFetchTimer(s, i, expired)
  }

  function Exec(requested: seq<string>, retries: nat, run: Run<Action>): State {
    match run
    case Start => Init(requested, retries)
    case Then(before, a) => Step(Exec(requested, retries, before), a)
  }

  lemma ExecIs(requested: seq<string>, retries: nat, run: Run<Action>, a: Action)
    ensures Exec(requested, retries, Start) == Init(requested, retries)
    ensures Exec(requested, retries, Then(run, a)) == Step(Exec(requested, retries, run), a)
  {
    hide Step, Init;
  }

  // ------------------------------------------------------------ counting references

  predicate Outstanding(f: Fetch) {
    f.phase == Calling || f.phase == Backoff
  }

  function CountOutstanding(fs: seq<Fetch>): (n: nat)
    ensures n == 0 <==> forall i :: 0 <= i < |fs| ==> !Outstanding(fs[i])
  {
    if fs == [] then 0 else (if Outstanding(fs[0]) then 1 else 0) + CountOutstanding(fs[1..])
  }

  function HeldRefs(s: State): nat {
    (if s.creator then 1 else 0) + (if s.mapper == MapperSettled then 0 else 1) + CountOutstanding(s.fetches)
  }

  /** The work still possible for one fetch: it falls with every reply and every timer. */
  function FetchWork(f: Fetch): nat {
    match f.phase
    case Calling => 2 * f.retries + 1
    case Backoff => 2 * f.retries
    case _ => 0
  }

  function SumWork(fs: seq<Fetch>): nat {
    if fs == [] then 0 else FetchWork(fs[0]) + SumWork(fs[1..])
  }

  function MapperWork(m: Mapper): nat {
    match m
    case MapperCalling(r) => 2 * r + 2
    case MapperBackoff(r) => 2 * r + 1
    case MapperSettled => 0
  }

  lemma {:induction false} CountUpdate(fs: seq<Fetch>, i: nat, f: Fetch)
    requires i < |fs|
    ensures CountOutstanding(fs[i := f]) + (if Outstanding(fs[i]) then 1 else 0) ==
            CountOutstanding(fs) + (if Outstanding(f) then 1 else 0)
    ensures SumWork(fs[i := f]) + FetchWork(fs[i]) == SumWork(fs) + FetchWork(f)
  {
    if i == 0 {
      assert fs[i := f][1..] == fs[1..];
    } else {
      assert fs[i := f][1..] == fs[1..][i - 1 := f];
      CountUpdate(fs[1..], i - 1, f);
    }
  }

  lemma {:induction false} CountAppend(p: seq<Fetch>, q: seq<Fetch>)
    ensures CountOutstanding(p + q) == CountOutstanding(p) + CountOutstanding(q)
  {
    if p == [] {
      assert p + q == q;
    } else {
      assert (p + q)[1..] == p[1..] + q;
      CountAppend(p[1..], q);
    }
  }

  lemma {:induction false} CountNew(keys: seq<Key>)
    ensures CountOutstanding(NewFetches(keys)) == |keys|
  {
    if keys != [] {
      assert NewFetches(keys)[1..] == NewFetches(keys[1..]);
      CountNew(keys[1..]);
    }
  }

  // ------------------------------------------------------------ invariant

  /** References counted exactly; delivery happens with the release of the last one, and only then. */
  ghost predicate RefInv(s: State) {
    && s.refs == HeldRefs(s)
    && s.delivered == (if s.refs == 0 then [s.respData] else [])
  }

  /** Six attempts in all, and a fetch gives up only after the sixth. */
  predicate AttemptsInv(f: Fetch) {
    && f.retries <= MAX_RETRIES && f.attempts + f.retries == MAX_RETRIES + 1
    && (f.phase == Exhausted ==> f.retries == 0)
    && (f.phase == Backoff ==> f.retries > 0)
  }

  predicate IsSuccess(f: Fetch, k: Key, d: Data) {
    f.key == k && f.phase == Succeeded(d)
  }

  /** Some fetch of this key has succeeded with this data. */
  ghost predicate HasSuccess(fs: seq<Fetch>, k: Key, d: Data) {
    exists i :: 0 <= i < |fs| && IsSuccess(fs[i], k, d)
  }

  ghost predicate FetchInv(fs: seq<Fetch>, resp: Response) {
    && (forall i :: 0 <= i < |fs| ==> AttemptsInv(fs[i]))
    && (forall i :: 0 <= i < |fs| && fs[i].phase.Succeeded? ==> fs[i].key in resp)
    && (forall k :: k in resp ==> HasSuccess(fs, k, resp[k]))
  }

  ghost predicate MapperInv(m: Mapper) {
    m.MapperBackoff? ==> m.retries > 0
  }

  lemma Released(s: State)
    requires s.refs == HeldRefs(s) + 1 && s.delivered == []
    ensures RefInv(Unref(s))
  {
    hide CountOutstanding;
  }

  lemma MapperKeepsRefs(s: State, tree: Option<SubTree>)
    requires RefInv(s)
    ensures RefInv(OnMapper(s, tree))
  {
    hide Unref, Spawned;
    if s.mapper.MapperCalling? {
      match tree {
        case None => if s.mapper.retries == 0 { Released(s.(mapper := MapperSettled)); }
        case Some(t) =>
          var keys := Spawned(t, s.requested);
          CountAppend(s.fetches, NewFetches(keys));
          CountNew(keys);
          Released(s.(mapper := MapperSettled, fetches := s.fetches + NewFetches(keys), refs := s.refs + |keys|));
      }
    }
  }

  lemma FetchKeepsRefs(s: State, i: nat, answer: Option<Data>)
    requires RefInv(s)
    ensures RefInv(OnFetch(s, i, answer))
  {
    hide Unref;
    if i < |s.fetches| && s.fetches[i].phase == Calling {
      var f := s.fetches[i];
      match answer {
        case None =>
          CountUpdate(s.fetches, i, f.(phase := Exhausted));
          CountUpdate(s.fetches, i, f.(phase := Backoff));
          if f.retries == 0 { Released(SetPhase(s, i, Exhausted)); }
        case Some(d) =>
          CountUpdate(s.fetches, i, f.(phase := Succeeded(d)));
          Released(SetPhase(s, i, Succeeded(d)).(respData := s.respData[f.key := d]));
      }
    }
  }

  lemma TimerKeepsRefs(s: State, i: nat, expired: bool)
    requires RefInv(s)
    ensures RefInv(OnFetchTimer(s, i, expired))
  {
    hide Unref;
    if i < |s.fetches| && s.fetches[i].phase == Backoff && s.fetches[i].retries > 0 {
      var f := s.fetches[i];
      if expired {
        CountUpdate(s.fetches, i, f.(phase := Calling, retries := Clamp(f.retries - 1), attempts := f.attempts + 1));
      } else {
        CountUpdate(s.fetches, i, f.(phase := TimerFailed));
        Released(SetPhase(s, i, TimerFailed));
      }
    }
  }

  lemma StepKeepsRefs(s: State, a: Action)
    requires RefInv(s)
    ensures RefInv(Step(s, a))
  {
    match a
    case CreatorReleases => if s.creator { Released(s.(creator := false)); }
    case MapperReplies(tree) => MapperKeepsRefs(s, tree);
    case MapperTimer(expired) =>
      if s.mapper.MapperBackoff? && s.mapper.retries > 0 && !expired { Released(s.(mapper := MapperSettled)); }
    case FetchReplies(i, answer) => FetchKeepsRefs(s, i, answer);
    case FetchTimer(i, expired) => TimerKeepsRefs(s, i, expired);
  }

  lemma SuccessStays(fs: seq<Fetch>, gs: seq<Fetch>, k: Key, d: Data)
    requires HasSuccess(fs, k, d) && |fs| <= |gs|
    requires forall i :: 0 <= i < |fs| && fs[i].phase.Succeeded? ==> gs[i] == fs[i]
    ensures HasSuccess(gs, k, d)
  {
    var i :| 0 <= i < |fs| && IsSuccess(fs[i], k, d);
    assert IsSuccess(gs[i], k, d);
  }

  lemma KeepOthers(fs: seq<Fetch>, resp: Response, i: nat, f: Fetch)
    requires FetchInv(fs, resp) && i < |fs| && !fs[i].phase.Succeeded? && !f.phase.Succeeded?
    requires AttemptsInv(f) && f.key == fs[i].key
    ensures FetchInv(fs[i := f], resp)
  {
    forall k | k in resp ensures HasSuccess(fs[i := f], k, resp[k]) {
      SuccessStays(fs, fs[i := f], k, resp[k]);
    }
  }

  lemma KeepSuccess(fs: seq<Fetch>, resp: Response, i: nat, d: Data)
    requires FetchInv(fs, resp) && i < |fs| && !fs[i].phase.Succeeded?
    ensures FetchInv(fs[i := fs[i].(phase := Succeeded(d))], resp[fs[i].key := d])
  {
    var gs, r := fs[i := fs[i].(phase := Succeeded(d))], resp[fs[i].key := d];
    forall k | k in r ensures HasSuccess(gs, k, r[k]) {
      if k == fs[i].key {
        assert IsSuccess(gs[i], k, r[k]);
      } else {
        SuccessStays(fs, gs, k, resp[k]);
      }
    }
  }

  lemma KeepAppended(fs: seq<Fetch>, resp: Response, keys: seq<Key>)
    requires FetchInv(fs, resp)
    ensures FetchInv(fs + NewFetches(keys), resp)
  {
    forall k | k in resp ensures HasSuccess(fs + NewFetches(keys), k, resp[k]) {
      SuccessStays(fs, fs + NewFetches(keys), k, resp[k]);
    }
  }

  lemma UnrefFrame(s: State)
    ensures Unref(s).fetches == s.fetches && Unref(s).respData == s.respData && Unref(s).mapper == s.mapper
            && Unref(s).creator == s.creator
  {
  }

  lemma StepKeepsFetches(s: State, a: Action)
    requires FetchInv(s.fetches, s.respData) && MapperInv(s.mapper)
    ensures var t := Step(s, a); FetchInv(t.fetches, t.respData) && MapperInv(t.mapper)
  {
    hide FetchInv;
    match a
    case MapperReplies(Some(tree)) => KeepAppended(s.fetches, s.respData, Spawned(tree, s.requested));
    case FetchReplies(i, answer) =>
      if i < |s.fetches| && s.fetches[i].phase == Calling {
        var f := s.fetches[i];
        FetchAt(s.fetches, s.respData, i);
        match answer {
          case None =>
            if f.retries == 0 { KeepOthers(s.fetches, s.respData, i, f.(phase := Exhausted)); }
            else { KeepOthers(s.fetches, s.respData, i, f.(phase := Backoff)); }
          case Some(d) => KeepSuccess(s.fetches, s.respData, i, d);
        }
      }
    case FetchTimer(i, expired) =>
      if i < |s.fetches| && s.fetches[i].phase == Backoff && s.fetches[i].retries > 0 {
        var f := s.fetches[i];
        FetchAt(s.fetches, s.respData, i);
        KeepOthers(s.fetches, s.respData, i, f.(phase := TimerFailed));
        KeepOthers(s.fetches, s.respData, i,
                   f.(phase := Calling, retries := Clamp(f.retries - 1), attempts := f.attempts + 1));
      }
    case _ =>
  }

  lemma FetchAt(fs: seq<Fetch>, resp: Response, i: nat)
    requires FetchInv(fs, resp) && i < |fs|
    ensures AttemptsInv(fs[i])
  {
  }

  lemma {:induction false} RunKeepsInv(requested: seq<string>, retries: nat, run: Run<Action>)
    ensures var s := Exec(requested, retries, run); RefInv(s) && FetchInv(s.fetches, s.respData) && MapperInv(s.mapper)
  {
    match run
    case Start =>
    case Then(before, a) =>
      hide FetchInv, RefInv, Step;
      RunKeepsInv(requested, retries, before);
      StepKeepsRefs(Exec(requested, retries, before), a);
      StepKeepsFetches(Exec(requested, retries, before), a);
  }

  // ------------------------------------------------------------ the theorems

  /** Nothing is left to wait for. */
  predicate AllSettled(s: State) {
    !s.creator && s.mapper == MapperSettled && forall i :: 0 <= i < |s.fetches| ==> !Outstanding(s.fetches[i])
  }

  /** The callback has run exactly when everything has settled, and then exactly once. */
  lemma DeliversExactlyOnce(requested: seq<string>, retries: nat, run: Run<Action>)
    ensures var s := Exec(requested, retries, run);
            |s.delivered| == (if AllSettled(s) then 1 else 0)
  {
    RunKeepsInv(requested, retries, run);
  }

  /** What is delivered is the data of the successful fetches: every success is there, and nothing else. */
  lemma DeliversSuccesses(requested: seq<string>, retries: nat, run: Run<Action>)
    requires Exec(requested, retries, run).delivered != []
    ensures var s := Exec(requested, retries, run);
            var m := s.delivered[0];
            && s.delivered == [m]
            && (forall i :: 0 <= i < |s.fetches| && s.fetches[i].phase.Succeeded? ==> s.fetches[i].key in m)
            && (forall k :: k in m ==> HasSuccess(s.fetches, k, m[k]))
            && (forall i :: 0 <= i < |s.fetches| ==>
                 && 1 <= s.fetches[i].attempts <= 6
                 && (s.fetches[i].phase.Succeeded? || s.fetches[i].phase.TimerFailed?
                     || (s.fetches[i].phase == Exhausted && s.fetches[i].attempts == 6)))
  {
    RunKeepsInv(requested, retries, run);
    DeliversExactlyOnce(requested, retries, run);
    hide Exec;
    var s := Exec(requested, retries, run);
    forall i | 0 <= i < |s.fetches|
      ensures 1 <= s.fetches[i].attempts <= 6
      ensures s.fetches[i].phase.Succeeded? || s.fetches[i].phase.TimerFailed?
              || (s.fetches[i].phase == Exhausted && s.fetches[i].attempts == 6)
    {
      assert AttemptsInv(s.fetches[i]);
      assert !Outstanding(s.fetches[i]);
    }
  }

  predicate DistinctKeys(fs: seq<Fetch>) {
    forall i, j :: 0 <= i < j < |fs| ==> fs[i].key != fs[j].key
  }

  /**
   When no two fetches share path and interface, the delivered map is exactly the successful fetches with their
   data.
   */
  lemma DeliversExactly(requested: seq<string>, retries: nat, run: Run<Action>, i: nat)
    requires Exec(requested, retries, run).delivered != [] && DistinctKeys(Exec(requested, retries, run).fetches)
    requires i < |Exec(requested, retries, run).fetches|
    ensures var s := Exec(requested, retries, run);
            var f := s.fetches[i];
            if f.phase.Succeeded? then f.key in s.delivered[0] && s.delivered[0][f.key] == f.phase.data
            else f.key !in s.delivered[0]
  {
    DeliversSuccesses(requested, retries, run);
    var s := Exec(requested, retries, run);
    hide Exec;
    var k, m := s.fetches[i].key, s.delivered[0];
    if k in m {
      assert HasSuccess(s.fetches, k, m[k]);
      var j :| 0 <= j < |s.fetches| && IsSuccess(s.fetches[j], k, m[k]);
      assert j == i;
    }
  }

  lemma KeysAreDistinct(path: string, interfaces: seq<string>)
    requires NoDuplicates(interfaces)
    ensures DistinctKeys(NewFetches(KeysFor(path, interfaces)))
    ensures forall k :: k in KeysFor(path, interfaces) ==> k.0 == path
  {
  }

  lemma AppendDistinct(here: seq<Key>, rest: seq<Key>, path: string)
    requires DistinctKeys(NewFetches(here)) && DistinctKeys(NewFetches(rest))
    requires forall k :: k in here ==> k.0 == path
    requires forall k :: k in rest ==> k.0 != path
    ensures DistinctKeys(NewFetches(here + rest))
  {
    var fs, gs, hs := NewFetches(here + rest), NewFetches(rest), NewFetches(here);
    forall i, j | 0 <= i < j < |fs| ensures fs[i].key != fs[j].key {
      if i >= |here| {
        assert gs[i - |here|].key != gs[j - |here|].key;
      } else if j >= |here| {
        assert (here + rest)[j] in rest && (here + rest)[i] in here;
      } else {
        assert hs[i].key != hs[j].key;
      }
    }
  }

  /** Every fetch is for a path of the answer. */
  lemma {:induction false} SpawnedPaths(tree: SubTree, requested: seq<string>)
    ensures forall k :: k in Spawned(tree, requested) ==> exists i :: 0 <= i < |tree| && tree[i].0 == k.0
  {
    if tree != [] && tree[0].1 != [] {
      SpawnedPaths(tree[1..], requested);
      SpawnedStep(tree, requested);
      var rest := Spawned(tree[1..], requested);
      hide Wanted, Spawned;
      forall k | k in Spawned(tree, requested) ensures exists i :: 0 <= i < |tree| && tree[i].0 == k.0 {
        if k in rest {
          var i :| 0 <= i < |tree[1..]| && tree[1..][i].0 == k.0;
          assert tree[i + 1].0 == k.0;
        } else {
          assert tree[0].0 == k.0;
        }
      }
    }
  }

  /** Distinct paths whose interfaces are listed without duplicates give fetches with distinct keys. */
  lemma {:induction false} SpawnedDistinct(tree: SubTree, requested: seq<string>)
    requires forall i, j :: 0 <= i < j < |tree| ==> tree[i].0 != tree[j].0
    requires forall i :: 0 <= i < |tree| && tree[i].1 != [] ==> NoDuplicates(tree[i].1[0].1)
    ensures DistinctKeys(NewFetches(Spawned(tree, requested)))
    ensures forall k :: k in Spawned(tree, requested) ==> exists i :: 0 <= i < |tree| && tree[i].0 == k.0
  {
    SpawnedPaths(tree, requested);
    if tree != [] && tree[0].1 != [] {
      var offered, rest := tree[0].1[0].1, Spawned(tree[1..], requested);
      SpawnedDistinct(tree[1..], requested);
      SpawnedPaths(tree[1..], requested);
      SpawnedStep(tree, requested);
      WantedNoDuplicates(offered, requested);
      KeysAreDistinct(tree[0].0, Wanted(offered, requested));
      hide Wanted, Spawned, NewFetches, DistinctKeys, KeysFor;
      forall k | k in rest ensures k.0 != tree[0].0 {
        var i :| 0 <= i < |tree[1..]| && tree[1..][i].0 == k.0;
        assert tree[i + 1].0 == k.0;
      }
      AppendDistinct(KeysFor(tree[0].0, Wanted(offered, requested)), rest, tree[0].0);
      assert [] + rest == rest;
    } else {
      SpawnedStops(tree, requested);
    }
  }

  // ------------------------------------------------------------ delivery told from the mapper's answer

  /** The mapper's answer that the discovery has gone by, if it has had one. */
  function Taken(requested: seq<string>, retries: nat, run: Run<Action>): Option<SubTree> {
    match run
    case Start => None
    case Then(before, a) =>
      if a.MapperReplies? && Exec(requested, retries, before).mapper.MapperCalling? && a.tree.Some? then a.tree
      else Taken(requested, retries, before)
  }

  /** How many answers of the mapper have been handled. */
  function MapperTries(requested: seq<string>, retries: nat, run: Run<Action>): nat {
    match run
    case Start => 0
    case Then(before, a) =>
      MapperTries(requested, retries, before) +
      (if a.MapperReplies? && Exec(requested, retries, before).mapper.MapperCalling? then 1 else 0)
  }

  /** A back-off timer of the mapper call has reported an error. */
  predicate MapperTimerBroke(requested: seq<string>, retries: nat, run: Run<Action>) {
    match run
    case Start => false
    case Then(before, a) =>
      MapperTimerBroke(requested, retries, before) ||
      (a == MapperTimer(false) && Exec(requested, retries, before).mapper.MapperBackoff?)
  }

  lemma MapperMoves(s: State, a: Action)
    ensures Step(s, a).mapper ==
            match s.mapper
            case MapperCalling(r) =>
              if !a.MapperReplies? then s.mapper
              else if a.tree.Some? || r == 0 then MapperSettled else MapperBackoff(r)
            case MapperBackoff(r) =>
              if a == MapperTimer(false) && r > 0 then MapperSettled
              else if a == MapperTimer(true) && r > 0 then MapperCalling(if r > 5 then 5 else r - 1) else s.mapper
            case MapperSettled => MapperSettled
  {
    hide Spawned, NewFetches;
  }

  /**
   The mapper is asked once, and again after each failure, up to the retries asked for or five; it is given up without
   an answer exactly if all of these have failed or a back-off timer reported an error.
   */
  lemma {:induction false} MapperAskedExactly(requested: seq<string>, retries: nat, run: Run<Action>)
    ensures var tries := MapperTries(requested, retries, run);
            var limit := if retries > 5 then 5 else retries;
            var broke := MapperTimerBroke(requested, retries, run);
            match Exec(requested, retries, run).mapper
            case MapperCalling(r) => tries + r == limit && Taken(requested, retries, run) == None && !broke
            case MapperBackoff(r) =>
              && 1 <= tries <= limit && tries + r == limit + 1 && Taken(requested, retries, run) == None && !broke
            case MapperSettled =>
              && 1 <= tries <= limit + 1
              && (Taken(requested, retries, run).Some? ==> !broke)
              && (Taken(requested, retries, run) == None ==> (broke <==> tries <= limit))
  {
    match run
    case Start =>
    case Then(before, a) =>
      hide Step;
      MapperAskedExactly(requested, retries, before);
      MapperMoves(Exec(requested, retries, before), a);
  }

  function KeysIn(fs: seq<Fetch>): seq<Key> {
    seq(|fs|, i requires 0 <= i < |fs| => fs[i].key)
  }

  /** What a step does to the keys of the fetches. */
  lemma StepKeys(s: State, a: Action)
    ensures KeysIn(Step(s, a).fetches) ==
            if a.MapperReplies? && s.mapper.MapperCalling? && a.tree.Some?
            then KeysIn(s.fetches) + Spawned(a.tree.value, s.requested) else KeysIn(s.fetches)
    ensures Step(s, a).requested == s.requested
    ensures a.MapperReplies? && s.mapper.MapperCalling? && a.tree.Some? ==> Step(s, a).mapper == MapperSettled
    ensures s.mapper == MapperSettled ==> Step(s, a).mapper == MapperSettled
  {
    hide Spawned;
  }

  /** In every run the fetches are those that the answer taken gives rise to, and before there is one there are none. */
  lemma {:induction false} FetchesAreSpawned(requested: seq<string>, retries: nat, run: Run<Action>)
    ensures var s := Exec(requested, retries, run);
            && s.requested == requested
            && match Taken(requested, retries, run)
               case None => s.fetches == []
               case Some(tree) => s.mapper == MapperSettled && KeysIn(s.fetches) == Spawned(tree, requested)
  {
    match run
    case Start =>
    case Then(before, a) =>
      hide Step, Spawned;
      FetchesAreSpawned(requested, retries, before);
      StepKeys(Exec(requested, retries, before), a);
  }

  /** The answer names every path once and lists no interface of a service twice. */
  predicate Regular(tree: SubTree) {
    && (forall i, j :: 0 <= i < j < |tree| ==> tree[i].0 != tree[j].0)
    && (forall i :: 0 <= i < |tree| && tree[i].1 != [] ==> NoDuplicates(tree[i].1[0].1))
  }

  lemma SameKeysDistinct(fs: seq<Fetch>, keys: seq<Key>)
    requires KeysIn(fs) == keys && DistinctKeys(NewFetches(keys))
    ensures DistinctKeys(fs)
  {
    forall i, j | 0 <= i < j < |fs| ensures fs[i].key != fs[j].key {
      assert NewFetches(keys)[i].key == KeysIn(fs)[i] && NewFetches(keys)[j].key == KeysIn(fs)[j];
    }
  }

  /**
   Exact delivery, told from the answer: a key is delivered exactly if the answer gives rise to it and its one fetch
   succeeded, and then with the data of that fetch; and the answer gives rise to it exactly if some entry with its
   path, with no entry without a service up to it, passes the filter and offers the interface among those requested.
   */
  lemma DeliversFromAnswer(requested: seq<string>, retries: nat, run: Run<Action>, k: Key)
    requires Exec(requested, retries, run).delivered != []
    requires match Taken(requested, retries, run) case None => true case Some(tree) => Regular(tree)
    ensures var s := Exec(requested, retries, run);
            match Taken(requested, retries, run)
            case None => s.delivered == [map[]]
            case Some(tree) =>
              && (k in KeysIn(s.fetches) <==> exists n :: 0 <= n < |tree| && FetchedAt(tree, n, requested, k))
              && (k in s.delivered[0] <==>
                   exists i :: 0 <= i < |s.fetches| && s.fetches[i].key == k && s.fetches[i].phase.Succeeded?)
              && (forall i :: 0 <= i < |s.fetches| && s.fetches[i].key == k && s.fetches[i].phase.Succeeded? ==>
                   k in s.delivered[0] && s.delivered[0][k] == s.fetches[i].phase.data)
              && (k in KeysIn(s.fetches) ==>
                   exists i :: 0 <= i < |s.fetches| && s.fetches[i].key == k
                     && forall j :: 0 <= j < |s.fetches| && s.fetches[j].key == k ==> j == i)
  {
    var s := Exec(requested, retries, run);
    FetchesAreSpawned(requested, retries, run);
    DeliversSuccesses(requested, retries, run);
    hide Exec, Spawned, Wanted, Satisfies, FetchedAt, HasSuccess;
    match Taken(requested, retries, run) {
      case None => NothingDelivered(s.delivered[0]);
      case Some(tree) =>
        SpawnedExactly(tree, requested, k);
        SpawnedDistinct(tree, requested);
        SameKeysDistinct(s.fetches, Spawned(tree, requested));
        forall i | 0 <= i < |s.fetches| && s.fetches[i].key == k
          ensures if s.fetches[i].phase.Succeeded?
                  then k in s.delivered[0] && s.delivered[0][k] == s.fetches[i].phase.data else k !in s.delivered[0]
        {
          DeliversExactly(requested, retries, run, i);
        }
        if k in s.delivered[0] { SuccessIs(s.fetches, k, s.delivered[0][k]); }
        if k in KeysIn(s.fetches) {
          var i :| 0 <= i < |s.fetches| && KeysIn(s.fetches)[i] == k;
          assert s.fetches[i].key == k;
        }
    }
  }

  lemma NoSuccess(k: Key, d: Data)
    ensures !HasSuccess([], k, d)
  {
  }

  lemma NothingDelivered(m: Response)
    requires forall k :: k in m ==> HasSuccess([], k, m[k])
    ensures m == map[]
  {
    hide HasSuccess;
    forall k ensures k !in m {
      if k in m { NoSuccess(k, m[k]); }
    }
  }

  lemma SuccessIs(fs: seq<Fetch>, k: Key, d: Data)
    requires HasSuccess(fs, k, d)
    ensures exists i :: 0 <= i < |fs| && fs[i].key == k && fs[i].phase.Succeeded?
  {
    var i :| 0 <= i < |fs| && IsSuccess(fs[i], k, d);
  }

  /** The creator's release counts as one unit of work besides the fetches. */
  function Rest(s: State): nat {
    SumWork(s.fetches) + (if s.creator then 1 else 0)
  }

  lemma FetchLowersWork(s: State, i: nat, answer: Option<Data>)
    requires i < |s.fetches| && s.fetches[i].phase == Calling
    ensures var t := OnFetch(s, i, answer); t.mapper == s.mapper && Rest(t) < Rest(s)
  {
    hide Unref;
    var f := s.fetches[i];
    UnrefFrame(SetPhase(s, i, Exhausted));
    if answer.Some? {
      UnrefFrame(SetPhase(s, i, Succeeded(answer.value)).(respData := s.respData[f.key := answer.value]));
    }
    CountUpdate(s.fetches, i, f.(phase := Exhausted));
    CountUpdate(s.fetches, i, f.(phase := Backoff));
    if answer.Some? { CountUpdate(s.fetches, i, f.(phase := Succeeded(answer.value))); }
  }

  lemma TimerLowersWork(s: State, i: nat, expired: bool)
    requires i < |s.fetches| && s.fetches[i].phase == Backoff && s.fetches[i].retries > 0
    ensures var t := OnFetchTimer(s, i, expired); t.mapper == s.mapper && Rest(t) < Rest(s)
  {
    hide Unref;
    var f := s.fetches[i];
    UnrefFrame(SetPhase(s, i, TimerFailed));
    CountUpdate(s.fetches, i, f.(phase := TimerFailed));
    CountUpdate(s.fetches, i, f.(phase := Calling, retries := Clamp(f.retries - 1), attempts := f.attempts + 1));
  }

  /** Every step that changes anything lowers the mapper's work, or keeps it and lowers the rest. */
  lemma StepLowersWork(s: State, a: Action)
    requires Step(s, a) != s
    ensures var t := Step(s, a);
            MapperWork(t.mapper) < MapperWork(s.mapper) || (t.mapper == s.mapper && Rest(t) < Rest(s))
  {
    match a
    case FetchReplies(i, answer) => FetchLowersWork(s, i, answer);
    case FetchTimer(i, expired) => TimerLowersWork(s, i, expired);
    case _ =>
  }

  /** Until everything has settled some reply, timer or release can still come and change the state. */
  lemma NotStuck(requested: seq<string>, retries: nat, run: Run<Action>)
    requires !AllSettled(Exec(requested, retries, run))
    ensures exists a :: Step(Exec(requested, retries, run), a) != Exec(requested, retries, run)
  {
    RunKeepsInv(requested, retries, run);
    var s := Exec(requested, retries, run);
    hide Exec;
    if s.creator {
      assert Step(s, CreatorReleases) != s;
    } else if s.mapper.MapperCalling? {
      assert Step(s, MapperReplies(None)) != s;
    } else if s.mapper.MapperBackoff? {
      assert Step(s, MapperTimer(true)).mapper.MapperCalling?;
    } else {
      var i :| 0 <= i < |s.fetches| && Outstanding(s.fetches[i]);
      FetchAt(s.fetches, s.respData, i);
      if s.fetches[i].phase == Calling {
        var t := Step(s, FetchReplies(i, Some(0)));
        assert t.fetches[i].phase == Succeeded(0);
      } else {
        var t := Step(s, FetchTimer(i, true));
        assert t.fetches[i].phase == Calling;
      }
    }
  }
}
