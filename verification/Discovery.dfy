/**
 Discovery of D-Bus objects: one call to the object mapper, a filter over its answer, and
 one fetch per requested interface, each retried a bounded number of times.  All of them
 share one object; the last to let go of it delivers the collected data.
 */
module Discovery {
  import opened Types

  type Data = nat             // the property set of one interface, uninterpreted
  type Key = (string, string) // object path and interface
  type Response = map<Key, Data>

  /** The mapper's answer: for every path its services, and for every service the interfaces offered. */
  type SubTree = seq<(string, seq<(string, seq<string>)>)>

  const MAX_RETRIES: nat := 5

  // ------------------------------------------------------------ the filter

  /** The offered interfaces that are requested, in the order offered. */
  function Wanted(offered: seq<string>, requested: seq<string>): (w: seq<string>)
    ensures |w| <= |offered|
    ensures forall x :: x in w <==> x in offered && x in requested
  {
    if offered == [] then []
    else (if offered[0] in requested then [offered[0]] else []) + Wanted(offered[1..], requested)
  }

  predicate NoDuplicates(s: seq<string>) {
    forall i, j :: 0 <= i < j < |s| ==> s[i] != s[j]
  }

  /** The eight-bit counter of requested interfaces agrees with the number requested. */
  predicate Satisfies(offered: seq<string>, requested: seq<string>) {
    |Wanted(offered, requested)| % 256 == |requested|
  }

  function KeysFor(path: string, interfaces: seq<string>): seq<Key> {
    seq(|interfaces|, i requires 0 <= i < |interfaces| => (path, interfaces[i]))
  }

  /** The fetches an answer gives rise to; a path without a service ends the scan. */
  function Spawned(tree: SubTree, requested: seq<string>): seq<Key> {
    if tree == [] || tree[0].1 == [] then []
    else
      var offered := tree[0].1[0].1;
      (if Satisfies(offered, requested) then KeysFor(tree[0].0, Wanted(offered, requested)) else [])
      + Spawned(tree[1..], requested)
  }

  lemma {:induction false} WantedNoDuplicates(offered: seq<string>, requested: seq<string>)
    requires NoDuplicates(offered)
    ensures NoDuplicates(Wanted(offered, requested))
  {
    if offered != [] {
      WantedNoDuplicates(offered[1..], requested);
      var rest := Wanted(offered[1..], requested);
      assert offered[0] !in offered[1..];
      assert offered[0] !in rest;
    }
  }

  lemma {:induction false} Distinct(s: seq<string>)
    requires NoDuplicates(s)
    ensures |AsSet(s)| == |s|
  {
    if s != [] {
      Distinct(s[1..]);
      assert AsSet(s) == {s[0]} + AsSet(s[1..]);
      assert s[0] !in s[1..];
    }
  }

  lemma SubsetSize(a: set<string>, b: set<string>)
    requires a <= b
    ensures |a| <= |b|
  {
    if a != {} {
      var x :| x in a;
      SubsetSize(a - {x}, b - {x});
    }
  }

  function AsSet(s: seq<string>): set<string> {
    set x | x in s
  }

  /** The requested interfaces that are not offered. */
  function Missing(offered: seq<string>, requested: seq<string>): nat {
    |AsSet(requested) - AsSet(offered)|
  }

  /** How many more elements than distinct elements there are. */
  function Repeats(s: seq<string>): (n: int)
    ensures n == |s| - |AsSet(s)|
  {
    |s| - |AsSet(s)|
  }

  lemma WantedSize(offered: seq<string>, requested: seq<string>)
    ensures |AsSet(Wanted(offered, requested))| + Missing(offered, requested) == |AsSet(requested)|
  {
    var ws, rs := AsSet(Wanted(offered, requested)), AsSet(requested);
    assert ws + (rs - AsSet(offered)) == rs;
  }

  lemma SameRemainder(x: nat, size: nat, difference: int)
    requires difference == x - size
    ensures x % 256 == size <==> size < 256 && difference % 256 == 0
  {
  }

  /**
   The counter comparison, for all inputs: fewer than 256 interfaces are requested, and the repeated
   matches make up for the missing interfaces and the repeated requests, modulo 256.
   */
  lemma FilterExactly(offered: seq<string>, requested: seq<string>)
    ensures Satisfies(offered, requested) <==>
              |requested| < 256 &&
              (Repeats(Wanted(offered, requested)) - Missing(offered, requested) - Repeats(requested)) % 256 == 0
    ensures (forall r :: r in requested ==> r in offered) <==> Missing(offered, requested) == 0
  {
    hide Wanted;
    MissingNothing(offered, requested);
    WantedSize(offered, requested);
    Surplus(|Wanted(offered, requested)|, |requested|, |AsSet(Wanted(offered, requested))|, |AsSet(requested)|,
            Missing(offered, requested));
  }

  lemma Surplus(wanted: nat, requested: nat, wantedSet: nat, requestedSet: nat, missing: nat)
    requires wantedSet + missing == requestedSet
    ensures wanted % 256 == requested <==>
              requested < 256 && ((wanted - wantedSet) - missing - (requested - requestedSet)) % 256 == 0
  {
    assert (wanted - wantedSet) - missing - (requested - requestedSet) == wanted - requested;
    SameRemainder(wanted, requested, wanted - requested);
  }

  lemma MissingNothing(offered: seq<string>, requested: seq<string>)
    ensures (forall r :: r in requested ==> r in offered) <==> Missing(offered, requested) == 0
  {
    var lacking := AsSet(requested) - AsSet(offered);
    if lacking == {} {
      forall r | r in requested ensures r in offered {
        assert r in AsSet(requested);
        assert r !in lacking;
      }
    } else {
      var r :| r in lacking;
      assert r in requested && r !in offered;
    }
  }

  /**
   So it is the subset test exactly if nothing is missing and the surplus cancels, or something is and it does
   not.
   */
  lemma SubsetTestExactly(offered: seq<string>, requested: seq<string>)
    ensures var surplus := Repeats(Wanted(offered, requested)) - Missing(offered, requested) - Repeats(requested);
            (Satisfies(offered, requested) <==> forall r :: r in requested ==> r in offered) <==>
              if Missing(offered, requested) == 0 then |requested| < 256 && surplus % 256 == 0
              else |requested| >= 256 || surplus % 256 != 0
  {
    FilterExactly(offered, requested);
  }

  /**
   Without duplicates the comparison is a subset test exactly below 256 requests: a path is then taken if and
   only if every requested interface is offered, and exactly the requested interfaces are fetched, once each.
   */
  lemma CountingIsSubset(offered: seq<string>, requested: seq<string>)
    requires NoDuplicates(offered) && NoDuplicates(requested)
    ensures Satisfies(offered, requested) <==> |requested| < 256 && forall r :: r in requested ==> r in offered
    ensures Satisfies(offered, requested) ==>
              var w := Wanted(offered, requested);
              NoDuplicates(w) && |w| == |requested| && forall x :: x in w <==> x in requested
  {
    hide Wanted, Missing, Satisfies;
    var w := Wanted(offered, requested);
    WantedNoDuplicates(offered, requested);
    Distinct(w);
    Distinct(requested);
    FilterExactly(offered, requested);
    WantedSize(offered, requested);
    NothingSuperfluous(w, offered, requested);
  }

  lemma NothingSuperfluous(w: seq<string>, offered: seq<string>, requested: seq<string>)
    requires forall x :: x in w <==> x in offered && x in requested
    ensures (forall r :: r in requested ==> r in offered) ==> forall x :: x in w <==> x in requested
    ensures |AsSet(w)| <= |AsSet(requested)|
  {
    assert AsSet(w) <= AsSet(requested);
    SubsetSize(AsSet(w), AsSet(requested));
  }

  /** Different names, one of each length below n. */
  function Many(n: nat): (s: seq<string>)
    ensures |s| == n && NoDuplicates(s)
  {
    var s := seq(n, i requires 0 <= i < n => seq(i, _ => 'i'));
    assert forall i :: 0 <= i < n ==> |s[i]| == i;
    s
  }

  /** A path that offers exactly the 256 different interfaces requested is passed over. */
  lemma TooManyToCount()
    ensures NoDuplicates(Many(256)) && !Satisfies(Many(256), Many(256))
  {
    CountingIsSubset(Many(256), Many(256));
  }

  /** With duplicates among the offered interfaces the test can be fooled. */
  lemma DuplicatesFool()
    ensures Satisfies(["a", "a"], ["a", "b"]) && "b" !in ["a", "a"]
  {
    assert ["a", "a"][1..] == ["a"];
    assert Wanted(["a"], ["a", "b"]) == ["a"];
    assert Wanted(["a", "a"], ["a", "b"]) == ["a", "a"];
  }

  lemma {:induction false} WantedAppend(p: seq<string>, q: seq<string>, requested: seq<string>)
    ensures Wanted(p + q, requested) == Wanted(p, requested) + Wanted(q, requested)
  {
    if p == [] {
      assert p + q == q;
    } else {
      assert (p + q)[1..] == p[1..] + q;
      WantedAppend(p[1..], q, requested);
    }
  }

  lemma WantedSnoc(p: seq<string>, x: string, requested: seq<string>)
    ensures Wanted(p + [x], requested) == Wanted(p, requested) + (if x in requested then [x] else [])
  {
    WantedAppend(p, [x], requested);
    WantedOne(x, requested);
    hide Wanted;
  }

  lemma WantedOne(x: string, requested: seq<string>)
    ensures Wanted([x], requested) == (if x in requested then [x] else [])
  {
  }

  lemma WantedNothing(requested: seq<string>)
    ensures Wanted([], requested) == []
  {
  }

  lemma WrapStep(n: nat)
    ensures (n % 256 + 1) % 256 == (n + 1) % 256
  {
  }

  /** The counting loop, with its eight-bit counter. */
  method CountWanted(offered: seq<string>, requested: seq<string>) returns (num: nat)
    ensures num == |Wanted(offered, requested)| % 256
  {
    hide Wanted;
    num := 0;
    ghost var seen := 0;
    WantedNothing(requested);
    assert offered[..0] == [];
    for i := 0 to |offered|
      invariant seen == |Wanted(offered[..i], requested)| && num == seen % 256
    {
      assert offered[..i + 1] == offered[..i] + [offered[i]];
      WantedSnoc(offered[..i], offered[i], requested);
      if offered[i] in requested {
        WrapStep(seen);
        num := (num + 1) % 256;
        seen := seen + 1;
      }
    }
    assert offered[..|offered|] == offered;
  }

  /** The loop that starts the fetches of one path. */
  method KeysOf(path: string, offered: seq<string>, requested: seq<string>) returns (keys: seq<Key>)
    ensures keys == KeysFor(path, Wanted(offered, requested))
  {
    keys := [];
    for i := 0 to |offered|
      invariant keys == KeysFor(path, Wanted(offered[..i], requested))
    {
      assert offered[..i + 1] == offered[..i] + [offered[i]];
      WantedSnoc(offered[..i], offered[i], requested);
      if offered[i] !in requested {
        continue;
      }
      keys := keys + [(path, offered[i])];
    }
    assert offered[..|offered|] == offered;
  }

  lemma SpawnedStep(tree: SubTree, requested: seq<string>)
    requires tree != [] && tree[0].1 != []
    ensures var offered := tree[0].1[0].1;
            Spawned(tree, requested) ==
            (if |Wanted(offered, requested)| % 256 == |requested|
                then KeysFor(tree[0].0, Wanted(offered, requested)) else [])
            + Spawned(tree[1..], requested)
  {
    hide Wanted;
  }

  lemma SpawnedStops(tree: SubTree, requested: seq<string>)
    requires tree == [] || tree[0].1 == []
    ensures Spawned(tree, requested) == []
  {
  }

  /** The n-th entry of the answer is reached, passes the filter, has the key's path and offers its interface. */
  predicate FetchedAt(tree: SubTree, n: nat, requested: seq<string>, k: Key)
    requires n < |tree|
  {
    && (forall m :: 0 <= m <= n ==> tree[m].1 != [])
    && tree[n].0 == k.0
    && Satisfies(tree[n].1[0].1, requested)
    && k.1 in tree[n].1[0].1 && k.1 in requested
  }

  lemma KeysForExactly(path: string, interfaces: seq<string>, k: Key)
    ensures k in KeysFor(path, interfaces) <==> k.0 == path && k.1 in interfaces
  {
    if k.0 == path && k.1 in interfaces {
      var i :| 0 <= i < |interfaces| && interfaces[i] == k.1;
      assert KeysFor(path, interfaces)[i] == k;
    }
  }

  /** Exactly which fetches an answer gives rise to. */
  lemma {:induction false} SpawnedExactly(tree: SubTree, requested: seq<string>, k: Key)
    ensures k in Spawned(tree, requested) <==> exists n :: 0 <= n < |tree| && FetchedAt(tree, n, requested, k)
  {
    if tree == [] || tree[0].1 == [] {
      SpawnedStops(tree, requested);
    } else {
      var offered, rest := tree[0].1[0].1, tree[1..];
      SpawnedStep(tree, requested);
      KeysForExactly(tree[0].0, Wanted(offered, requested), k);
      SpawnedExactly(rest, requested, k);
      assert Satisfies(offered, requested) <==> |Wanted(offered, requested)| % 256 == |requested|;
      hide Spawned, Wanted, KeysFor, Satisfies;
      if k in Spawned(rest, requested) {
        var n :| 0 <= n < |rest| && FetchedAt(rest, n, requested, k);
        LaterEntry(tree, n, requested, k);
      }
      if n :| 0 <= n < |tree| && FetchedAt(tree, n, requested, k) {
        if n > 0 { LaterEntry(tree, n - 1, requested, k); }
      }
      if k in Spawned(tree, requested) && k !in Spawned(rest, requested) {
        assert FetchedAt(tree, 0, requested, k);
      }
    }
  }

  lemma LaterEntry(tree: SubTree, n: nat, requested: seq<string>, k: Key)
    requires n + 1 < |tree| && tree[0].1 != []
    ensures FetchedAt(tree[1..], n, requested, k) <==> FetchedAt(tree, n + 1, requested, k)
  {
    hide Satisfies;
    var rest := tree[1..];
    assert forall m :: 0 <= m <= n ==> rest[m] == tree[m + 1];
    assert (forall m :: 0 <= m <= n + 1 ==> tree[m].1 != []) <==> (forall m :: 0 <= m <= n ==> rest[m].1 != []) by {
      if forall m :: 0 <= m <= n ==> rest[m].1 != [] {
        forall m | 0 <= m <= n + 1 ensures tree[m].1 != [] {
          if m > 0 { assert rest[m - 1] == tree[m]; }
        }
      }
    }
  }

  /** The loop over the mapper's answer. */
  method Collect(tree: SubTree, requested: seq<string>) returns (keys: seq<Key>)
    ensures keys == Spawned(tree, requested)
  {
    hide Wanted, Spawned, KeysFor;
    keys := [];
    var k := 0;
    while k < |tree|
      invariant 0 <= k <= |tree|
      invariant keys + Spawned(tree[k..], requested) == Spawned(tree, requested)
    {
      var (path, services) := tree[k];
      if services == [] {
        SpawnedStops(tree[k..], requested);
        return;
      }
      SpawnedStep(tree[k..], requested);
      var offered := services[0].1;
      var num := CountWanted(offered, requested);
      assert tree[k..][1..] == tree[k + 1..];
      if num == |requested| {
        var more := KeysOf(path, offered, requested);
        keys := keys + more;
      }
      k := k + 1;
    }
    SpawnedStops(tree[k..], requested);
  }
}
