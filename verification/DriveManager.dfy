/** The global drive map and the two handlers of discovered objects that fill it and go through it. */
module Drives {
  import opened Types
  import opened Device
  import opened DriveMap
  import DriveTypes
  import opened NVMeDrive

  /** The drive was called with the association if it is concerned and there is one, and otherwise left alone. */
  predicate Told(before: Record, after: Record, concerned: bool, association: string) {
    if concerned && association != ""
    then after == before.(history := Then(before.history, Associate(association)),
                          dev := before.dev.(healthState :=
                            UpdateDriveAssociations(before.dev.healthState.(driveAssociation := association))))
    else after == before
  }

  lemma NothingTold()
    ensures forall r, association :: Told(r, r, false, association)
  {
  }

  predicate Restarted(before: Record, after: Record) {
    after == before.(history := Then(before.history, Initialize),
                     dev := before.dev.(control := before.dev.control.(presence := false)),
                     issued := before.issued + [DriveTypes.ScanControllers])
  }

  /** Where a number of objects of a round take a drive. */
  predicate Reached(before: Record, after: Record, bus: nat, objs: seq<EmObject>) {
    after == before.(history := Extend(before.history, Calls(bus, objs)),
                     dev := before.dev.(healthState := Placed(before.dev.healthState, bus, objs)))
  }

  lemma NothingReached(r: Record, bus: nat)
    ensures Reached(r, r, bus, [])
  {
  }

  lemma ReachedMore(start: Record, before: Record, after: Record, bus: nat, objs: seq<EmObject>)
    requires objs != [] && Reached(start, before, bus, objs[..|objs| - 1])
    requires Told(before, after, Reaches(objs[|objs| - 1]) && bus == BusAfter(objs), AssociationAfter(objs))
    ensures Reached(start, after, bus, objs)
  {
    ExtendOnce(start.history, bus, objs);
    ExtendSnoc(before.history, [], Associate(AssociationAfter(objs)));
    assert [] + [Associate(AssociationAfter(objs))] == [Associate(AssociationAfter(objs))];
    hide Extend, BusAfter, AssociationAfter, Reaches, UpdateDriveAssociations;
  }

  /** A whole round: the calls, then one initialisation. */
  predicate RoundDone(before: Record, after: Record, bus: nat, objs: seq<EmObject>) {
    after == Record(before.dev.(healthState := Placed(before.dev.healthState, bus, objs),
                                control := before.dev.control.(presence := false)),
                    before.issued + [DriveTypes.ScanControllers], before.arms,
                    Then(Extend(before.history, Calls(bus, objs)), Initialize))
  }

  lemma RoundEnds(start: Record, before: Record, after: Record, bus: nat, objs: seq<EmObject>)
    requires Reached(start, before, bus, objs) && Restarted(before, after)
    ensures RoundDone(start, after, bus, objs)
  {
  }

  /** A drive just built for an endpoint. */
  predicate IsNew(r: Record, eid: nat, g: Garbage) {
    r == Record(NewDrive(DRIVE_PATH + Decimal(eid), g), [], 0, Start)
  }

  ghost predicate NewFor(d: NVMeDevice, number: nat, garbage: seq<Garbage>)
    reads d
  {
    exists j :: 0 <= j < |garbage| && IsNew(d.Now(), number, garbage[j])
  }

  lemma NewByAdding(d: NVMeDevice, number: nat, garbage: seq<Garbage>, i: nat)
    requires i < |garbage| && IsNew(d.Now(), number, garbage[i])
    ensures NewFor(d, number, garbage)
  {
  }

  /** A drive just built for the object: for its number, reached at the low byte of that, and on its bus. */
  ghost predicate BuiltFor(d: NVMeDevice, o: MctpObject, garbage: seq<Garbage>)
    reads d
  {
    && o.mctp.Some? && o.mctp.value.eid.Some? && NewFor(d, o.mctp.value.eid.value, garbage)
    && d.eid as nat == o.mctp.value.eid.value % 256 && d.bus == NamedBus(o)
  }

  ghost predicate BuiltForFirst(d: NVMeDevice, k: nat, objs: seq<MctpObject>, garbage: seq<Garbage>)
    reads d
  {
    exists i: nat :: FirstUsable(objs, i, k) && BuiltFor(d, objs[i], garbage)
  }

  lemma BuiltIs(d: NVMeDevice, k: nat, m: map<nat, Offer>, objs: seq<MctpObject>, garbage: seq<Garbage>)
    requires k in AddAll(m, objs) && k !in m
    requires NewFor(d, AddAll(m, objs)[k].eid, garbage)
    requires d.eid as nat == AddressOf(AddAll(m, objs)[k]) && d.bus == AddAll(m, objs)[k].bus
    ensures BuiltForFirst(d, k, objs, garbage)
  {
    hide NewFor, AddAll, UsableFor, NamedBus;
    var i := FirstFor(m, objs, k);
    assert BuiltFor(d, objs[i], garbage);
  }

  lemma KeysGiven(m: map<nat, Offer>, objs: seq<MctpObject>)
    ensures forall k :: k in AddAll(m, objs) <==> k in m || SomeUsable(objs, k)
  {
    forall k ensures k in AddAll(m, objs) <==> k in m || SomeUsable(objs, k) {
      KeysExactly(m, objs, k);
    }
  }

  class DriveManager {
    var driveMap: map<nat, NVMeDevice>
    var offers: map<nat, Offer>   // what each drive was made from

    ghost function Drives(): set<object>
      reads this
    {
      set k | k in driveMap :: driveMap[k]
    }

    /** No drive has made the program trap, so its handlers still run. */
    ghost predicate Runs()
      reads this, Drives()
    {
      forall k :: k in driveMap ==> !driveMap[k].halted
    }

    ghost predicate Valid()
      reads this, Drives()
    {
      && (forall k :: k in driveMap ==> driveMap[k].Valid())
      && driveMap.Keys == offers.Keys
      && (forall k :: k in driveMap ==> 
           && k < 256 && KeyOf(offers[k]) == k
           && driveMap[k].eid as nat == AddressOf(offers[k]) && driveMap[k].bus == offers[k].bus)
      && (forall j, k :: j in driveMap && k in driveMap && j != k ==> driveMap[j] != driveMap[k])
    }

    constructor ()
      ensures Valid() && driveMap == map[] && offers == map[]
    {
      driveMap, offers := map[], map[];
    }

    /** One endpoint: a drive is added unless its key is taken. */
    method AddDrive(o: MctpObject, g: Garbage)
      requires Valid()
      modifies this
      ensures Valid() && offers == Add(old(offers), o)
      ensures forall k :: k in old(driveMap) ==> k in driveMap && driveMap[k] == old(driveMap)[k]
      ensures forall k :: k in driveMap && k !in old(driveMap) ==>
                fresh(driveMap[k]) && IsNew(driveMap[k].Now(), offers[k].eid, g)
    {
      hide NewDrive, DevExec, NVMeDevice.Valid, OfferOf, Decimal, KeyOf, AddressOf;
      match OfferOf(o) {
        case None =>
        case Some(f) =>
          if KeyOf(f) !in driveMap {
            var drive := new NVMeDevice(DRIVE_PATH + Decimal(f.eid), AddressOf(f) as byte, f.bus, g);
            driveMap := driveMap[KeyOf(f) := drive];
            offers := offers[KeyOf(f) := f];
          }
      }
    }

    /**
     A round of endpoint discovery.  It never replaces or touches a drive that is there.  A key is new exactly if some
     object is usable for it, and its drive is freshly built from the first such object: for its number and its bus.
     */
    method HandleMctpEndpoints(objs: seq<MctpObject>, garbage: seq<Garbage>)
      requires Valid() && |garbage| == |objs|
      modifies this
      ensures Valid() && offers == AddAll(old(offers), objs)
      ensures forall k :: k in old(driveMap) ==> k in driveMap && driveMap[k] == old(driveMap)[k]
      ensures forall k :: k in driveMap && k !in old(driveMap) ==>
                fresh(driveMap[k]) && BuiltForFirst(driveMap[k], k, objs, garbage)
      ensures forall k :: k in driveMap <==> k in old(driveMap) || SomeUsable(objs, k)
    {
      hide IsNew, NVMeDevice.Valid, NVMeDevice.Now, OfferOf, SomeUsable, BuiltForFirst, NewFor, KeyOf, AddressOf;
      for i := 0 to |objs|
        invariant Valid() && AddAll(offers, objs[i..]) == AddAll(old(offers), objs)
        invariant forall k :: k in old(driveMap) ==> k in driveMap && driveMap[k] == old(driveMap)[k]
        invariant forall k :: k in driveMap && k !in old(driveMap) ==>
                    fresh(driveMap[k]) && NewFor(driveMap[k], offers[k].eid, garbage)
      {
        assert objs[i..][1..] == objs[i + 1..];
        label Before:
        AddDrive(objs[i], garbage[i]);
        forall k | k in driveMap && k !in old@Before(driveMap) ensures NewFor(driveMap[k], offers[k].eid, garbage) {
          NewByAdding(driveMap[k], offers[k].eid, garbage, i);
        }
      }
      KeysGiven(old(offers), objs);
      forall k | k in driveMap && k !in old(driveMap)
        ensures BuiltForFirst(driveMap[k], k, objs, garbage)
      {
        BuiltIs(driveMap[k], k, old(offers), objs, garbage);
      }
    }

    /** The last association of kind "containing" replaces what was held. */
    method TakeAssociation(assocs: seq<Association>, held: string) returns (association: string)
      ensures association == match Containing(assocs) case None => held case Some(a) => a
    {
      association := held;
      for i := 0 to |assocs|
        invariant association == match Containing(assocs[..i]) case None => held case Some(a) => a
      {
        assert assocs[..i + 1][..i] == assocs[..i];
        if assocs[i].1 == "containing" {
          association := assocs[i].2;
        }
      }
      assert assocs[..|assocs|] == assocs;
    }

    /** Goes through the drives and hands the association to those on the bus. */
    method UpdateDrives(busNumber: nat, association: string)
      requires Valid() && Runs()
      modifies Drives()
      ensures Valid() && Runs()
      ensures forall k :: k in driveMap ==>
                Told(old(driveMap[k].Now()), driveMap[k].Now(), driveMap[k].bus == busNumber, association)
    {
      hide Told, NVMeDevice.Valid, NVMeDevice.Now;
      var rest := driveMap.Keys;
      while rest != {}
        invariant rest <= driveMap.Keys && Valid() && Runs()
        invariant forall k :: k in rest ==> driveMap[k].Now() == old(driveMap[k].Now())
        invariant forall k :: k in driveMap && k !in rest ==>
                    Told(old(driveMap[k].Now()), driveMap[k].Now(), driveMap[k].bus == busNumber, association)
      {
        var k :| k in rest;
        rest := rest - {k};
        Tell(driveMap[k], busNumber, association);
      }
    }

    /** The body of that loop. */
    method Tell(d: NVMeDevice, busNumber: nat, association: string)
      requires d.Valid() && !d.halted
      modifies d
      ensures d.Valid() && !d.halted && Told(old(d.Now()), d.Now(), d.bus == busNumber, association)
    {
      hide UpdateDriveAssociations, DevExec, DevStep;
      if d.bus != busNumber {
        return;
      }
      if association != "" {
        CallIs(d.View(), association);
        d.SetAssociation(association);
      }
    }

    /** Initialises every drive once, in no particular order. */
    method InitializeAll()
      requires Valid() && Runs()
      modifies Drives()
      ensures Valid() && Runs()
      ensures forall k :: k in driveMap ==> Restarted(old(driveMap[k].Now()), driveMap[k].Now())
    {
      hide Restarted, NVMeDevice.Valid, NVMeDevice.Now;
      var rest := driveMap.Keys;
      while rest != {}
        invariant rest <= driveMap.Keys && Valid() && Runs()
        invariant forall k :: k in rest ==> driveMap[k].Now() == old(driveMap[k].Now())
        invariant forall k :: k in driveMap && k !in rest ==> Restarted(old(driveMap[k].Now()), driveMap[k].Now())
      {
        var k :| k in rest;
        rest := rest - {k};
        Restart(driveMap[k]);
      }
    }

    method Restart(d: NVMeDevice)
      requires d.Valid() && !d.halted
      modifies d
      ensures d.Valid() && !d.halted && Restarted(old(d.Now()), d.Now())
    {
      hide DevExec, DevStep;
      CallIs(d.View(), "");
      d.Initialize();
    }

    /** One inventory object: the loop's variables move on, and the drives it reaches are told. */
    method TakeObject(o: EmObject, loopBus: nat, held: string) returns (bus: nat, association: string)
      requires Valid() && Runs()
      modifies Drives()
      ensures Valid() && Runs() && bus == NextBus(loopBus, o) && association == NextAssociation(held, o)
      ensures forall k :: k in driveMap ==>
                Told(old(driveMap[k].Now()), driveMap[k].Now(), Reaches(o) && driveMap[k].bus == bus, association)
    {
      hide Containing, Told, NVMeDevice.Now, NVMeDevice.Valid;
      NothingTold();
      bus, association := loopBus, held;
      if !o.nvme {
        return;
      }
      if o.i2c.Some? {
        if o.i2c.value.None? {
          return;
        }
        bus := o.i2c.value.value;
      }
      if o.drive == Some(None) {
        return;
      }
      if o.associations.Some? {
        association := TakeAssociation(o.associations.value, association);
      }
      UpdateDrives(bus, association);
    }

    /**
     A completed round of the inventory: each drive is called with the associations that the objects hand to it, ends up
     where they place it, and is initialised exactly once; the map itself stays as it is.
     */
    method HandleEmEndpoints(objs: seq<EmObject>)
      requires Valid() && Runs()
      modifies Drives()
      ensures Valid() && Runs()
      ensures forall k :: k in driveMap ==> RoundDone(old(driveMap[k].Now()), driveMap[k].Now(), driveMap[k].bus, objs)
    {
      hide NextBus, NextAssociation, Told, Reached, Restarted, RoundDone, NVMeDevice.Now, NVMeDevice.Valid;
      var bus, association := NO_OBJECT_BUS, "";
      forall k | k in driveMap ensures Reached(driveMap[k].Now(), driveMap[k].Now(), driveMap[k].bus, []) {
        NothingReached(driveMap[k].Now(), driveMap[k].bus);
      }
      for i := 0 to |objs|
        invariant Valid() && Runs() && bus == BusAfter(objs[..i]) && association == AssociationAfter(objs[..i])
        invariant forall k :: k in driveMap ==>
                    Reached(old(driveMap[k].Now()), driveMap[k].Now(), driveMap[k].bus, objs[..i])
      {
        label Before:
        assert objs[..i + 1][..i] == objs[..i];
        bus, association := TakeObject(objs[i], bus, association);
        forall k | k in driveMap
          ensures Reached(old(driveMap[k].Now()), driveMap[k].Now(), driveMap[k].bus, objs[..i + 1])
        {
          ReachedMore(old(driveMap[k].Now()), old@Before(driveMap[k].Now()), driveMap[k].Now(), driveMap[k].bus,
              objs[..i + 1]);
        }
      }
      assert objs[..|objs|] == objs;
      label Told:
      InitializeAll();
      forall k | k in driveMap
        ensures RoundDone(old(driveMap[k].Now()), driveMap[k].Now(), driveMap[k].bus, objs)
      {
        RoundEnds(old(driveMap[k].Now()), old@Told(driveMap[k].Now()), driveMap[k].Now(), driveMap[k].bus, objs);
      }
    }
  }
}
