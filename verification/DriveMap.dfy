/** The map from endpoint to drive: which endpoints become drives, and what the inventory says about them. */
module DriveMap {
  import opened Types
  import opened Device
  import DriveTypes

  const NVME_MI_TYPE: byte := 4
  const NO_DRIVE_BUS: nat := 0xFFFF_FFFF
  const NO_OBJECT_BUS: nat := 0xFFFF_FFFF_FFFF_FFFF
  const DRIVE_PATH := "/xyz/openbmc_project/inventory/system/nvme/NVMe_SSD_"

  // ------------------------------------------------------------ MCTP endpoints

  datatype MctpProperties = MctpProperties(eid: Option<nat>, messageTypes: Option<seq<byte>>)

  /** A discovered object: each interface it has, and in it each property it has. */
  datatype MctpObject = MctpObject(
    mctp: Option<MctpProperties>, socket: Option<Option<seq<byte>>>, i2c: Option<Option<nat>>)

  /** What an object offers as a drive: its endpoint number and bus. */
  datatype Offer = Offer(eid: nat, bus: nat)

  /** The offer an object makes; nothing if it is passed over. */
  function OfferOf(o: MctpObject): Option<Offer> {
    if o.mctp == None then None
    else if o.mctp.value.eid == None || o.mctp.value.messageTypes == None then None
    else if o.socket == Some(None) then None
    else if NVME_MI_TYPE !in o.mctp.value.messageTypes.value then None
    else if o.i2c == Some(None) then None
    else Some(Offer(o.mctp.value.eid.value, if o.i2c == None then NO_DRIVE_BUS else o.i2c.value.value))
  }

  /** The map's key has eight bits. */
  function KeyOf(f: Offer): (k: nat)
    ensures k < 256
  {
    f.eid % 256
  }

  /** The endpoint that a drive made from the offer talks to: the constructor takes eight bits as well. */
  function AddressOf(f: Offer): (a: nat)
    ensures a < 256
  {
    f.eid % 256
  }

  function Add(m: map<nat, Offer>, o: MctpObject): map<nat, Offer> {
    match OfferOf(o)
    case None => m
    case Some(f) => if KeyOf(f) in m then m else m[KeyOf(f) := f]
  }

  /** The offers behind the drives after a round of discovery. */
  function AddAll(m: map<nat, Offer>, objs: seq<MctpObject>): map<nat, Offer>
    decreases objs
  {
    if objs == [] then m else AddAll(Add(m, objs[0]), objs[1..])
  }

  ghost predicate Within(m: map<nat, Offer>, n: map<nat, Offer>) {
    forall k :: k in m ==> k in n && n[k] == m[k]
  }

  lemma {:induction false} AddAllKeeps(m: map<nat, Offer>, objs: seq<MctpObject>)
    ensures Within(m, AddAll(m, objs))
    decreases objs
  {
    if objs != [] { AddAllKeeps(Add(m, objs[0]), objs[1..]); }
  }

  /** After a round every offer has a drive under its key. */
  lemma {:induction false} AddAllCovers(m: map<nat, Offer>, objs: seq<MctpObject>)
    ensures forall i :: 0 <= i < |objs| && OfferOf(objs[i]).Some? ==> KeyOf(OfferOf(objs[i]).value) in AddAll(m, objs)
    decreases objs
  {
    if objs != [] {
      var rest := objs[1..];
      AddAllCovers(Add(m, objs[0]), rest);
      AddAllKeeps(Add(m, objs[0]), rest);
      forall i | 0 <= i < |objs| && OfferOf(objs[i]).Some?
        ensures KeyOf(OfferOf(objs[i]).value) in AddAll(m, objs)
      {
        if i > 0 { assert rest[i - 1] == objs[i]; }
      }
    }
  }

  /** A new drive belongs to the first offer with its key. */
  lemma {:induction false} AddAllFirst(m: map<nat, Offer>, objs: seq<MctpObject>, k: nat) returns (i: nat)
    requires k in AddAll(m, objs) && k !in m
    ensures i < |objs| && OfferOf(objs[i]) == Some(AddAll(m, objs)[k]) && KeyOf(AddAll(m, objs)[k]) == k
    ensures forall j :: 0 <= j < i && OfferOf(objs[j]).Some? ==> KeyOf(OfferOf(objs[j]).value) != k
    decreases objs
  {
    var n := Add(m, objs[0]);
    AddAllKeeps(n, objs[1..]);
    if k in n {
      i := 0;
    } else {
      var j := AddAllFirst(n, objs[1..], k);
      i := j + 1;
      forall x | 0 <= x < i && OfferOf(objs[x]).Some? ensures KeyOf(OfferOf(objs[x]).value) != k {
        if x > 0 { assert objs[1..][x - 1] == objs[x]; }
      }
    }
  }

  lemma {:induction false} NothingNew(m: map<nat, Offer>, objs: seq<MctpObject>)
    requires forall i :: 0 <= i < |objs| && OfferOf(objs[i]).Some? ==> KeyOf(OfferOf(objs[i]).value) in m
    ensures AddAll(m, objs) == m
  {
    if objs != [] {
      assert Add(m, objs[0]) == m;
      NothingNew(m, objs[1..]);
    }
  }

  /** Handling the same endpoints again, in any order, changes nothing. */
  lemma Idempotent(m: map<nat, Offer>, objs: seq<MctpObject>, again: seq<MctpObject>)
    requires forall o :: o in again ==> o in objs
    ensures AddAll(AddAll(m, objs), again) == AddAll(m, objs)
  {
    AddAllCovers(m, objs);
    forall i | 0 <= i < |again| && OfferOf(again[i]).Some? ensures KeyOf(OfferOf(again[i]).value) in AddAll(m, objs) {
      assert again[i] in again;
      var j :| 0 <= j < |objs| && objs[j] == again[i];
    }
    NothingNew(AddAll(m, objs), again);
  }

  /** Among the drives and objects with its key, a number like that of the i-th object came first. */
  predicate CameFirst(m: map<nat, Offer>, objs: seq<MctpObject>, i: nat)
    requires i < |objs| && OfferOf(objs[i]).Some?
  {
    var f := OfferOf(objs[i]).value;
    if KeyOf(f) in m then m[KeyOf(f)].eid == f.eid
    else exists j :: 0 <= j <= i && OfferOf(objs[j]).Some? && OfferOf(objs[j]).value.eid == f.eid
           && forall x :: 0 <= x < j && OfferOf(objs[x]).Some? ==> KeyOf(OfferOf(objs[x]).value) != KeyOf(f)
  }

  /** The drive under the endpoint's key was made from that endpoint, and talks to it. */
  predicate HasOwnDrive(n: map<nat, Offer>, f: Offer) {
    KeyOf(f) in n && n[KeyOf(f)].eid == f.eid && AddressOf(n[KeyOf(f)]) == f.eid
  }

  lemma MadeFromExactly(m: map<nat, Offer>, objs: seq<MctpObject>, i: nat)
    requires i < |objs| && OfferOf(objs[i]).Some?
    ensures var f := OfferOf(objs[i]).value;
            KeyOf(f) in AddAll(m, objs) && (AddAll(m, objs)[KeyOf(f)].eid == f.eid <==> CameFirst(m, objs, i))
  {
    var f := OfferOf(objs[i]).value;
    var n := AddAll(m, objs);
    AddAllCovers(m, objs);
    AddAllKeeps(m, objs);
    if KeyOf(f) !in m {
      var first := AddAllFirst(m, objs, KeyOf(f));
      assert first <= i;
      assert OfferOf(objs[first]).value == n[KeyOf(f)];
    }
  }

  /**
   After a round the drive under an endpoint's key was made from that endpoint exactly if it came first with that key,
   and talks to it exactly if its number is below 256; so an endpoint has a drive of its own exactly if both hold.
   */
  lemma OwnDriveExactly(m: map<nat, Offer>, objs: seq<MctpObject>, i: nat)
    requires forall k :: k in m ==> KeyOf(m[k]) == k
    requires i < |objs| && OfferOf(objs[i]).Some?
    ensures var f := OfferOf(objs[i]).value;
            var n := AddAll(m, objs);
            && KeyOf(f) in n
            && (n[KeyOf(f)].eid == f.eid <==> CameFirst(m, objs, i))
            && (AddressOf(n[KeyOf(f)]) == f.eid <==> f.eid < 256)
            && (HasOwnDrive(n, f) <==> f.eid < 256 && CameFirst(m, objs, i))
  {
    MadeFromExactly(m, objs, i);
    KeysFit(m, objs, KeyOf(OfferOf(objs[i]).value));
    hide CameFirst;
  }

  lemma KeysFit(m: map<nat, Offer>, objs: seq<MctpObject>, k: nat)
    requires forall x :: x in m ==> KeyOf(m[x]) == x
    requires k in AddAll(m, objs)
    ensures KeyOf(AddAll(m, objs)[k]) == k
  {
    AddAllKeeps(m, objs);
    if k !in m { var first := AddAllFirst(m, objs, k); }
  }

  /**
   What the object's properties must be for it to become a drive under a key: it names a number with that low byte,
   lists the NVMe-MI message type, and has neither a socket without its address nor an I2C device without its bus.
   */
  predicate UsableFor(o: MctpObject, k: nat) {
    && o.mctp.Some? && o.mctp.value.eid.Some? && o.mctp.value.eid.value % 256 == k
    && o.mctp.value.messageTypes.Some? && 4 in o.mctp.value.messageTypes.value
    && (o.socket.Some? ==> o.socket.value.Some?)
    && (o.i2c.Some? ==> o.i2c.value.Some?)
  }

  predicate SomeUsable(objs: seq<MctpObject>, k: nat) {
    exists i :: 0 <= i < |objs| && UsableFor(objs[i], k)
  }

  predicate FirstUsable(objs: seq<MctpObject>, i: nat, k: nat) {
    i < |objs| && UsableFor(objs[i], k) && forall j :: 0 <= j < i ==> !UsableFor(objs[j], k)
  }

  /** The bus that the object's I2C device names, or 2^32 - 1. */
  function NamedBus(o: MctpObject): nat {
    match o.i2c
    case Some(Some(b)) => b
    case _ => 0xFFFF_FFFF
  }

  lemma OfferExactly(o: MctpObject, k: nat)
    ensures UsableFor(o, k) <==> OfferOf(o).Some? && KeyOf(OfferOf(o).value) == k
    ensures OfferOf(o).Some? ==>
              && o.mctp.Some? && o.mctp.value.eid.Some?
              && OfferOf(o).value == Offer(o.mctp.value.eid.value, NamedBus(o))
  {
  }

  /** A key is new after a round exactly if some object is usable for it. */
  lemma KeysExactly(m: map<nat, Offer>, objs: seq<MctpObject>, k: nat)
    ensures k in AddAll(m, objs) <==> k in m || SomeUsable(objs, k)
  {
    AddAllKeeps(m, objs);
    AddAllCovers(m, objs);
    if k in AddAll(m, objs) && k !in m {
      var i := AddAllFirst(m, objs, k);
      OfferExactly(objs[i], k);
    }
    if SomeUsable(objs, k) {
      var i :| 0 <= i < |objs| && UsableFor(objs[i], k);
      OfferExactly(objs[i], k);
    }
  }

  /** There is a first one for each key that is new. */
  lemma FirstFor(m: map<nat, Offer>, objs: seq<MctpObject>, k: nat) returns (i: nat)
    requires k in AddAll(m, objs) && k !in m
    ensures FirstUsable(objs, i, k)
    ensures objs[i].mctp.Some? && objs[i].mctp.value.eid.Some?
    ensures AddAll(m, objs)[k] == Offer(objs[i].mctp.value.eid.value, NamedBus(objs[i]))
  {
    i := AddAllFirst(m, objs, k);
    forall j | 0 <= j <= i ensures UsableFor(objs[j], k) <==> j == i {
      OfferExactly(objs[j], k);
    }
    OfferExactly(objs[i], k);
  }

  /** A new drive is made from the first object usable for its key. */
  lemma MadeFromFirst(m: map<nat, Offer>, objs: seq<MctpObject>, i: nat, k: nat)
    requires k !in m && FirstUsable(objs, i, k)
    ensures k in AddAll(m, objs)
    ensures objs[i].mctp.Some? && objs[i].mctp.value.eid.Some?
    ensures AddAll(m, objs)[k] == Offer(objs[i].mctp.value.eid.value, NamedBus(objs[i]))
  {
    KeysExactly(m, objs, k);
    var j := FirstFor(m, objs, k);
    hide OfferOf, UsableFor, NamedBus;
    assert i == j;
  }

  /** An endpoint that does not speak NVMe-MI gets no drive. */
  lemma OtherTypePassedOver()
    ensures AddAll(map[], [MctpObject(Some(MctpProperties(Some(10), Some([1]))), None, None)]) == map[]
  {
    var o := MctpObject(Some(MctpProperties(Some(10), Some([1]))), None, None);
    assert Add(map[], o) == map[] && [o][1..] == [];
    assert AddAll(map[], []) == map[];
  }

  function Plain(eid: nat): MctpObject {
    MctpObject(Some(MctpProperties(Some(eid), Some([NVME_MI_TYPE]))), None, None)
  }

  /** Numbers 1 and 257 share a drive: the second has none of its own. */
  lemma LowByteShared()
    ensures AddAll(map[], [Plain(1), Plain(257)]) == map[1 := Offer(1, NO_DRIVE_BUS)]
  {
    assert [Plain(1), Plain(257)][1..] == [Plain(257)];
    assert Add(map[], Plain(1)) == map[1 := Offer(1, NO_DRIVE_BUS)];
    assert Add(map[1 := Offer(1, NO_DRIVE_BUS)], Plain(257)) == map[1 := Offer(1, NO_DRIVE_BUS)];
    assert AddAll(map[1 := Offer(1, NO_DRIVE_BUS)], [Plain(257)]) == map[1 := Offer(1, NO_DRIVE_BUS)];
  }

  /** Number 257 on its own has a drive made from it, which talks to endpoint 1. */
  lemma HighNumberMissed()
    ensures AddAll(map[], [Plain(257)]) == map[1 := Offer(257, NO_DRIVE_BUS)]
    ensures AddressOf(Offer(257, NO_DRIVE_BUS)) == 1
    ensures !HasOwnDrive(AddAll(map[], [Plain(257)]), Offer(257, NO_DRIVE_BUS))
  {
    assert Add(map[], Plain(257)) == map[1 := Offer(257, NO_DRIVE_BUS)];
    assert [Plain(257)][1..] == [];
    assert AddAll(map[1 := Offer(257, NO_DRIVE_BUS)], []) == map[1 := Offer(257, NO_DRIVE_BUS)];
  }

  /** For endpoint numbers below 256 no two endpoints share a drive. */
  lemma SmallNumbersNeverShare(m: map<nat, Offer>, objs: seq<MctpObject>, i: nat)
    requires forall k :: k in m ==> m[k].eid == k
    requires forall j :: 0 <= j < |objs| && OfferOf(objs[j]).Some? ==> OfferOf(objs[j]).value.eid < 256
    requires i < |objs| && OfferOf(objs[i]).Some?
    ensures var f := OfferOf(objs[i]).value;
            f.eid in AddAll(m, objs) && AddAll(m, objs)[f.eid].eid == f.eid && HasOwnDrive(AddAll(m, objs), f)
  {
    var f := OfferOf(objs[i]).value;
    AddAllCovers(m, objs);
    AddAllKeeps(m, objs);
    if f.eid !in m { var first := AddAllFirst(m, objs, f.eid); }
  }

  // ------------------------------------------------------------ inventory objects

  /** An inventory object: whether it is an NVMe item, its bus, its form factor and its associations. */
  datatype EmObject = EmObject(
    nvme: bool, i2c: Option<Option<nat>>, drive: Option<Option<string>>, associations: Option<seq<Association>>)

  /** The last association of kind "containing", if any. */
  function Containing(assocs: seq<Association>): Option<string> {
    if assocs == [] then None
    else
      var n := |assocs| - 1;
      if assocs[n].1 == "containing" then Some(assocs[n].2) else Containing(assocs[..n])
  }

  function OwnAssociation(o: EmObject): Option<string> {
    if o.associations == None then None else Containing(o.associations.value)
  }

  /** The object gets as far as the drives: neither its bus nor its form factor is missing where expected. */
  predicate Reaches(o: EmObject) {
    o.nvme && o.i2c != Some(None) && o.drive != Some(None)
  }

  /** What an object makes of the loop's variables and of the health state of a drive. */
  function NextBus(bus: nat, o: EmObject): nat {
    match o.i2c
    case Some(Some(b)) => if o.nvme then b else bus
    case _ => bus
  }

  function NextAssociation(association: string, o: EmObject): string {
    if Reaches(o) && OwnAssociation(o).Some? then OwnAssociation(o).value else association
  }

  function PlaceOnce(h: HealthState, bus: nat, o: EmObject, loopBus: nat, association: string): HealthState {
    if Reaches(o) && loopBus == bus && association != ""
    then UpdateDriveAssociations(h.(driveAssociation := association))
    else h
  }

  /** The loop's variables after a number of objects. */
  function BusAfter(objs: seq<EmObject>): nat {
    if objs == [] then NO_OBJECT_BUS
    else NextBus(BusAfter(objs[..|objs| - 1]), objs[|objs| - 1])
  }

  function AssociationAfter(objs: seq<EmObject>): string {
    if objs == [] then ""
    else NextAssociation(AssociationAfter(objs[..|objs| - 1]), objs[|objs| - 1])
  }

  /** A drive's health state after the objects have been gone through. */
  function Placed(h: HealthState, bus: nat, objs: seq<EmObject>): HealthState {
    if objs == [] then h
    else
      PlaceOnce(Placed(h, bus, objs[..|objs| - 1]), bus, objs[|objs| - 1], BusAfter(objs), AssociationAfter(objs))
  }

  /** The bus that an object names for itself. */
  function OwnBus(o: EmObject): Option<nat> {
    if o.i2c == None then None else o.i2c.value
  }

  /** By index: the association taken is the last one of kind "containing", and none exactly if there is none. */
  lemma {:induction false} ContainingExactly(assocs: seq<Association>)
    ensures Containing(assocs) == None <==> forall i :: 0 <= i < |assocs| ==> assocs[i].1 != "containing"
    ensures forall i :: LastContaining(assocs, i) ==> Containing(assocs) == Some(assocs[i].2)
  {
    if assocs != [] {
      var n := |assocs| - 1;
      ContainingExactly(assocs[..n]);
      if assocs[n].1 != "containing" {
        forall i | LastContaining(assocs, i) ensures Containing(assocs) == Some(assocs[i].2) {
          assert LastContaining(assocs[..n], i);
        }
      }
    }
  }

  predicate LastContaining(assocs: seq<Association>, i: int) {
    && 0 <= i < |assocs| && assocs[i].1 == "containing"
    && forall j :: i < j < |assocs| ==> assocs[j].1 != "containing"
  }

  /** The object names a bus. */
  predicate GivesBus(o: EmObject) {
    o.nvme && o.i2c.Some? && o.i2c.value.Some?
  }

  /** The object is an NVMe item and lacks neither the bus of its I2C device nor its form factor. */
  predicate NotPassedOver(o: EmObject) {
    o.nvme && (o.i2c.Some? ==> o.i2c.value.Some?) && (o.drive.Some? ==> o.drive.value.Some?)
  }

  lemma ReachesIs(o: EmObject)
    ensures Reaches(o) <==> NotPassedOver(o)
  {
  }

  /** It is not passed over and lists an association of kind "containing". */
  predicate GivesAssociation(o: EmObject) {
    NotPassedOver(o) && o.associations.Some? &&
    exists i :: 0 <= i < |o.associations.value| && o.associations.value[i].1 == "containing"
  }

  predicate LastToGive(objs: seq<EmObject>, i: int) {
    && 0 <= i < |objs| && GivesAssociation(objs[i])
    && forall j :: i < j < |objs| ==> !GivesAssociation(objs[j])
  }

  /** The bus held is that of the last object that names one; before any it is 2^64 - 1. */
  lemma {:induction false} BusHeldExactly(objs: seq<EmObject>)
    ensures (forall i :: 0 <= i < |objs| ==> !GivesBus(objs[i])) ==> BusAfter(objs) == 0xFFFF_FFFF_FFFF_FFFF
    ensures forall i :: 0 <= i < |objs| && GivesBus(objs[i]) && (forall j :: i < j < |objs| ==> !GivesBus(objs[j])) ==>
              BusAfter(objs) == objs[i].i2c.value.value
  {
    if objs != [] {
      var n := |objs| - 1;
      BusHeldExactly(objs[..n]);
      forall i | 0 <= i < |objs| && GivesBus(objs[i]) && forall j :: i < j < |objs| ==> !GivesBus(objs[j])
        ensures BusAfter(objs) == objs[i].i2c.value.value
      {
        if i < n { assert objs[..n][i] == objs[i]; }
      }
    }
  }

  lemma OwnExactly(o: EmObject)
    ensures GivesAssociation(o) <==> Reaches(o) && OwnAssociation(o).Some?
    ensures forall k :: GivesAssociation(o) && LastContaining(o.associations.value, k) ==>
              OwnAssociation(o) == Some(o.associations.value[k].2)
  {
    if o.associations.Some? { ContainingExactly(o.associations.value); }
  }

  /**
   The association held is the last one of kind "containing" of the last object that is not passed over and has one;
   before any it is empty.
   */
  lemma {:induction false} AssociationHeldExactly(objs: seq<EmObject>)
    ensures (forall i :: 0 <= i < |objs| ==> !GivesAssociation(objs[i])) ==> AssociationAfter(objs) == ""
    ensures forall i, k ::
              LastToGive(objs, i) && LastContaining(objs[i].associations.value, k) ==>
                AssociationAfter(objs) == objs[i].associations.value[k].2
  {
    if objs != [] {
      var n := |objs| - 1;
      AssociationHeldExactly(objs[..n]);
      OwnExactly(objs[n]);
      hide GivesAssociation, OwnAssociation, Reaches, LastContaining;
      forall i, k | LastToGive(objs, i) && LastContaining(objs[i].associations.value, k)
        ensures AssociationAfter(objs) == objs[i].associations.value[k].2
      {
        if i < n { assert LastToGive(objs[..n], i); }
      }
    }
  }

  /** What one object makes the loop call on a drive of the bus. */
  function CallOnce(bus: nat, o: EmObject, loopBus: nat, association: string): seq<DevAction> {
    if Reaches(o) && loopBus == bus && association != "" then [Associate(association)] else []
  }

  /** What a round of the inventory calls on a drive of the bus: its associations in turn. */
  function Calls(bus: nat, objs: seq<EmObject>): seq<DevAction> {
    if objs == [] then []
    else
      Calls(bus, objs[..|objs| - 1]) + CallOnce(bus, objs[|objs| - 1], BusAfter(objs), AssociationAfter(objs))
  }

  lemma ExtendOnce(run: Run<DevAction>, bus: nat, objs: seq<EmObject>)
    requires objs != []
    ensures var n := |objs| - 1;
            Extend(run, Calls(bus, objs)) ==
            Extend(Extend(run, Calls(bus, objs[..n])), CallOnce(bus, objs[n], BusAfter(objs), AssociationAfter(objs)))
  {
    var n := |objs| - 1;
    ExtendSnoc(run, Calls(bus, objs[..n]), Associate(AssociationAfter(objs)));
    ExtendSnoc(Extend(run, Calls(bus, objs[..n])), [], Associate(AssociationAfter(objs)));
    assert [] + [Associate(AssociationAfter(objs))] == [Associate(AssociationAfter(objs))];
    hide BusAfter, AssociationAfter, Reaches, Extend;
  }

  /** The i-th object makes the loop call the drives of a bus with an association. */
  predicate Hands(objs: seq<EmObject>, i: nat, bus: nat)
    requires i < |objs|
  {
    Calls(bus, objs[..i + 1]) != Calls(bus, objs[..i])
  }

  /** What the i-th object does to a drive of the bus. */
  lemma HandsIs(h: HealthState, objs: seq<EmObject>, i: nat, bus: nat)
    requires i < |objs|
    ensures Hands(objs, i, bus) <==>
              NotPassedOver(objs[i]) && BusAfter(objs[..i + 1]) == bus && AssociationAfter(objs[..i + 1]) != ""
    ensures var before := Placed(h, bus, objs[..i]);
            Placed(h, bus, objs[..i + 1]) ==
            if Hands(objs, i, bus)
            then UpdateDriveAssociations(before.(driveAssociation := AssociationAfter(objs[..i + 1])))
            else before
  {
    hide UpdateDriveAssociations, BusAfter, AssociationAfter, Reaches, NotPassedOver;
    ReachesIs(objs[i]);
    assert objs[..i + 1][..i] == objs[..i];
    if Reaches(objs[i]) && BusAfter(objs[..i + 1]) == bus && AssociationAfter(objs[..i + 1]) != "" {
      assert |Calls(bus, objs[..i + 1])| == |Calls(bus, objs[..i])| + 1;
    } else {
      assert Calls(bus, objs[..i]) + [] == Calls(bus, objs[..i]);
    }
  }

  /**
   An object is meant to file the drives of its own bus under its own association.  It hands an association to the
   drives of another bus exactly if it names no bus and the bus of an earlier object is still held; it hands its drives
   an association that is not its own exactly if it has none and one of an earlier object is still held.
   */
  lemma AssociationCarriedExactly(objs: seq<EmObject>, i: nat, bus: nat)
    requires i < |objs|
    ensures var own := OwnAssociation(objs[i]);
            var handed := AssociationAfter(objs[..i + 1]);
            Reaches(objs[i]) ==>
              (handed == (if own.Some? then own.value else "") <==> own.Some? || AssociationAfter(objs[..i]) == "")
    ensures var o := objs[i];
            var handed := AssociationAfter(objs[..i + 1]);
            Hands(objs, i, bus) && OwnBus(o) != Some(bus) <==>
              Reaches(o) && o.i2c == None && BusAfter(objs[..i]) == bus && handed != ""
    ensures var o := objs[i];
            var handed := AssociationAfter(objs[..i + 1]);
            Hands(objs, i, bus) && OwnAssociation(o) != Some(handed) <==>
              Reaches(o) && NextBus(BusAfter(objs[..i]), o) == bus
              && OwnAssociation(o) == None && AssociationAfter(objs[..i]) != ""
    ensures var o := objs[i];
            var handed := AssociationAfter(objs[..i + 1]);
            (Hands(objs, i, bus) ==> OwnBus(o) == Some(bus) && OwnAssociation(o) == Some(handed)) <==>
              !(Reaches(o) && o.i2c == None && BusAfter(objs[..i]) == bus
                && NextAssociation(AssociationAfter(objs[..i]), o) != "") &&
              !(Reaches(o) && OwnBus(o) == Some(bus)
                && OwnAssociation(o) == None && AssociationAfter(objs[..i]) != "")
  {
    assert objs[..i + 1][..i] == objs[..i];
    ReachesIs(objs[i]);
    HandsIs(HealthState("", "", [], OK, true, true, false, 0, NO_FAULTS, NO_FAULTS, "", [], [], []), objs, i, bus);
    hide Hands, OwnAssociation, NotPassedOver;
  }

  function RunAll(d: Dev, calls: seq<DevAction>): Dev {
    if calls == [] then d else DevStep(RunAll(d, calls[..|calls| - 1]), calls[|calls| - 1]).dev
  }

  lemma RunAllSnoc(d: Dev, calls: seq<DevAction>, a: DevAction)
    ensures RunAll(d, calls + [a]) == DevStep(RunAll(d, calls), a).dev
  {
    assert (calls + [a])[..|calls|] == calls;
  }

  /** The drive's own reaction to the two calls that a round makes. */
  lemma CallIs(d: Dev, association: string)
    requires !d.halted
    ensures DevStep(d, Associate(association)).dev ==
            if association == "" then d
            else d.(healthState := UpdateDriveAssociations(d.healthState.(driveAssociation := association)))
    ensures DevStep(d, Initialize) ==
            Outcome(d.(control := d.control.(presence := false)), [DriveTypes.ScanControllers], false)
  {
  }

  /**
   A round of the inventory is, for a drive, those calls followed by one initialisation, and so
   a stretch of a run of the drive machine: what holds of every run holds across a round.
   */
  lemma {:induction false} RoundIsCalls(d: Dev, bus: nat, objs: seq<EmObject>)
    requires !d.halted
    ensures RunAll(d, Calls(bus, objs)) == d.(healthState := Placed(d.healthState, bus, objs))
    ensures var o := DevStep(RunAll(d, Calls(bus, objs)), Initialize);
            && o.dev == d.(healthState := Placed(d.healthState, bus, objs), control := d.control.(presence := false))
            && o.issue == [DriveTypes.ScanControllers] && !o.rearm
  {
    hide DevStep, UpdateDriveAssociations, BusAfter, AssociationAfter, Reaches;
    CallIs(d.(healthState := Placed(d.healthState, bus, objs)), "");
    if objs != [] {
      var n := |objs| - 1;
      var a := AssociationAfter(objs);
      RoundIsCalls(d, bus, objs[..n]);
      RunAllSnoc(d, Calls(bus, objs[..n]), Associate(a));
      if a != "" { CallIs(d.(healthState := Placed(d.healthState, bus, objs[..n])), a); }
      assert Calls(bus, objs[..n]) + [] == Calls(bus, objs[..n]);
    }
  }

  /** The last object that reaches the drives of a bus with an association decides it. */
  lemma {:induction false} PlacedIs(h: HealthState, bus: nat, objs: seq<EmObject>, i: nat)
    requires i < |objs| && Reaches(objs[i]) && BusAfter(objs[..i + 1]) == bus && AssociationAfter(objs[..i + 1]) != ""
    requires forall j :: i < j < |objs| && Reaches(objs[j]) ==> BusAfter(objs[..j + 1]) != bus
    ensures Placed(h, bus, objs).driveAssociation == AssociationAfter(objs[..i + 1])
  {
    var n := |objs| - 1;
    assert objs[..n + 1] == objs;
    if i < n {
      forall j | i < j < n && Reaches(objs[..n][j]) ensures BusAfter(objs[..n][..j + 1]) != bus {
        assert objs[..n][..j + 1] == objs[..j + 1];
      }
      assert objs[..n][..i + 1] == objs[..i + 1];
      PlacedIs(h, bus, objs[..n], i);
    }
  }

  /** A drive on a bus that no object reaches keeps its association. */
  lemma {:induction false} PlacedElsewhere(h: HealthState, bus: nat, objs: seq<EmObject>)
    requires forall j :: 0 <= j < |objs| && Reaches(objs[j]) ==> BusAfter(objs[..j + 1]) != bus
    ensures Placed(h, bus, objs) == h
  {
    if objs != [] {
      var n := |objs| - 1;
      assert objs[..n + 1] == objs;
      forall j | 0 <= j < n && Reaches(objs[..n][j]) ensures BusAfter(objs[..n][..j + 1]) != bus {
        assert objs[..n][..j + 1] == objs[..j + 1];
      }
      PlacedElsewhere(h, bus, objs[..n]);
    }
  }

  /** A drive whose own object names no chassis is filed under the chassis of the object before it. */
  lemma ChassisLeaks(h: HealthState)
    ensures var first := EmObject(true, Some(Some(1)), None, Some([("chassis", "containing", "/chassis/A")]));
            var second := EmObject(true, Some(Some(2)), None, None);
            Placed(h, 2, [first, second]).driveAssociation == "/chassis/A"
  {
    var first := EmObject(true, Some(Some(1)), None, Some([("chassis", "containing", "/chassis/A")]));
    var second := EmObject(true, Some(Some(2)), None, None);
    TwoObjects(first, second);
    PlacedIs(h, 2, [first, second], 1);
  }

  /** A drive with an object of its own is filed under the chassis of a later object that names no bus. */
  lemma BusLeaks(h: HealthState)
    ensures var first := EmObject(true, Some(Some(1)), None, Some([("chassis", "containing", "/chassis/A")]));
            var second := EmObject(true, None, None, Some([("chassis", "containing", "/chassis/B")]));
            && Placed(h, 1, [first]).driveAssociation == "/chassis/A"
            && Placed(h, 1, [first, second]).driveAssociation == "/chassis/B"
  {
    var first := EmObject(true, Some(Some(1)), None, Some([("chassis", "containing", "/chassis/A")]));
    var second := EmObject(true, None, None, Some([("chassis", "containing", "/chassis/B")]));
    TwoObjects(first, second);
    assert [first][..1] == [first];
    PlacedIs(h, 1, [first], 0);
    PlacedIs(h, 1, [first, second], 1);
  }

  lemma TwoObjects(first: EmObject, second: EmObject)
    ensures var objs := [first, second];
            && objs[..2] == objs && objs[..1] == [first]
            && BusAfter([first]) == NextBus(NO_OBJECT_BUS, first)
            && BusAfter(objs) == NextBus(NextBus(NO_OBJECT_BUS, first), second)
            && AssociationAfter([first]) == NextAssociation("", first)
            && AssociationAfter(objs) == NextAssociation(NextAssociation("", first), second)
  {
    assert [first, second][..1] == [first];
    hide NextBus, NextAssociation;
  }
}
