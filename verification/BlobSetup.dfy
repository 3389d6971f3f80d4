/** How blob attributes come to be (AddCharacteristic, AddBlob and ServiceAddedCallback in
    service/gatt_server_old.cc): a blob is declared as two attributes, its value and its control, and
    only their positions in the declaration tie them together. */
module BlobSetup {
  import opened BlobModel
  import opened BlobReads
  import ST = ServiceTable

  const READ_WRITE: nat := 0xA
  const PERMISSION_READ_WRITE: nat := 0x11

  /** The notify bit of the properties. */
  predicate Notifies(properties: nat) { properties / 16 % 2 == 1 }

  datatype Declaration =
    | Plain(uuid: nat, properties: nat, permissions: nat)
    | Blob(uuid: nat, control: nat, properties: nat, permissions: nat)

  function Attribute(uuid: nat, properties: nat, permissions: nat): ST.Element {
    ST.Element(ST.CharacteristicKind, uuid, 0, properties, permissions)
  }

  function Elements(d: Declaration): seq<ST.Element> {
    match d
    case Plain(uuid, properties, permissions) => [Attribute(uuid, properties, permissions)]
    case Blob(uuid, control, properties, permissions) =>
      [Attribute(uuid, properties, permissions), Attribute(control, READ_WRITE, PERMISSION_READ_WRITE)]
  }

  /** The positions remembered for a declaration made when `size` elements are pending. */
  function Marks(size: nat, d: Declaration): set<nat> { if d.Blob? then {size + 1} else {} }

  /** What is pending after `ds` have been declared; `head` is the service itself. */
  function Pending(head: ST.Element, ds: seq<Declaration>): seq<ST.Element> {
    if ds == [] then [head]
    else Pending(head, ds[..|ds| - 1]) + Elements(ds[|ds| - 1])
  }

  function Index(head: ST.Element, ds: seq<Declaration>): set<nat> {
    if ds == [] then {}
    else
      var n := |ds| - 1;
      Index(head, ds[..n]) + Marks(|Pending(head, ds[..n])|, ds[n])
  }

  // ----- the service has been added

  /** The characteristic before position `i`: its handle and properties, or zeros. */
  function Previous(svc: seq<ST.Element>, i: nat): (int, nat)
    requires 1 <= i <= |svc|
  {
    if i == 1 then (0, 0)
    else if svc[i - 1].kind == ST.CharacteristicKind then (svc[i - 1].handle, svc[i - 1].properties)
    else Previous(svc, i - 1)
  }

  function AddOne(t: Table, e: ST.Element): Table {
    Put(t.(attributes := t.attributes[e.uuid := e.handle]), e.handle,
        Get(t, e.handle).(uuid := e.uuid, section := 0))
  }

  /** The control attribute starts as a readable zero. */
  function Link(t: Table, control: int, value: int, notify: bool): Table {
    var t1 := Put(t, value, Get(t, value).(notify := notify));
    Put(t1, control, Get(t1, control).(next := [0], pending := true, section := 0, notify := false))
      .(controlled := t.controlled[control := value])
  }

  function AddElement(t: Table, index: set<nat>, svc: seq<ST.Element>, i: nat): Table
    requires 1 <= i < |svc|
  {
    var e := svc[i];
    if e.kind != ST.CharacteristicKind then t
    else if i in index then Link(AddOne(t, e), e.handle, Previous(svc, i).0, Notifies(Previous(svc, i).1))
    else AddOne(t, e)
  }

  /** The table after the first `n` elements of the added service. */
  function Added(t: Table, index: set<nat>, svc: seq<ST.Element>, n: nat): Table
    requires 1 <= n <= |svc|
  {
    if n == 1 then t else AddElement(Added(t, index, svc, n - 1), index, svc, n - 1)
  }

  // ----- every control attribute selects sections of its own value

  /** The place of declaration `k` in the service. */
  function Place(head: ST.Element, ds: seq<Declaration>, k: nat): nat
    requires k <= |ds|
  {
    |Pending(head, ds[..k])|
  }

  lemma {:induction false} PendingGrows(head: ST.Element, ds: seq<Declaration>, k: nat)
    requires k <= |ds|
    ensures Pending(head, ds[..k]) <= Pending(head, ds)
    decreases |ds|
  {
    if k == |ds| {
      assert ds[..k] == ds;
    } else {
      var n := |ds| - 1;
      assert ds[..n][..k] == ds[..k];
      PendingGrows(head, ds[..n], k);
    }
  }

  /** A declaration stays where it was made. */
  lemma PlaceHolds(head: ST.Element, ds: seq<Declaration>, k: nat)
    requires k < |ds|
    ensures
      var p := Place(head, ds, k);
      && 1 <= p && p + |Elements(ds[k])| <= |Pending(head, ds)|
      && Pending(head, ds)[p..p + |Elements(ds[k])|] == Elements(ds[k])
  {
    IndexBounded(head, ds[..k]);
    assert ds[..k + 1][..k] == ds[..k];
    PendingGrows(head, ds, k + 1);
  }

  /** The second attribute of a blob is remembered, and the first of any declaration is not. */
  lemma {:induction false} PlaceIndexed(head: ST.Element, ds: seq<Declaration>, k: nat)
    requires k < |ds|
    ensures
      var p := Place(head, ds, k);
      p !in Index(head, ds) && (ds[k].Blob? ==> p + 1 in Index(head, ds))
    decreases |ds|
  {
    var n := |ds| - 1;
    IndexBounded(head, ds[..n]);
    if k < n {
      PlaceIndexed(head, ds[..n], k);
      PlaceHolds(head, ds[..n], k);
      assert ds[..n][..k] == ds[..k];
    }
  }

  lemma {:induction false} IndexBounded(head: ST.Element, ds: seq<Declaration>)
    ensures |Pending(head, ds)| >= 1
    ensures forall i :: i in Index(head, ds) ==> 2 <= i < |Pending(head, ds)|
    ensures forall i :: 1 <= i < |Pending(head, ds)| ==> Pending(head, ds)[i].kind == ST.CharacteristicKind
    decreases |ds|
  {
    if ds != [] {
      IndexBounded(head, ds[..|ds| - 1]);
    }
  }

  /** The handles are the stack's own and new. */
  ghost predicate NewHandles(t: Table, svc: seq<ST.Element>) {
    && (forall i, j :: 1 <= i < j < |svc| ==> svc[i].handle != svc[j].handle)
    && (forall i :: 1 <= i < |svc| ==> svc[i].handle !in t.controlled)
  }

  ghost predicate AllCharacteristics(svc: seq<ST.Element>, index: set<nat>) {
    && (forall i :: 1 <= i < |svc| ==> svc[i].kind == ST.CharacteristicKind)
    && (forall i :: i in index ==> 2 <= i < |svc|)
  }

  lemma {:induction false} ControlledBy(t: Table, index: set<nat>, svc: seq<ST.Element>, i: nat, n: nat)
    requires 1 <= n <= |svc| && 1 <= i < |svc| && AllCharacteristics(svc, index) && NewHandles(t, svc)
    ensures
      var r := Added(t, index, svc, n);
      if i in index && i < n
      then svc[i].handle in r.controlled && r.controlled[svc[i].handle] == svc[i - 1].handle
      else svc[i].handle !in r.controlled
    decreases n
  {
    if n > 1 {
      ControlledBy(t, index, svc, i, n - 1);
      assert i != n - 1 ==> svc[i].handle != svc[n - 1].handle;
    }
  }

  /** Both attributes carry the declared UUIDs, both show section 0, the control attribute is about to
      read as zero and is never notified, and the value is notified if its properties say so. */
  ghost predicate Paired(r: Table, control: ST.Element, value: ST.Element) {
    var c, v := Get(r, control.handle), Get(r, value.handle);
    && c.uuid == control.uuid && c.section == 0 && c.next == [0] && c.pending && !c.notify
    && v.uuid == value.uuid && v.section == 0 && v.notify == Notifies(value.properties)
  }

  lemma JustLinked(t: Table, index: set<nat>, svc: seq<ST.Element>, i: nat)
    requires 2 <= i < |svc| && i in index && i - 1 !in index
    requires AllCharacteristics(svc, index) && svc[i].handle != svc[i - 1].handle
    ensures Paired(Added(t, index, svc, i + 1), svc[i], svc[i - 1])
  {
  }

  /** What later elements leave alone: attribute `i` keeps its place once it and its control are in. */
  lemma {:induction false} Settled(t: Table, index: set<nat>, svc: seq<ST.Element>, i: nat, n: nat)
    requires 2 <= i < n <= |svc| && i in index && i - 1 !in index && i + 1 !in index
    requires AllCharacteristics(svc, index) && NewHandles(t, svc)
    ensures Paired(Added(t, index, svc, n), svc[i], svc[i - 1])
    decreases n
  {
    if n == i + 1 {
      JustLinked(t, index, svc, i);
    } else {
      Settled(t, index, svc, i, n - 1);
      assert svc[n - 1].handle != svc[i].handle && svc[n - 1].handle != svc[i - 1].handle;
      if n - 1 in index {
        assert svc[n - 2].handle != svc[i].handle && svc[n - 2].handle != svc[i - 1].handle;
      }
    }
  }

  lemma PairedAt(t: Table, index: set<nat>, svc: seq<ST.Element>, i: nat)
    requires 2 <= i < |svc| && i in index && i - 1 !in index && i + 1 !in index
    requires AllCharacteristics(svc, index) && NewHandles(t, svc)
    ensures Controls(Added(t, index, svc, |svc|), svc[i - 1].handle, svc[i].handle)
    ensures Paired(Added(t, index, svc, |svc|), svc[i], svc[i - 1])
  {
    ControlledBy(t, index, svc, i - 1, |svc|);
    ControlledBy(t, index, svc, i, |svc|);
    Settled(t, index, svc, i, |svc|);
  }

  lemma LinkedTogether(head: ST.Element, ds: seq<Declaration>, t: Table, svc: seq<ST.Element>, k: nat)
    requires ST.HandlesAssigned(Pending(head, ds), svc) && NewHandles(t, svc)
    requires k < |ds| && ds[k].Blob?
    ensures
      var p := Place(head, ds, k);
      && 1 <= p && p + 1 < |svc|
      && svc[p].uuid == ds[k].uuid && svc[p].properties == ds[k].properties && svc[p + 1].uuid == ds[k].control
      && AllCharacteristics(svc, Index(head, ds))
      && p + 1 in Index(head, ds) && p !in Index(head, ds)
  {
    var p := Place(head, ds, k);
    PlaceHolds(head, ds, k);
    PlaceIndexed(head, ds, k);
    IndexBounded(head, ds);
    var slice := Pending(head, ds)[p..p + 2];
    assert slice[0] == Pending(head, ds)[p] && slice[1] == Pending(head, ds)[p + 1];
  }

  /** Whatever is declared, in whatever order, and whatever new handles the stack assigns: once the
      service is in, the control attribute of every blob controls the value attribute of that blob, and
      both are as declared. */
  lemma EveryBlobIsControlled(head: ST.Element, ds: seq<Declaration>, t: Table, svc: seq<ST.Element>, k: nat)
    requires ST.HandlesAssigned(Pending(head, ds), svc) && NewHandles(t, svc)
    requires k < |ds| && ds[k].Blob?
    ensures
      var p := Place(head, ds, k);
      && 1 <= p && p + 1 < |svc|
      && svc[p].uuid == ds[k].uuid && svc[p + 1].uuid == ds[k].control
      && svc[p].properties == ds[k].properties
      && Controls(Added(t, Index(head, ds), svc, |svc|), svc[p].handle, svc[p + 1].handle)
      && Paired(Added(t, Index(head, ds), svc, |svc|), svc[p + 1], svc[p])
  {
    var p, index := Place(head, ds, k), Index(head, ds);
    LinkedTogether(head, ds, t, svc, k);
    NextIsValue(head, ds, k);
    PairedAt(t, index, svc, p + 1);
  }

  /** The first read of a control attribute gives one zero octet. */
  lemma ControlReadsZero(r: Table, control: ST.Element, value: ST.Element)
    requires Paired(r, control, value)
    ensures Reply(Get(AfterRead(r, control.handle, 0), control.handle), 0) == [0]
  {
  }

  /** An attribute added on its own controls nothing. */
  lemma PlainControlsNothing(head: ST.Element, ds: seq<Declaration>, t: Table, svc: seq<ST.Element>, k: nat)
    requires ST.HandlesAssigned(Pending(head, ds), svc) && NewHandles(t, svc)
    requires k < |ds|
    ensures
      var p := Place(head, ds, k);
      1 <= p < |svc| && svc[p].handle !in Added(t, Index(head, ds), svc, |svc|).controlled
  {
    PlaceHolds(head, ds, k);
    PlaceIndexed(head, ds, k);
    IndexBounded(head, ds);
    ControlledBy(t, Index(head, ds), svc, Place(head, ds, k), |svc|);
  }

  lemma NextIsValue(head: ST.Element, ds: seq<Declaration>, k: nat)
    requires k < |ds| && ds[k].Blob?
    ensures Place(head, ds, k) + 2 !in Index(head, ds)
  {
    assert ds[..k + 1][..k] == ds[..k];
    assert Place(head, ds, k + 1) == Place(head, ds, k) + 2;
    if k + 1 < |ds| {
      PlaceIndexed(head, ds, k + 1);
    } else {
      IndexBounded(head, ds);
      assert ds[..k + 1] == ds;
    }
  }
}
