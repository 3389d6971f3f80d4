/** The service table of the GATT server (AddService and ServiceAddedCallback in
    service/gatt_server.cc): a service is posted to the stack as a flat list of attributes, and read
    back, with handles assigned, when the stack has added it. */
module ServiceTable {
  import opened Collections
  import opened Transducers

  datatype Descriptor = Descriptor(handle: nat, uuid: nat, permissions: nat)

  datatype Characteristic = Characteristic(handle: nat, uuid: nat, properties: nat, permissions: nat,
                                           descriptors: seq<Descriptor>)

  datatype Service = Service(handle: nat, primary: bool, uuid: nat, characteristics: seq<Characteristic>,
                             included: seq<Service>)

  datatype Kind = PrimaryKind | SecondaryKind | IncludedKind | CharacteristicKind | DescriptorKind

  datatype Element = Element(kind: Kind, uuid: nat, handle: nat, properties: nat, permissions: nat)

  // ----- one attribute of the table

  function OfDescriptor(d: Descriptor): Element {
    Element(DescriptorKind, d.uuid, d.handle, 0, d.permissions)
  }

  function OfCharacteristic(c: Characteristic): Element {
    Element(CharacteristicKind, c.uuid, c.handle, c.properties, c.permissions)
  }

  function OfIncluded(s: Service): Element { Element(IncludedKind, 0, s.handle, 0, 0) }

  // ----- the whole table

  function ListDescriptors(ds: seq<Descriptor>): (r: seq<Element>)
    ensures |r| == |ds|
  {
    seq(|ds|, i requires 0 <= i < |ds| => OfDescriptor(ds[i]))
  }

  /** Every characteristic is followed by its own descriptors. */
  function List(cs: seq<Characteristic>): seq<Element> {
    if cs == [] then []
    else
      var n := |cs| - 1;
      List(cs[..n]) + [OfCharacteristic(cs[n])] + ListDescriptors(cs[n].descriptors)
  }

  function ListIncluded(ss: seq<Service>): (r: seq<Element>)
    ensures |r| == |ss|
  {
    seq(|ss|, i requires 0 <= i < |ss| => OfIncluded(ss[i]))
  }

  /** Attributes are posted without a handle; the stack assigns one. */
  function Blank(es: seq<Element>): (r: seq<Element>)
    ensures |r| == |es|
  {
    seq(|es|, i requires 0 <= i < |es| => es[i].(handle := 0))
  }

  function Posted(s: Service): seq<Element> {
    [Element(if s.primary then PrimaryKind else SecondaryKind, s.uuid, 0, 0, 0)] +
    Blank(List(s.characteristics)) + ListIncluded(s.included)
  }

  method AddDescriptors(svc: seq<Element>, ds: seq<Descriptor>) returns (r: seq<Element>)
    ensures r == svc + Blank(ListDescriptors(ds))
  {
    r := svc;
    for i := 0 to |ds|
      invariant r == svc + Blank(ListDescriptors(ds[..i]))
    {
      r := r + [Element(DescriptorKind, ds[i].uuid, 0, 0, ds[i].permissions)];
    }
    assert ds[..|ds|] == ds;
  }

  /** The table AddService hands to the stack. */
  method Post(s: Service) returns (svc: seq<Element>)
    ensures svc == Posted(s)
  {
    ghost var head := [Element(if s.primary then PrimaryKind else SecondaryKind, s.uuid, 0, 0, 0)];
    svc := [Element(if s.primary then PrimaryKind else SecondaryKind, s.uuid, 0, 0, 0)];
    var cs := s.characteristics;
    for i := 0 to |cs|
      invariant svc == head + Blank(List(cs[..i]))
    {
      svc := svc + [Element(CharacteristicKind, cs[i].uuid, 0, cs[i].properties, cs[i].permissions)];
      svc := AddDescriptors(svc, cs[i].descriptors);
      assert cs[..i + 1][..i] == cs[..i];
    }
    assert cs[..|cs|] == cs;
    ghost var before := svc;
    for i := 0 to |s.included|
      invariant svc == before + ListIncluded(s.included[..i])
    {
      svc := svc + [Element(IncludedKind, 0, s.included[i].handle, 0, 0)];
    }
    assert s.included[..|s.included|] == s.included;
  }

  // ----- reading it back

  /** What one attribute of the table does to the characteristics read so far. A descriptor belongs to
      the last one; the source has no meaning for a descriptor that comes first. */
  function Attach(cs: Option<seq<Characteristic>>, e: Element): Option<seq<Characteristic>> {
    if cs.None? then None
    else match e.kind {
      case CharacteristicKind =>
        Some(cs.value + [Characteristic(e.handle, e.uuid, e.properties, e.permissions, [])])
      case DescriptorKind =>
        if cs.value == [] then None
        else Some(AttachDescriptor(cs.value, Descriptor(e.handle, e.uuid, e.permissions)))
      case _ => cs
    }
  }

  function AttachDescriptor(cs: seq<Characteristic>, d: Descriptor): seq<Characteristic>
    requires cs != []
  {
    var n := |cs| - 1;
    cs[n := cs[n].(descriptors := cs[n].descriptors + [d])]
  }

  function Attached(es: seq<Element>): Option<seq<Characteristic>> { Fold(Attach, Some([]), es) }

  /** The service that ServiceAddedCallback reports for the table `svc`. */
  function Rebuilt(svc: seq<Element>): Option<Service>
    requires svc != []
  {
    match Attached(svc[1..])
    case None => None
    case Some(cs) => Some(Service(svc[0].handle, true, svc[0].uuid, cs, []))
  }

  lemma {:induction false} NoneStays(es: seq<Element>, i: nat)
    requires i <= |es| && Attached(es[..i]).None?
    ensures Attached(es).None?
    decreases |es| - i
  {
    if i == |es| {
      assert es[..i] == es;
    } else {
      assert es[..i + 1][..i] == es[..i];
      NoneStays(es, i + 1);
    }
  }

  method ServiceAdded(svc: seq<Element>) returns (service: Service)
    requires svc != [] && Rebuilt(svc).Some?
    ensures Rebuilt(svc) == Some(service)
  {
    var cs: seq<Characteristic> := [];
    ghost var es := svc[1..];
    var i := 1;
    while i < |svc|
      invariant 1 <= i <= |svc|
      invariant Attached(es[..i - 1]) == Some(cs)
    {
      var curr := svc[i];
      assert curr == es[i - 1] && es[..i][..i - 1] == es[..i - 1];
      if Attached(es[..i]).None? { NoneStays(es, i); }
      if curr.kind == CharacteristicKind {
        cs := cs + [Characteristic(curr.handle, curr.uuid, curr.properties, curr.permissions, [])];
      } else if curr.kind == DescriptorKind {
        var n := |cs| - 1;
        cs := cs[n := cs[n].(descriptors := cs[n].descriptors + [Descriptor(curr.handle, curr.uuid, curr.permissions)])];
      }
      i := i + 1;
    }
    assert es[..|svc| - 1] == es;
    service := Service(svc[0].handle, true, svc[0].uuid, cs, []);
  }

  // ----- the round trip

  /** The stack changes nothing but handles. */
  ghost predicate HandlesAssigned(posted: seq<Element>, added: seq<Element>) {
    |added| == |posted| && forall i :: 0 <= i < |added| ==> added[i] == posted[i].(handle := added[i].handle)
  }

  ghost predicate SameDescriptors(a: seq<Descriptor>, b: seq<Descriptor>) {
    |a| == |b| && forall i :: 0 <= i < |a| ==> a[i] == b[i].(handle := a[i].handle)
  }

  ghost predicate SameCharacteristic(a: Characteristic, b: Characteristic) {
    && a == b.(handle := a.handle, descriptors := a.descriptors)
    && SameDescriptors(a.descriptors, b.descriptors)
  }

  /** Equal up to handles, characteristic by characteristic and in order. */
  ghost predicate Same(a: seq<Characteristic>, b: seq<Characteristic>) {
    |a| == |b| && forall i :: 0 <= i < |a| ==> SameCharacteristic(a[i], b[i])
  }

  ghost predicate SameService(a: Service, b: Service) {
    a.primary == b.primary && a.uuid == b.uuid && a.included == b.included && Same(a.characteristics, b.characteristics)
  }

  /** Descriptor attributes fill the characteristic they follow. */
  lemma {:induction false} DescriptorsAttach(cs: seq<Characteristic>, c: Characteristic, t: seq<Element>, ds: seq<Descriptor>)
    requires c.descriptors == [] && HandlesAssigned(ListDescriptors(ds), t)
    ensures Fold(Attach, Some(cs + [c]), t) == Some(cs + [c.(descriptors := Read(t))])
    ensures SameDescriptors(Read(t), ds) && ListDescriptors(Read(t)) == t
    decreases |t|
  {
    if t == [] {
      assert c.(descriptors := Read(t)) == c;
    } else {
      var n := |t| - 1;
      assert HandlesAssigned(ListDescriptors(ds[..n]), t[..n]);
      DescriptorsAttach(cs, c, t[..n], ds[..n]);
      var d := Descriptor(t[n].handle, t[n].uuid, t[n].permissions);
      assert Read(t) == Read(t[..n]) + [d];
      assert t[n] == ListDescriptors(ds)[n].(handle := t[n].handle);
      var filled := cs + [c.(descriptors := Read(t[..n]))];
      assert AttachDescriptor(filled, d) == cs + [c.(descriptors := Read(t))];
    }
  }

  function Read(t: seq<Element>): (r: seq<Descriptor>)
    ensures |r| == |t|
  {
    seq(|t|, i requires 0 <= i < |t| => Descriptor(t[i].handle, t[i].uuid, t[i].permissions))
  }

  /** A table of characteristics is read back as those characteristics, and every attribute gives its
      handle to the entity it stands for. */
  lemma {:induction false} CharacteristicsReturn(cs: seq<Characteristic>, t: seq<Element>) returns (r: seq<Characteristic>)
    requires HandlesAssigned(List(cs), t)
    ensures Attached(t) == Some(r) && Same(r, cs) && List(r) == t
    decreases |cs|
  {
    if cs == [] {
      r := [];
    } else {
      var n := |cs| - 1;
      var m := |List(cs[..n])|;
      var before := CharacteristicsReturn(cs[..n], t[..m]);
      var c := Characteristic(t[m].handle, t[m].uuid, t[m].properties, t[m].permissions, []);
      r := before + [c.(descriptors := Read(t[m + 1..]))];
      assert t[m] == OfCharacteristic(cs[n]).(handle := t[m].handle) by {
        assert List(cs)[m] == OfCharacteristic(cs[n]);
      }
      DescriptorsFollow(cs, t);
      DescriptorsAttach(before, c, t[m + 1..], cs[n].descriptors);
      SplitAt(t, m);
      assert r[..n] == before;
    }
  }

  lemma DescriptorsFollow(cs: seq<Characteristic>, t: seq<Element>)
    requires cs != [] && HandlesAssigned(List(cs), t)
    ensures
      var n := |cs| - 1;
      HandlesAssigned(ListDescriptors(cs[n].descriptors), t[|List(cs[..n])| + 1..])
  {
  }

  /** Reading a table is reading its first `m` attributes, then the next one, then the rest. */
  lemma SplitAt(t: seq<Element>, m: nat)
    requires m < |t|
    ensures t == t[..m] + [t[m]] + t[m + 1..]
    ensures Attached(t) == Fold(Attach, Attach(Attached(t[..m]), t[m]), t[m + 1..])
  {
    assert t == t[..m + 1] + t[m + 1..] && t[..m + 1][..m] == t[..m];
    FoldConcat(Attach, Some([]), t[..m + 1], t[m + 1..]);
  }

  ghost predicate AllIncluded(t: seq<Element>) {
    forall i :: 0 <= i < |t| ==> t[i].kind == IncludedKind
  }

  /** Included services leave no trace in what is read back. */
  lemma {:induction false} IncludedIgnored(cs: Option<seq<Characteristic>>, t: seq<Element>)
    requires AllIncluded(t)
    ensures Fold(Attach, cs, t) == cs
    decreases |t|
  {
    if t != [] {
      IncludedIgnored(cs, t[..|t| - 1]);
    }
  }

  /** Whatever handles the stack assigns, the table posted for a service is read back as a service with
      the same characteristics and descriptors in the same order, each with the handle of its own
      attribute. It is the posted service again exactly when that was a primary service without
      included services. */
  lemma RoundTrip(s: Service, svc: seq<Element>) returns (r: Service)
    requires HandlesAssigned(Posted(s), svc)
    ensures svc != [] && Rebuilt(svc) == Some(r)
    ensures r.handle == svc[0].handle && r.uuid == s.uuid
    ensures Same(r.characteristics, s.characteristics)
    ensures List(r.characteristics) == svc[1..|svc| - |s.included|]
    ensures SameService(r, s) <==> s.primary && s.included == []
  {
    var k := |List(s.characteristics)|;
    var body, tail := svc[1..k + 1], svc[k + 1..];
    BodyAndTail(s, svc);
    var cs := CharacteristicsReturn(s.characteristics, body);
    IncludedIgnored(Some(cs), tail);
    assert svc[1..] == body + tail;
    FoldConcat(Attach, Some([]), body, tail);
    assert svc[0] == Posted(s)[0].(handle := svc[0].handle);
    r := Service(svc[0].handle, true, svc[0].uuid, cs, []);
  }

  lemma BodyAndTail(s: Service, svc: seq<Element>)
    requires HandlesAssigned(Posted(s), svc)
    ensures
      var k := |List(s.characteristics)|;
      && |svc| == 1 + k + |s.included|
      && HandlesAssigned(List(s.characteristics), svc[1..k + 1])
      && AllIncluded(svc[k + 1..])
  {
  }

  // ----- what a table says

  lemma BlankConcat(a: seq<Element>, b: seq<Element>)
    ensures Blank(a + b) == Blank(a) + Blank(b)
  {
  }

  lemma {:induction false} SameListedAlike(a: seq<Characteristic>, b: seq<Characteristic>)
    requires Same(a, b)
    ensures Blank(List(a)) == Blank(List(b))
    decreases |a|
  {
    if a != [] {
      var n := |a| - 1;
      SameListedAlike(a[..n], b[..n]);
      assert SameCharacteristic(a[n], b[n]);
      AlikeWithDescriptors(a, n);
      AlikeWithDescriptors(b, n);
      assert Blank([OfCharacteristic(a[n])]) == Blank([OfCharacteristic(b[n])]);
      assert Blank(ListDescriptors(a[n].descriptors)) == Blank(ListDescriptors(b[n].descriptors));
    }
  }

  lemma AlikeWithDescriptors(cs: seq<Characteristic>, n: nat)
    requires n + 1 == |cs|
    ensures Blank(List(cs)) ==
            Blank(List(cs[..n])) + Blank([OfCharacteristic(cs[n])]) + Blank(ListDescriptors(cs[n].descriptors))
  {
    BlankConcat(List(cs[..n]), [OfCharacteristic(cs[n])]);
    BlankConcat(List(cs[..n]) + [OfCharacteristic(cs[n])], ListDescriptors(cs[n].descriptors));
  }

  lemma SameTrans(a: seq<Characteristic>, b: seq<Characteristic>, c: seq<Characteristic>)
    requires Same(c, a) && Same(c, b)
    ensures Same(a, b)
  {
    forall i | 0 <= i < |a| ensures SameCharacteristic(a[i], b[i]) {
      assert SameCharacteristic(c[i], a[i]) && SameCharacteristic(c[i], b[i]);
      var x, y, z := a[i].descriptors, b[i].descriptors, c[i].descriptors;
      forall j | 0 <= j < |x| ensures x[j] == y[j].(handle := x[j].handle) {
        assert z[j] == x[j].(handle := z[j].handle) && z[j] == y[j].(handle := z[j].handle);
      }
    }
  }

  ghost predicate SameHandles(a: seq<Service>, b: seq<Service>) {
    |a| == |b| && forall i :: 0 <= i < |a| ==> a[i].handle == b[i].handle
  }

  /** Two services are posted as the same table exactly if they agree on being primary, on the UUID, on the
      handles of the included services and, but for handles, on characteristics and descriptors, in order. */
  lemma PostedAlikeIff(s: Service, t: Service)
    ensures Posted(s) == Posted(t) <==>
              s.primary == t.primary && s.uuid == t.uuid &&
              Same(s.characteristics, t.characteristics) && SameHandles(s.included, t.included)
  {
    if Posted(s) == Posted(t) {
      PostedDetermines(s, t);
    }
    if Same(s.characteristics, t.characteristics) && SameHandles(s.included, t.included) {
      SameListedAlike(s.characteristics, t.characteristics);
      assert ListIncluded(s.included) == ListIncluded(t.included);
    }
  }

  lemma PostedDetermines(s: Service, t: Service)
    requires Posted(s) == Posted(t)
    ensures s.primary == t.primary && s.uuid == t.uuid
    ensures Same(s.characteristics, t.characteristics) && SameHandles(s.included, t.included)
  {
    var svc := Posted(s);
    var r := RoundTrip(s, svc);
    var q := RoundTrip(t, svc);
    SameTrans(s.characteristics, t.characteristics, r.characteristics);
    assert svc[0] == Posted(t)[0];
    assert |s.included| == |t.included|;
    IncludedAt(s);
    IncludedAt(t);
  }

  lemma IncludedAt(s: Service)
    ensures forall i :: 0 <= i < |s.included| ==> Posted(s)[|Posted(s)| - |s.included| + i].handle == s.included[i].handle
  {
  }
}
