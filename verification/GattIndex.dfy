/** The two indexes the GATT server keeps over its connections (service/gatt_server.cc): by connection
    id and by printed device address. */
module GattIndex {
  import opened BtAddress

  /** A connection, shared by both indexes. `requests` maps request ids to attribute handles. */
  class Connection {
    const connId: int
    const bda: Address
    var requests: map<int, int>

    constructor (connId: int, bda: Address)
      ensures this.connId == connId && this.bda == bda && requests == map[]
    {
      this.connId, this.bda, requests := connId, bda, map[];
    }
  }

  datatype Indexes = Indexes(ids: map<int, Connection>, addrs: map<string, seq<Connection>>)

  function ListAt(addrs: map<string, seq<Connection>>, key: string): seq<Connection> {
    if key in addrs then addrs[key] else []
  }

  /** A list without the first connection that has the given id. */
  function Without(list: seq<Connection>, id: int): seq<Connection> {
    if list == [] then []
    else if list[0].connId == id then list[1..]
    else [list[0]] + Without(list[1..], id)
  }

  function Connect(x: Indexes, c: Connection): Indexes {
    var key := Print(c.bda);
    Indexes(x.ids[c.connId := c], x.addrs[key := ListAt(x.addrs, key) + [c]])
  }

  function Disconnect(x: Indexes, id: int, bda: Address): Indexes {
    var key := Print(bda);
    Indexes(x.ids - {id}, if key in x.addrs then x.addrs[key := Without(x.addrs[key], id)] else x.addrs)
  }

  // ----- consistency

  ghost predicate NoRepeats(list: seq<Connection>) {
    forall j, k :: 0 <= j < k < |list| ==> list[j].connId != list[k].connId
  }

  ghost predicate Belongs(x: Indexes, key: string, c: Connection) {
    c.connId in x.ids && x.ids[c.connId] == c && Print(c.bda) == key
  }

  /** Each list holds connections known by id, with that address, each once. */
  ghost predicate GoodList(x: Indexes, key: string, list: seq<Connection>) {
    NoRepeats(list) && forall k :: 0 <= k < |list| ==> Belongs(x, key, list[k])
  }

  /** Both indexes hold the same connections, each exactly once under its own id and its own address. */
  ghost predicate Consistent(x: Indexes) {
    && (forall id :: id in x.ids ==> x.ids[id].connId == id && x.ids[id] in ListAt(x.addrs, Print(x.ids[id].bda)))
    && forall key :: key in x.addrs ==> GoodList(x, key, x.addrs[key])
  }

  lemma ConnectKeeps(x: Indexes, c: Connection)
    requires Consistent(x) && c.connId !in x.ids
    ensures Consistent(Connect(x, c))
  {
    var r := Connect(x, c);
    forall id | id in r.ids ensures r.ids[id].connId == id && r.ids[id] in ListAt(r.addrs, Print(r.ids[id].bda)) {
      if id != c.connId { assert id in x.ids; }
    }
    forall key | key in r.addrs ensures GoodList(r, key, r.addrs[key]) {
      ExtendedListGood(x, c, key);
    }
  }

  lemma ExtendedListGood(x: Indexes, c: Connection, key: string)
    requires Consistent(x) && c.connId !in x.ids && (key in x.addrs || key == Print(c.bda))
    ensures GoodList(Connect(x, c), key, Connect(x, c).addrs[key])
  {
  }

  lemma {:induction false} WithoutFrom(list: seq<Connection>, k: nat, id: int)
    requires k <= |list| && forall j :: 0 <= j < k ==> list[j].connId != id
    ensures k == |list| ==> Without(list, id) == list
    ensures k < |list| && list[k].connId == id ==> Without(list, id) == list[..k] + list[k + 1..]
  {
    if k > 0 {
      var tail := list[1..];
      assert forall j :: 0 <= j < |tail| ==> tail[j] == list[j + 1];
      WithoutFrom(tail, k - 1, id);
      assert [list[0]] + tail == list;
      if k < |list| { assert [list[0]] + (tail[..k - 1] + tail[k..]) == list[..k] + list[k + 1..]; }
    }
  }

  lemma {:induction false} WithoutIs(list: seq<Connection>, id: int)
    requires NoRepeats(list)
    ensures NoRepeats(Without(list, id))
    ensures forall k :: 0 <= k < |Without(list, id)| ==> Without(list, id)[k] in list && Without(list, id)[k].connId != id
    ensures forall k :: 0 <= k < |list| && list[k].connId != id ==> list[k] in Without(list, id)
    decreases |list|
  {
    if list != [] {
      var tail := list[1..];
      assert forall k :: 0 < k < |list| ==> list[k] == tail[k - 1];
      if list[0].connId != id {
        WithoutIs(tail, id);
        var rest := Without(tail, id);
        assert NoRepeats([list[0]] + rest) by { HeadStaysApart(list, rest); }
      }
    }
  }

  lemma HeadStaysApart(list: seq<Connection>, rest: seq<Connection>)
    requires list != [] && NoRepeats(list) && NoRepeats(rest)
    requires forall k :: 0 <= k < |rest| ==> rest[k] in list[1..]
    ensures NoRepeats([list[0]] + rest)
  {
  }

  lemma DisconnectKeeps(x: Indexes, id: int, bda: Address)
    requires Consistent(x) && (id in x.ids ==> x.ids[id].bda == bda)
    ensures Consistent(Disconnect(x, id, bda))
  {
    var r, k0 := Disconnect(x, id, bda), Print(bda);
    if k0 in x.addrs {
      assert GoodList(x, k0, x.addrs[k0]);
      WithoutIs(x.addrs[k0], id);
    }
    forall i | i in r.ids ensures r.ids[i].connId == i && r.ids[i] in ListAt(r.addrs, Print(r.ids[i].bda)) {
      assert i in x.ids;
    }
    forall key | key in r.addrs ensures GoodList(r, key, r.addrs[key]) {
      OtherListsGood(x, id, bda, key);
    }
  }

  lemma OtherListsGood(x: Indexes, id: int, bda: Address, key: string)
    requires Consistent(x) && (id in x.ids ==> x.ids[id].bda == bda) && key in x.addrs
    ensures GoodList(Disconnect(x, id, bda), key, Disconnect(x, id, bda).addrs[key])
  {
    var list := x.addrs[key];
    assert GoodList(x, key, list);
    if key == Print(bda) {
      WithoutIs(list, id);
      var left := Without(list, id);
      forall k | 0 <= k < |left| ensures Belongs(Disconnect(x, id, bda), key, left[k]) {
        var j :| 0 <= j < |list| && list[j] == left[k];
        assert Belongs(x, key, list[j]);
      }
    } else {
      forall k | 0 <= k < |list| ensures Belongs(Disconnect(x, id, bda), key, list[k]) {
        assert Belongs(x, key, list[k]);
      }
    }
  }

  /** A disconnect keeps the indexes consistent if and only if it names an unknown connection or the
      address its connection was made with. */
  lemma DisconnectKeepsIff(x: Indexes, id: int, bda: Address)
    requires Consistent(x)
    ensures Consistent(Disconnect(x, id, bda)) <==> (id in x.ids ==> x.ids[id].bda == bda)
  {
    if id in x.ids ==> x.ids[id].bda == bda {
      DisconnectKeeps(x, id, bda);
    } else {
      var c := x.ids[id];
      var key := Print(c.bda);
      PrintIsInjective(c.bda, bda);
      var r := Disconnect(x, id, bda);
      assert c in x.addrs[key] && r.addrs[key] == x.addrs[key];
      var k :| 0 <= k < |r.addrs[key]| && r.addrs[key][k] == c;
      assert !Belongs(r, key, r.addrs[key][k]);
    }
  }

  // ----- runs

  datatype Event = Connected(conn: Connection) | Disconnected(id: int, bda: Address)

  /** ConnectionCallback: a connect for a known id is ignored. */
  function Step(x: Indexes, e: Event): Indexes {
    match e
    case Connected(c) => if c.connId in x.ids then x else Connect(x, c)
    case Disconnected(id, bda) => Disconnect(x, id, bda)
  }

  function After(events: seq<Event>): Indexes {
    if events == [] then Indexes(map[], map[]) else Step(After(events[..|events| - 1]), events[|events| - 1])
  }

  /** Every disconnect names the address its connect named. */
  ghost predicate Honest(events: seq<Event>) {
    forall k :: 0 <= k < |events| && events[k].Disconnected? && events[k].id in After(events[..k]).ids ==>
      After(events[..k]).ids[events[k].id].bda == events[k].bda
  }

  /** In every reachable state both indexes hold the same connections. */
  lemma {:induction false} AlwaysConsistent(events: seq<Event>)
    requires Honest(events)
    ensures Consistent(After(events))
    decreases |events|
  {
    if events != [] {
      var n := |events| - 1;
      var before := events[..n];
      assert forall k :: 0 <= k <= n ==> before[..k] == events[..k];
      assert forall k :: 0 <= k < n ==> before[k] == events[k];
      AlwaysConsistent(before);
      match events[n]
      case Connected(c) => if c.connId !in After(before).ids { ConnectKeeps(After(before), c); }
      case Disconnected(id, bda) => DisconnectKeeps(After(before), id, bda);
    }
  }

  // ----- which connections are open

  predicate Opens(e: Event, id: int) { e.Connected? && e.conn.connId == id }

  predicate Ends(e: Event, id: int) { e.Disconnected? && e.id == id }

  /** The event that opened the connection with this id: the first connect after the last disconnect, or -1. */
  function OpenedBy(events: seq<Event>, id: int): (k: int)
    ensures -1 <= k < |events| && (k >= 0 ==> Opens(events[k], id))
  {
    if events == [] then -1
    else
      var n := |events| - 1;
      var before := OpenedBy(events[..n], id);
      if Ends(events[n], id) then -1 else if before == -1 && Opens(events[n], id) then n else before
  }

  /** Before event `end` the id had ended, or never been, at `m`, and was not opened since. */
  ghost predicate Shut(events: seq<Event>, id: int, m: int, end: int) {
    0 <= m <= end <= |events| && (m > 0 ==> Ends(events[m - 1], id)) && forall j :: m <= j < end ==> !Opens(events[j], id)
  }

  lemma {:induction false} OpenedByIs(events: seq<Event>, id: int)
    ensures
      var k := OpenedBy(events, id);
      && (k >= 0 ==> forall j :: k < j < |events| ==> !Ends(events[j], id))
      && var end := if k >= 0 then k else |events|;
         exists m :: Shut(events, id, m, end)
    decreases |events|
  {
    if events == [] {
      assert Shut(events, id, 0, 0);
    } else {
      var n := |events| - 1;
      var start, k := events[..n], OpenedBy(events[..n], id);
      OpenedByIs(start, id);
      var m :| Shut(start, id, m, if k >= 0 then k else n);
      assert Shut(events, id, m, if k >= 0 then k else n);
      if Ends(events[n], id) {
        assert Shut(events, id, n + 1, n + 1);
      } else if k == -1 && !Opens(events[n], id) {
        assert Shut(events, id, m, n + 1);
      }
    }
  }

  /** A connection is known by its id exactly while it is open, and it is the one that was opened. */
  lemma {:induction false} KnownIff(events: seq<Event>, id: int)
    ensures
      var x, k := After(events), OpenedBy(events, id);
      (id in x.ids <==> k >= 0) && (k >= 0 ==> x.ids[id] == events[k].conn)
    decreases |events|
  {
    if events != [] { KnownIff(events[..|events| - 1], id); }
  }

  /** The connections of a list are in the order in which they were opened. */
  ghost predicate InOrder(list: seq<Connection>, events: seq<Event>) {
    forall j, k :: 0 <= j < k < |list| ==> OpenedBy(events, list[j].connId) < OpenedBy(events, list[k].connId)
  }

  lemma OneLessInOrder(list: seq<Connection>, at: nat, events: seq<Event>)
    requires InOrder(list, events) && at < |list|
    ensures InOrder(list[..at] + list[at + 1..], events)
  {
    var left := list[..at] + list[at + 1..];
    forall j, k | 0 <= j < k < |left| ensures OpenedBy(events, left[j].connId) < OpenedBy(events, left[k].connId) {
      var j', k' := if j < at then j else j + 1, if k < at then k else k + 1;
      assert left[j] == list[j'] && left[k] == list[k'];
    }
  }

  lemma {:induction false} WithoutInOrder(list: seq<Connection>, events: seq<Event>, id: int)
    requires InOrder(list, events)
    ensures InOrder(Without(list, id), events)
    decreases |list|
  {
    var at := 0;
    while at < |list| && list[at].connId != id
      invariant at <= |list| && forall j :: 0 <= j < at ==> list[j].connId != id
    {
      at := at + 1;
    }
    WithoutFrom(list, at, id);
    if at < |list| { OneLessInOrder(list, at, events); }
  }

  lemma StaysInOrder(list: seq<Connection>, events: seq<Event>)
    requires events != [] && InOrder(list, events[..|events| - 1])
    requires forall k :: 0 <= k < |list| ==>
               OpenedBy(events[..|events| - 1], list[k].connId) >= 0 && !Ends(events[|events| - 1], list[k].connId)
    ensures InOrder(list, events)
  {
  }

  lemma AllOpen(events: seq<Event>, list: seq<Connection>, key: string)
    requires Consistent(After(events)) && list == ListAt(After(events).addrs, key)
    ensures forall k :: 0 <= k < |list| ==> OpenedBy(events, list[k].connId) >= 0
  {
    forall k | 0 <= k < |list| ensures OpenedBy(events, list[k].connId) >= 0 {
      assert GoodList(After(events), key, list) && Belongs(After(events), key, list[k]);
      KnownIff(events, list[k].connId);
    }
  }

  /** The last event opens at most one connection. */
  lemma OpensOnlyOne(events: seq<Event>, id: int, last: int)
    requires events != [] && OpenedBy(events, last) == |events| - 1 && id != last
    ensures OpenedBy(events, id) < |events| - 1
  {
  }

  lemma OrderedWithNew(list: seq<Connection>, events: seq<Event>, c: Connection)
    requires events != [] && InOrder(list, events) && OpenedBy(events, c.connId) == |events| - 1
    requires forall k :: 0 <= k < |list| ==> list[k].connId != c.connId
    ensures InOrder(list + [c], events)
  {
    forall k | 0 <= k < |list| ensures OpenedBy(events, list[k].connId) < OpenedBy(events, c.connId) {
      OpensOnlyOne(events, list[k].connId, c.connId);
    }
  }

  /** The list of a device before and after one more event. */
  lemma ListAfter(x: Indexes, e: Event, key: string)
    requires Consistent(x)
    ensures
      var list, after := ListAt(x.addrs, key), ListAt(Step(x, e).addrs, key);
      && (e.Disconnected? ==> after == list || after == Without(list, e.id))
      && (e.Connected? && after != list ==> after == list + [e.conn] && e.conn.connId !in x.ids)
      && forall k :: 0 <= k < |list| ==> list[k].connId in x.ids
  {
    var list := ListAt(x.addrs, key);
    forall k | 0 <= k < |list| ensures list[k].connId in x.ids {
      assert GoodList(x, key, list) && Belongs(x, key, list[k]);
    }
  }

  lemma OrderAfter(list: seq<Connection>, after: seq<Connection>, events: seq<Event>)
    requires events != [] && InOrder(list, events[..|events| - 1])
    requires forall k :: 0 <= k < |list| ==> OpenedBy(events[..|events| - 1], list[k].connId) >= 0
    requires forall k :: 0 <= k < |after| ==> OpenedBy(events, after[k].connId) >= 0
    requires
      var e := events[|events| - 1];
      && (e.Disconnected? ==> after == list || after == Without(list, e.id))
      && (e.Connected? && after != list ==>
            after == list + [e.conn] && OpenedBy(events[..|events| - 1], e.conn.connId) == -1)
    ensures InOrder(after, events)
  {
    var before, e := events[..|events| - 1], events[|events| - 1];
    if e.Disconnected? {
      WithoutInOrder(list, before, e.id);
      StaysInOrder(after, events);
    } else {
      StaysInOrder(list, events);
      if after != list { OrderedWithNew(list, events, e.conn); }
    }
  }

  lemma OldestFirstStep(events: seq<Event>, key: string)
    requires events != [] && Honest(events) && Honest(events[..|events| - 1])
    requires InOrder(ListAt(After(events[..|events| - 1]).addrs, key), events[..|events| - 1])
    ensures InOrder(ListAt(After(events).addrs, key), events)
  {
    var before, e := events[..|events| - 1], events[|events| - 1];
    var x, r := After(before), After(events);
    var list, after := ListAt(x.addrs, key), ListAt(r.addrs, key);
    AlwaysConsistent(before);
    AlwaysConsistent(events);
    ListAfter(x, e, key);
    AllOpen(before, list, key);
    AllOpen(events, after, key);
    if e.Connected? { KnownIff(before, e.conn.connId); }
    OrderAfter(list, after, events);
  }

  /** Each device's list is in the order in which its connections were opened. */
  lemma {:induction false} OldestFirst(events: seq<Event>, key: string)
    requires Honest(events)
    ensures InOrder(ListAt(After(events).addrs, key), events)
    decreases |events|
  {
    if events != [] {
      var n := |events| - 1;
      var before := events[..n];
      assert Honest(before) by {
        assert forall k :: 0 <= k <= n ==> before[..k] == events[..k];
        assert forall k :: 0 <= k < n ==> before[k] == events[k];
      }
      OldestFirst(before, key);
      OldestFirstStep(events, key);
    }
  }
}
