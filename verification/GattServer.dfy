/** The GATT server object of service/gatt_server.cc. Every public operation runs under its mutex, so
    each is one step; answers of the stack and of address parsing come in as parameters. */
module GattServer {
  import opened Bytes
  import opened BtAddress
  import opened Collections
  import opened GattIndex
  import I = GattIndications

  const MAX_ATTR_LEN: nat := 600

  /** An indication in progress, shared by the connections it was sent on. */
  class PendingIndication {
    const hasCallback: bool
    var hasSuccess: bool
    ghost const serial: nat

    constructor (hasCallback: bool, ghost serial: nat)
      ensures this.hasCallback == hasCallback && !hasSuccess && this.serial == serial
    {
      this.hasCallback, hasSuccess, this.serial := hasCallback, false, serial;
    }
  }

  /** What is handed to the stack in answer to a request. */
  datatype Response = Response(connId: int, requestId: int, error: int, handle: int, offset: int, value: seq<byte>)

  /** The five requests of a peer. */
  datatype Request =
    | ReadCharacteristic(handle: int, offset: int, isLong: bool)
    | ReadDescriptor(handle: int, offset: int, isLong: bool)
    | WriteCharacteristic(handle: int, offset: int, needRsp: bool, isPrep: bool, value: seq<byte>)
    | WriteDescriptor(handle: int, offset: int, needRsp: bool, isPrep: bool, value: seq<byte>)
    | ExecuteWrite(execute: bool)

  /** Every request but a write without response is to be answered. */
  predicate ToAnswer(r: Request) { r.WriteCharacteristic? || r.WriteDescriptor? ==> r.needRsp }

  /** The handle a request is remembered with; an execute-write request has none. */
  function HandleOf(r: Request): int { if r.ExecuteWrite? then -1 else r.handle }

  /** A request as the delegate hears of it. */
  datatype Notice = Notice(deviceAddress: string, requestId: int, request: Request)

  /** A notification or indication as the stack is asked to send it. */
  datatype Indicate = Indicate(connId: int, handle: int, confirm: bool, value: seq<byte>)

  /** What the stack is asked in the send loop: one call for every connection that has nothing pending
      when its turn comes, in the order of the list and all with the same contents. */
  function Asked(b: I.Book, t: nat, conns: seq<int>, accepted: seq<bool>, handle: int, confirm: bool, value: seq<byte>)
    : seq<Indicate>
    requires t < |b.made| && |conns| == |accepted|
  {
    if conns == [] then []
    else
      var n := |conns| - 1;
      Asked(b, t, conns[..n], accepted[..n], handle, confirm, value) +
      if I.Idle(I.SendAll(b, t, conns[..n], accepted[..n]), conns[n])
      then [Indicate(conns[n], handle, confirm, value)] else []
  }

  /** The connection ids of a list, and what the stack says to each of them. */
  function Ids(list: seq<Connection>): seq<int> {
    seq(|list|, k requires 0 <= k < |list| => list[k].connId)
  }

  /** The size test of SendResponse, on unsigned numbers: a negative sum wraps around and is too large. */
  predicate FitsAttribute(value: seq<byte>, offset: int) { 0 <= |value| + offset <= MAX_ATTR_LEN }

  function Answers(list: seq<Connection>, accepts: int -> bool): seq<bool> {
    seq(|list|, k requires 0 <= k < |list| => accepts(list[k].connId))
  }

  /** What turn `k` of the send loop adds. */
  lemma LoopTurn(b: I.Book, t: nat, conns: seq<int>, accepted: seq<bool>, k: nat, handle: int, confirm: bool, value: seq<byte>)
    requires t < |b.made| && k < |conns| == |accepted|
    ensures
      var before := I.SendAll(b, t, conns[..k], accepted[..k]);
      && I.SendAll(b, t, conns[..k + 1], accepted[..k + 1]) == I.SendOne(before, t, conns[k], accepted[k])
      && Asked(b, t, conns[..k + 1], accepted[..k + 1], handle, confirm, value) ==
         Asked(b, t, conns[..k], accepted[..k], handle, confirm, value) +
         if I.Idle(before, conns[k]) then [Indicate(conns[k], handle, confirm, value)] else []
  {
    assert conns[..k + 1][..k] == conns[..k] && accepted[..k + 1][..k] == accepted[..k];
  }

  ghost predicate NoneFor(asked: seq<Indicate>, conn: int) { forall k :: 0 <= k < |asked| ==> asked[k].connId != conn }

  /** The stack is not asked to send anything to a connection that has something pending. */
  lemma {:induction false} PendingIsNotAsked(b: I.Book, t: nat, conns: seq<int>, accepted: seq<bool>, handle: int, confirm: bool,
                           value: seq<byte>, conn: int)
    requires t < |b.made| && |conns| == |accepted| && conn in b.pending
    ensures NoneFor(Asked(b, t, conns, accepted, handle, confirm, value), conn)
    decreases |conns|
  {
    if conns != [] {
      var n := |conns| - 1;
      PendingIsNotAsked(b, t, conns[..n], accepted[..n], handle, confirm, value, conn);
      I.SendAllSkips(b, t, conns[..n], accepted[..n], conn);
      var rest := Asked(b, t, conns[..n], accepted[..n], handle, confirm, value);
      var asked := Asked(b, t, conns, accepted, handle, confirm, value);
      assert asked == rest || (conns[n] != conn && asked == rest + [Indicate(conns[n], handle, confirm, value)]);
    }
  }

  /** Some call to the stack is for the connection. */
  ghost predicate SomeFor(asked: seq<Indicate>, conn: int) { exists k :: 0 <= k < |asked| && asked[k].connId == conn }

  /** Each call carries the handle, the kind and the value that were given. */
  ghost predicate Carry(asked: seq<Indicate>, handle: int, confirm: bool, value: seq<byte>) {
    forall k :: 0 <= k < |asked| ==> asked[k] == Indicate(asked[k].connId, handle, confirm, value)
  }

  lemma SomeForSnoc(rest: seq<Indicate>, conns: seq<int>, last: Indicate, conn: int)
    ensures SomeFor(rest + [last], conn) <==> SomeFor(rest, conn) || last.connId == conn
    ensures conn in conns + [last.connId] <==> conn in conns || last.connId == conn
  {
    var all := rest + [last];
    assert all[|rest|] == last;
    if SomeFor(rest, conn) {
      var k :| 0 <= k < |rest| && rest[k].connId == conn;
      assert all[k].connId == conn;
    }
  }

  /** In the course of the send loop only connections of the list come to wait. */
  lemma BusyInList(b: I.Book, t: nat, conns: seq<int>, accepted: seq<bool>, conn: int)
    requires t < |b.made| && |conns| == |accepted|
    ensures
      var r := I.SendAll(b, t, conns, accepted);
      && (conn in b.pending ==> conn in r.pending)
      && (conn in r.pending ==> conn in b.pending || conn in conns)
  {
    I.SendAllIff(b, t, conns, accepted, conn);
  }

  /** The stack is asked to send to exactly the connections of the list that have nothing pending. */
  lemma {:induction false} AskedIff(b: I.Book, t: nat, conns: seq<int>, accepted: seq<bool>, handle: int, confirm: bool,
                                    value: seq<byte>, conn: int)
    requires t < |b.made| && |conns| == |accepted|
    ensures
      var asked := Asked(b, t, conns, accepted, handle, confirm, value);
      (SomeFor(asked, conn) <==> conn !in b.pending && conn in conns) && Carry(asked, handle, confirm, value)
    decreases |conns|
  {
    if conns != [] {
      var n := |conns| - 1;
      var rest := Asked(b, t, conns[..n], accepted[..n], handle, confirm, value);
      var next := Indicate(conns[n], handle, confirm, value);
      AskedIff(b, t, conns[..n], accepted[..n], handle, confirm, value, conn);
      BusyInList(b, t, conns[..n], accepted[..n], conns[n]);
      SomeForSnoc(rest, conns[..n], next, conn);
      assert conns == conns[..n] + [conns[n]];
      if I.Idle(I.SendAll(b, t, conns[..n], accepted[..n]), conns[n]) {
        assert Asked(b, t, conns, accepted, handle, confirm, value) == rest + [next];
      } else {
        assert Asked(b, t, conns, accepted, handle, confirm, value) == rest;
      }
    }
  }

  /** A connection of the list that waits for nothing and that the stack accepts. */
  ghost predicate Reached(list: seq<Connection>, waiting: set<int>, accepts: int -> bool, c: int) {
    c !in waiting && accepts(c) && exists k :: 0 <= k < |list| && list[k].connId == c
  }

  lemma ReachedGoesOut(b: I.Book, list: seq<Connection>, accepts: int -> bool, c: int)
    ensures I.GoesOut(b, Ids(list), Answers(list, accepts), c) <==> Reached(list, b.pending.Keys, accepts, c)
  {
    if Reached(list, b.pending.Keys, accepts, c) {
      var k :| 0 <= k < |list| && list[k].connId == c;
      assert Ids(list)[k] == c && Answers(list, accepts)[k];
    }
  }

  /** What an indication to a device leaves behind: it is sent on the reached connections, and these newly
      wait for it. */
  lemma SentOnReached(b: I.Book, list: seq<Connection>, accepts: int -> bool, hasCallback: bool)
    ensures
      var r, t := I.Send(b, Ids(list), Answers(list, accepts), hasCallback), |b.made|;
      && t < |r.made|
      && (r.made[t].sentOn != {} <==> exists c :: Reached(list, b.pending.Keys, accepts, c))
      && (forall c :: c in r.pending <==> c in b.pending || Reached(list, b.pending.Keys, accepts, c))
      && forall c :: c in r.pending ==> r.pending[c] == if c in b.pending then b.pending[c] else t
  {
    var r, t := I.Send(b, Ids(list), Answers(list, accepts), hasCallback), |b.made|;
    var sentOn := r.made[t].sentOn;
    forall c
      ensures c in sentOn <==> Reached(list, b.pending.Keys, accepts, c)
      ensures c in r.pending <==> c in b.pending || Reached(list, b.pending.Keys, accepts, c)
      ensures c in r.pending ==> r.pending[c] == if c in b.pending then b.pending[c] else t
    {
      I.SendIff(b, Ids(list), Answers(list, accepts), hasCallback, c);
      ReachedGoesOut(b, list, accepts, c);
    }
    if c :| Reached(list, b.pending.Keys, accepts, c) {
      assert c in sentOn;
    } else {
      forall c: int ensures c !in sentOn { assert !Reached(list, b.pending.Keys, accepts, c); }
      assert sentOn == {};
    }
  }

  class Server {
    const serverId: int
    var hasDelegate: bool
    var connIdMap: map<int, Connection>
    var connAddrMap: map<string, seq<Connection>>
    var pendingIndications: map<int, PendingIndication>
    ghost var book: I.Book
    ghost var made: seq<PendingIndication>

    ghost function Index(): Indexes
      reads this
    {
      Indexes(connIdMap, connAddrMap)
    }

    static ghost predicate Mirrors(p: PendingIndication, k: nat, i: I.Indication)
      reads p
    {
      p.serial == k && p.hasCallback == i.hasCallback && p.hasSuccess == i.hasSuccess
    }

    static ghost predicate Ties(made: seq<PendingIndication>, book: I.Book, pending: map<int, PendingIndication>)
      reads made
    {
      && |made| == |book.made| && pending.Keys == book.pending.Keys
      && (forall k :: 0 <= k < |made| ==> Mirrors(made[k], k, book.made[k]))
      && forall c :: c in book.pending ==> book.pending[c] < |made| && pending[c] == made[book.pending[c]]
    }

    /** The objects in the pending map are those the book speaks of. */
    ghost predicate Tied()
      reads this, made
    {
      Ties(made, book, pendingIndications)
    }

    constructor (serverId: int)
      ensures this.serverId == serverId && !hasDelegate && Index() == After([]) && Tied() && book == I.Fresh()
    {
      this.serverId, hasDelegate := serverId, false;
      connIdMap, connAddrMap, pendingIndications := map[], map[], map[];
      book, made := I.Fresh(), [];
    }

    // ----- connections

    /** ConnectionCallback; `told` is what the delegate hears. */
    method ConnectionCallback(connId: int, forServer: int, connected: bool, bda: Address) returns (told: Option<bool>)
      modifies this`connIdMap, this`connAddrMap
      ensures forServer != serverId ==> Index() == old(Index()) && told == None
      ensures forServer == serverId && !connected ==> Index() == Disconnect(old(Index()), connId, bda)
      ensures forServer == serverId && !connected ==>
                told == if hasDelegate && Print(bda) in old(connAddrMap) then Some(false) else None
      ensures forServer == serverId && connected && connId in old(connIdMap) ==> Index() == old(Index()) && told == None
      ensures forServer == serverId && connected && connId !in old(connIdMap) ==>
                && connId in connIdMap && fresh(connIdMap[connId])
                && connIdMap[connId].connId == connId && connIdMap[connId].bda == bda
                && Index() == Connect(old(Index()), connIdMap[connId]) && told == if hasDelegate then Some(true) else None
    {
      if forServer != serverId { return None; }
      var deviceAddress := Print(bda);
      if !connected {
        connIdMap := connIdMap - {connId};
        if deviceAddress !in connAddrMap { return None; }
        var list := RemoveFirst(connAddrMap[deviceAddress], connId);
        connAddrMap := connAddrMap[deviceAddress := list];
        return if hasDelegate then Some(false) else None;
      }
      if connId in connIdMap { return None; }
      var connection := new Connection(connId, bda);
      connIdMap := connIdMap[connId := connection];
      connAddrMap := connAddrMap[deviceAddress := ListAt(connAddrMap, deviceAddress) + [connection]];
      return if hasDelegate then Some(true) else None;
    }

    /** The loop of ConnectionCallback that erases the connection from the list of its device. */
    method RemoveFirst(list: seq<Connection>, connId: int) returns (left: seq<Connection>)
      ensures left == Without(list, connId)
    {
      for k := 0 to |list|
        invariant forall j :: 0 <= j < k ==> list[j].connId != connId
      {
        if list[k].connId == connId {
          WithoutFrom(list, k, connId);
          return list[..k] + list[k + 1..];
        }
      }
      WithoutFrom(list, |list|, connId);
      return list;
    }

    // ----- requests

    /** GetConnection: known under this id and address, and the request id is new. */
    method GetConnection(connId: int, bda: Address, requestId: int) returns (conn: Connection?)
      ensures conn != null <==>
                connId in connIdMap && connIdMap[connId].bda == bda && requestId !in connIdMap[connId].requests
      ensures conn != null ==> conn == connIdMap[connId]
    {
      if connId !in connIdMap { return null; }
      conn := connIdMap[connId];
      if conn.bda != bda { return null; }
      if requestId in conn.requests { return null; }
    }

    /** The five request callbacks; `told` is what the delegate hears. */
    method OnRequest(connId: int, bda: Address, requestId: int, request: Request) returns (told: Option<Notice>)
      modifies connIdMap.Values
      ensures
        var taken := connId in connIdMap && connIdMap[connId].bda == bda && old(requestId !in connIdMap[connId].requests);
        && told == (if taken && hasDelegate then Some(Notice(Print(bda), requestId, request)) else None)
        && (taken && ToAnswer(request) ==>
              connIdMap[connId].requests == old(connIdMap[connId].requests)[requestId := HandleOf(request)])
        && forall c :: c in connIdMap.Values && !(taken && ToAnswer(request) && c == connIdMap[connId]) ==>
                         c.requests == old(c.requests)
    {
      var conn := GetConnection(connId, bda, requestId);
      if conn == null { return None; }
      var deviceAddress := Print(bda);
      match request {
        case ReadCharacteristic(handle, _, _) => conn.requests := conn.requests[requestId := handle];
        case ReadDescriptor(handle, _, _) => conn.requests := conn.requests[requestId := handle];
        case WriteCharacteristic(handle, _, needRsp, _, _) =>
          if needRsp { conn.requests := conn.requests[requestId := handle]; }
        case WriteDescriptor(handle, _, needRsp, _, _) =>
          if needRsp { conn.requests := conn.requests[requestId := handle]; }
        case ExecuteWrite(_) => conn.requests := conn.requests[requestId := -1];
      }
      told := if hasDelegate then Some(Notice(deviceAddress, requestId, request)) else None;
    }

    /** Some connection of the device waits for an answer to the request. */
    ghost predicate Waiting(deviceAddress: string, requestId: int)
      reads this, ListAt(connAddrMap, deviceAddress)
    {
      var list := ListAt(connAddrMap, deviceAddress);
      exists k :: 0 <= k < |list| && requestId in list[k].requests
    }

    /** Entry `k` of the list is the last one that waits for an answer to the request. */
    ghost predicate Addressed(list: seq<Connection>, requestId: int, k: int)
      reads list
    {
      0 <= k < |list| && requestId in list[k].requests && forall j :: k < j < |list| ==> requestId !in list[j].requests
    }

    method FindAddressed(list: seq<Connection>, requestId: int) returns (conn: Connection?, ghost at: int)
      ensures conn == null ==> forall j :: 0 <= j < |list| ==> requestId !in list[j].requests
      ensures conn != null ==> Addressed(list, requestId, at) && conn == list[at]
    {
      conn, at := null, -1;
      for k := 0 to |list|
        invariant -1 <= at < k && (conn == null <==> at == -1)
        invariant conn != null ==> conn == list[at] && requestId in conn.requests
        invariant forall j :: at < j < k ==> requestId !in list[j].requests
      {
        if requestId in list[k].requests {
          conn, at := list[k], k;
        }
      }
    }

    /** SendResponse: answers a request once, with the handle it came with, and forgets it; a failed
        call leaves every request as it was. */
    method SendResponse(deviceAddress: string, validAddress: bool, requestId: int, error: int, offset: int,
                        value: seq<byte>, stackAccepts: bool)
      returns (ok: bool, sent: Option<Response>, ghost at: int)
      modifies ListAt(connAddrMap, deviceAddress)
      ensures ok ==>
                && stackAccepts && validAddress && FitsAttribute(value, offset)
                && var list := ListAt(connAddrMap, deviceAddress);
                && old(Addressed(list, requestId, at))
                && var handle := old(list[at].requests[requestId]);
                && sent == Some(if handle == -1 then Response(list[at].connId, requestId, error, -1, 0, [])
                                else Response(list[at].connId, requestId, error, handle, offset, value))
                && list[at].requests == old(list[at].requests) - {requestId}
      ensures forall c :: c in ListAt(connAddrMap, deviceAddress) ==>
                c.requests == old(c.requests) || (ok && c == ListAt(connAddrMap, deviceAddress)[at])
      ensures stackAccepts && validAddress && FitsAttribute(value, offset) && old(Waiting(deviceAddress, requestId)) ==> ok
    {
      ok, sent, at := false, None, -1;
      if !validAddress { return; }
      if !FitsAttribute(value, offset) { return; }
      if deviceAddress !in connAddrMap { return; }
      var conn: Connection?;
      conn, at := FindAddressed(connAddrMap[deviceAddress], requestId);
      if conn == null { return; }
      var handle := conn.requests[requestId];
      var response := Response(conn.connId, requestId, error, handle, 0, []);
      if handle != -1 {
        response := response.(offset := offset, value := value);
      }
      sent := Some(response);
      if !stackAccepts { return; }
      conn.requests := conn.requests - {requestId};
      ok := true;
    }

    // ----- indications

    /** SendNotification: the send loop over all connections of the device; `asked` is what the stack
        is asked to send. */
    method SendNotification(deviceAddress: string, validAddress: bool, handle: int, confirm: bool, value: seq<byte>,
                            hasCallback: bool, accepts: int -> bool)
      returns (ok: bool, asked: seq<Indicate>)
      requires Tied()
      modifies this`pendingIndications, this`book, this`made
      ensures Tied() && forall k :: 0 <= k < |made| ==> made[k] in old(made) || fresh(made[k])
      ensures !validAddress || deviceAddress !in connAddrMap ==> !ok && book == old(book) && asked == []
      ensures validAddress && deviceAddress in connAddrMap ==>
                var list := connAddrMap[deviceAddress];
                var b0 := I.Opened(old(book), hasCallback);
                && book == I.Send(old(book), Ids(list), Answers(list, accepts), hasCallback)
                && asked == Asked(b0, |old(book).made|, Ids(list), Answers(list, accepts), handle, confirm, value)
                && ok == (book.made[|old(book).made|].sentOn != {})
      ensures validAddress && deviceAddress in connAddrMap ==>
                var list, waiting := connAddrMap[deviceAddress], old(pendingIndications).Keys;
                && (ok <==> exists c :: Reached(list, waiting, accepts, c))
                && (forall c :: c in pendingIndications <==> c in waiting || Reached(list, waiting, accepts, c))
                && forall c :: c in pendingIndications ==>
                     if c in waiting then pendingIndications[c] == old(pendingIndications)[c]
                     else fresh(pendingIndications[c]) && pendingIndications[c].hasCallback == hasCallback
    {
      if !validAddress || deviceAddress !in connAddrMap { return false, []; }
      var indication := new PendingIndication(hasCallback, |book.made|);
      ghost var t := |book.made|;
      book, made := I.Opened(book, hasCallback), made + [indication];
      var sendCount;
      sendCount, asked := SendToAll(connAddrMap[deviceAddress], handle, confirm, value, accepts, indication, t);
      ok := sendCount != 0;
      SentOnReached(old(book), connAddrMap[deviceAddress], accepts, hasCallback);
    }

    /** The send loop of SendNotification. */
    method SendToAll(list: seq<Connection>, handle: int, confirm: bool, value: seq<byte>, accepts: int -> bool,
                     indication: PendingIndication, ghost t: nat)
      returns (sendCount: nat, asked: seq<Indicate>)
      requires Tied() && t < |made| && made[t] == indication && book.made[t].sentOn == {}
      modifies this`pendingIndications, this`book
      ensures Tied() && book == I.SendAll(old(book), t, Ids(list), Answers(list, accepts))
      ensures asked == Asked(old(book), t, Ids(list), Answers(list, accepts), handle, confirm, value)
      ensures sendCount == 0 <==> book.made[t].sentOn == {}
    {
      ghost var ids, answers := Ids(list), Answers(list, accepts);
      sendCount, asked := 0, [];
      for k := 0 to |list|
        invariant Tied() && |book.made| == |old(book).made|
        invariant book == I.SendAll(old(book), t, ids[..k], answers[..k])
        invariant asked == Asked(old(book), t, ids[..k], answers[..k], handle, confirm, value)
        invariant sendCount == 0 <==> book.made[t].sentOn == {}
      {
        LoopTurn(old(book), t, ids, answers, k, handle, confirm, value);
        var connId := list[k].connId;
        var sent, call := SendOn(Indicate(connId, handle, confirm, value), accepts(connId), indication, t);
        asked := asked + call;
        if sent { sendCount := sendCount + 1; }
      }
      assert ids[..|list|] == ids && answers[..|list|] == answers;
    }

    /** The body of the send loop: `call` is the call to the stack, if one is made. */
    method SendOn(what: Indicate, accepted: bool, indication: PendingIndication, ghost t: nat)
      returns (sent: bool, call: seq<Indicate>)
      requires Tied() && t < |made| && made[t] == indication
      modifies this`pendingIndications, this`book
      ensures Tied() && book == I.SendOne(old(book), t, what.connId, accepted)
      ensures book.made[t].sentOn == old(book).made[t].sentOn + if sent then {what.connId} else {}
      ensures call == if I.Idle(old(book), what.connId) then [what] else []
    {
      book := I.SendOne(book, t, what.connId, accepted);
      if what.connId in pendingIndications { return false, []; }
      if !accepted { return false, [what]; }
      pendingIndications := pendingIndications[what.connId := indication];
      return true, [what];
    }

    /** IndicationSentCallback; `reported` is what the callback is told, if it runs. */
    method IndicationSent(connId: int, status: int) returns (reported: Option<I.Report>)
      requires Tied()
      modifies this`pendingIndications, this`book, made
      ensures Tied() && book == I.Confirm(old(book), connId, status)
      ensures connId !in old(book.pending) ==> reported == None
      ensures connId in old(book.pending) ==>
                var t := old(book.pending)[connId];
                book.made[t].runs == old(book).made[t].runs + if reported.Some? then [reported.value] else []
    {
      if connId !in pendingIndications { return None; }
      var indication, unique := Release(connId, status);
      reported := None;
      if unique && indication.hasCallback {
        reported := Some(if indication.hasSuccess then I.NoError else I.Failure(status));
      }
      book := I.Confirm(book, connId, status);
    }

    /** Takes the connection's indication out of the pending map, notes a success, and says whether
        that was the last reference to it. */
    method Release(connId: int, status: int) returns (indication: PendingIndication, unique: bool)
      requires Tied() && connId in pendingIndications
      modifies this`pendingIndications, made
      ensures pendingIndications == old(pendingIndications) - {connId}
      ensures var t := book.pending[connId];
              && indication == made[t] && unique == I.Unique(book.pending - {connId}, t)
              && Mirrors(indication, t, I.Record(book.made[t], connId, status))
              && forall k :: 0 <= k < |made| && k != t ==> Mirrors(made[k], k, book.made[k])
    {
      indication := pendingIndications[connId];
      pendingIndications := pendingIndications - {connId};
      if status == I.STATUS_SUCCESS { indication.hasSuccess := true; }
      unique := forall c :: c in pendingIndications ==> pendingIndications[c] != indication;
      UniqueObjects(pendingIndications, book.pending - {connId}, made, book.pending[connId]);
      assert forall k :: 0 <= k < |made| ==> made[k].serial == k;
    }
  }

  /** No connection holds the object any more exactly when none waits for the indication. */
  lemma UniqueObjects(held: map<int, PendingIndication>, pending: map<int, nat>, made: seq<PendingIndication>, t: nat)
    requires held.Keys == pending.Keys && t < |made|
    requires forall k :: 0 <= k < |made| ==> made[k].serial == k
    requires forall c :: c in pending ==> pending[c] < |made| && held[c] == made[pending[c]]
    ensures (forall c :: c in held ==> held[c] != made[t]) <==> I.Unique(pending, t)
  {
  }

  /** What each connection of a list waits for. */
  ghost function Waits(list: seq<Connection>): seq<map<int, int>>
    reads list
  {
    seq(|list|, j requires 0 <= j < |list| reads list => list[j].requests)
  }

  /** Somebody behind position `k` waits under the request id. */
  ghost predicate LaterWaits(waits: seq<map<int, int>>, k: nat, requestId: int) {
    exists j :: k < j < |waits| && requestId in waits[j]
  }

  ghost predicate LastWaits(waits: seq<map<int, int>>, at: int, requestId: int) {
    0 <= at < |waits| && requestId in waits[at] && !LaterWaits(waits, at, requestId)
  }

  /** A connection is in the list of its device, among connections that are all known by id and differ. */
  lemma Located(x: Indexes, connId: int) returns (k: nat)
    requires Consistent(x) && connId in x.ids
    ensures
      var list := ListAt(x.addrs, Print(x.ids[connId].bda));
      && k < |list| && list[k] == x.ids[connId] && NoRepeats(list)
      && (forall j :: 0 <= j < |list| ==> list[j] in x.ids.Values)
  {
    var key := Print(x.ids[connId].bda);
    var list := ListAt(x.addrs, key);
    assert GoodList(x, key, list);
    k :| 0 <= k < |list| && list[k] == x.ids[connId];
    forall j | 0 <= j < |list| ensures list[j] in x.ids.Values {
      assert Belongs(x, key, list[j]);
    }
  }

  /** A peer asks: its connection, at place `k` in the list of its device, waits for an answer, and what the
      other connections of the device wait for is as it was. */
  method Ask(server: Server, connId: int, bda: Address, requestId: int, request: Request) returns (ghost k: nat)
    requires Consistent(server.Index()) && connId in server.connIdMap && server.connIdMap[connId].bda == bda
    requires requestId !in server.connIdMap[connId].requests && ToAnswer(request)
    modifies server.connIdMap.Values
    ensures
      var list := ListAt(server.connAddrMap, Print(bda));
      && k < |list| && list[k] == server.connIdMap[connId] && list[k].connId == connId && NoRepeats(list)
      && (forall j :: 0 <= j < |list| ==> list[j] in server.connIdMap.Values)
      && Waits(list) == old(Waits(list))[k := old(list[k].requests)[requestId := HandleOf(request)]]
  {
    k := Located(server.Index(), connId);
    AskAt(server, connId, bda, requestId, request, ListAt(server.connAddrMap, Print(bda)), k);
  }

  method AskAt(server: Server, connId: int, bda: Address, requestId: int, request: Request,
               ghost list: seq<Connection>, ghost k: nat)
    requires connId in server.connIdMap && server.connIdMap[connId].bda == bda && ToAnswer(request)
    requires requestId !in server.connIdMap[connId].requests
    requires k < |list| && list[k] == server.connIdMap[connId] && NoRepeats(list)
    requires forall j :: 0 <= j < |list| ==> list[j] in server.connIdMap.Values
    modifies server.connIdMap.Values
    ensures Waits(list) == old(Waits(list))[k := old(list[k].requests)[requestId := HandleOf(request)]]
  {
    var _ := server.OnRequest(connId, bda, requestId, request);
    forall j | 0 <= j < |list| && j != k ensures list[j].requests == old(list[j].requests) {
      assert list[j].connId != list[k].connId;
    }
  }

  /** The application answers: the last connection of the device that waits gets the answer. */
  method Answer(server: Server, deviceAddress: string, requestId: int, error: int, offset: int, value: seq<byte>)
    returns (sent: Option<Response>, ghost at: int)
    requires server.Waiting(deviceAddress, requestId) && FitsAttribute(value, offset)
    requires NoRepeats(ListAt(server.connAddrMap, deviceAddress))
    modifies ListAt(server.connAddrMap, deviceAddress)
    ensures
      var list := ListAt(server.connAddrMap, deviceAddress);
      && LastWaits(old(Waits(list)), at, requestId)
      && sent.Some? && sent.value.requestId == requestId && sent.value.error == error
      && sent.value.connId == list[at].connId && sent.value.handle == old(Waits(list))[at][requestId]
      && Waits(list) == old(Waits(list))[at := old(Waits(list))[at] - {requestId}]
  {
    var ok;
    ok, sent, at := server.SendResponse(deviceAddress, true, requestId, error, offset, value, true);
  }

  /** Who is answered after `k` has asked under `id`. */
  lemma LastAfterAsking(was: seq<map<int, int>>, k: nat, id: int, handle: int, at: int)
    requires k < |was| && id !in was[k] && LastWaits(was[k := was[k][id := handle]], at, id)
    ensures k <= at && (at == k <==> !LaterWaits(was, k, id))
    ensures was[k][id := handle] - {id} == was[k]
  {
    var waits := was[k := was[k][id := handle]];
    assert id in waits[k];
    if at > k { assert id in was[at]; }
    if LaterWaits(was, k, id) {
      var j :| k < j < |was| && id in was[j];
      assert id in waits[j];
    }
  }

  /** The answer goes to the connection that asked, with the handle it asked for and leaving nothing behind,
      exactly when no later connection of the same device waits under the same request id; otherwise the
      request goes on waiting. */
  method AskAndAnswer(server: Server, connId: int, bda: Address, requestId: int, request: Request,
                      error: int, offset: int, value: seq<byte>)
    returns (sent: Option<Response>, ghost k: nat)
    requires Consistent(server.Index()) && connId in server.connIdMap && server.connIdMap[connId].bda == bda
    requires requestId !in server.connIdMap[connId].requests && ToAnswer(request) && FitsAttribute(value, offset)
    modifies server.connIdMap.Values
    ensures sent.Some? && sent.value.requestId == requestId && sent.value.error == error
    ensures
      var list := ListAt(server.connAddrMap, Print(bda));
      var was, waits := old(Waits(list)), Waits(list);
      && k < |list| && list[k] == server.connIdMap[connId]
      && (sent.value.connId == connId <==> !LaterWaits(was, k, requestId))
      && (sent.value.connId == connId ==> sent.value.handle == HandleOf(request) && waits == was)
      && (sent.value.connId != connId ==> waits[k] == was[k][requestId := HandleOf(request)])
  {
    ghost var list := ListAt(server.connAddrMap, Print(bda));
    ghost var was := Waits(list);
    k := Ask(server, connId, bda, requestId, request);
    assert requestId in Waits(list)[k];
    ghost var at;
    sent, at := Answer(server, Print(bda), requestId, error, offset, value);
    LastAfterAsking(was, k, requestId, HandleOf(request), at);
    assert at == k <==> list[at].connId == connId;
  }
}
