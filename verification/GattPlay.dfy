/** Runs played on the GATT server object: connections, notifications and confirmations. */
module GattPlay {
  import opened Bytes
  import opened BtAddress
  import opened GattIndex
  import opened GattServer
  import opened Transducers
  import I = GattIndications

  datatype Call =
    | Link(connId: int, forServer: int, connected: bool, bda: Address)
    | Notify(deviceAddress: string, validAddress: bool, handle: int, confirm: bool, value: seq<byte>,
             hasCallback: bool, accepts: int -> bool)
    | Sent(connId: int, status: int)

  /** The server stands where the two specifications stand after these histories. */
  ghost predicate Follows(server: Server, events: seq<Event>, ops: seq<I.Op>)
    reads server, server.made
  {
    server.Tied() && server.Index() == After(events) && server.book == I.After(ops)
  }

  /** The disconnects in a history, and in the calls that are for this server. */
  function Ended(events: seq<Event>): seq<(int, Address)> {
    if events == [] then []
    else
      var e := events[|events| - 1];
      Ended(events[..|events| - 1]) + if e.Disconnected? then [(e.id, e.bda)] else []
  }

  function EndCalls(serverId: int, calls: seq<Call>): seq<(int, Address)> {
    if calls == [] then []
    else
      var c := calls[|calls| - 1];
      EndCalls(serverId, calls[..|calls| - 1]) +
      if c.Link? && c.forServer == serverId && !c.connected then [(c.connId, c.bda)] else []
  }

  /** The confirmations in a history, and in the calls. */
  function Confirmed(ops: seq<I.Op>): seq<(int, int)> {
    if ops == [] then []
    else
      var op := ops[|ops| - 1];
      Confirmed(ops[..|ops| - 1]) + if op.Confirmation? then [(op.conn, op.status)] else []
  }

  function ConfirmCalls(calls: seq<Call>): seq<(int, int)> {
    if calls == [] then []
    else
      var c := calls[|calls| - 1];
      ConfirmCalls(calls[..|calls| - 1]) + if c.Sent? then [(c.connId, c.status)] else []
  }

  lemma EndedSnoc(events: seq<Event>, e: Event)
    ensures Ended(events + [e]) == Ended(events) + if e.Disconnected? then [(e.id, e.bda)] else []
    ensures After(events + [e]) == Step(After(events), e)
  {
    assert (events + [e])[..|events|] == events;
  }

  lemma ConfirmedSnoc(ops: seq<I.Op>, op: I.Op)
    ensures Confirmed(ops + [op]) == Confirmed(ops) + if op.Confirmation? then [(op.conn, op.status)] else []
    ensures I.After(ops + [op]) == I.Step(I.After(ops), op)
  {
    assert (ops + [op])[..|ops|] == ops;
  }

  lemma CallsSnoc(serverId: int, calls: seq<Call>, n: nat)
    requires n < |calls|
    ensures EndCalls(serverId, calls[..n + 1]) == EndCalls(serverId, calls[..n]) + EndCalls(serverId, [calls[n]])
    ensures ConfirmCalls(calls[..n + 1]) == ConfirmCalls(calls[..n]) + ConfirmCalls([calls[n]])
  {
    assert calls[..n + 1][..n] == calls[..n] && [calls[n]][..0] == [];
  }

  /** A connection call; the history grows unless it is for another server or repeats a connect. */
  method HandleLink(server: Server, connId: int, forServer: int, connected: bool, bda: Address, ghost events: seq<Event>)
    returns (ghost events': seq<Event>)
    requires server.Index() == After(events)
    modifies server`connIdMap, server`connAddrMap
    ensures server.Index() == After(events')
    ensures Ended(events') == Ended(events) + if forServer == server.serverId && !connected then [(connId, bda)] else []
  {
    events' := events;
    ghost var known := connId in server.connIdMap;
    var _ := server.ConnectionCallback(connId, forServer, connected, bda);
    if forServer == server.serverId && !connected {
      events' := events + [Disconnected(connId, bda)];
      EndedSnoc(events, Disconnected(connId, bda));
    } else if forServer == server.serverId && !known {
      events' := events + [Connected(server.connIdMap[connId])];
      EndedSnoc(events, Connected(server.connIdMap[connId]));
    }
  }

  /** A notification; the history of the book grows if the device is known. */
  method HandleNotify(server: Server, deviceAddress: string, validAddress: bool, handle: int, confirm: bool, value: seq<byte>,
                      hasCallback: bool, accepts: int -> bool, ghost events: seq<Event>, ghost ops: seq<I.Op>)
    returns (ghost ops': seq<I.Op>)
    requires Follows(server, events, ops)
    modifies server
    ensures Follows(server, events, ops') && Confirmed(ops') == Confirmed(ops)
    ensures forall k :: 0 <= k < |server.made| ==> server.made[k] in old(server.made) || fresh(server.made[k])
  {
    ops' := ops;
    var _, _ := server.SendNotification(deviceAddress, validAddress, handle, confirm, value, hasCallback, accepts);
    if validAddress && deviceAddress in server.connAddrMap {
      ghost var list := server.connAddrMap[deviceAddress];
      ghost var op := I.Notify(Ids(list), Answers(list, accepts), hasCallback);
      ConfirmedSnoc(ops, op);
      ops' := ops + [op];
    }
  }

  /** One call. */
  method Handle(server: Server, call: Call, ghost events: seq<Event>, ghost ops: seq<I.Op>)
    returns (ghost events': seq<Event>, ghost ops': seq<I.Op>)
    requires Follows(server, events, ops)
    modifies server, server.made
    ensures Follows(server, events', ops')
    ensures Ended(events') == Ended(events) + EndCalls(server.serverId, [call])
    ensures Confirmed(ops') == Confirmed(ops) + ConfirmCalls([call])
    ensures forall k :: 0 <= k < |server.made| ==> server.made[k] in old(server.made) || fresh(server.made[k])
  {
    events', ops' := events, ops;
    assert [call][..0] == [];
    match call
    case Link(connId, forServer, connected, bda) =>
      events' := HandleLink(server, connId, forServer, connected, bda, events);
    case Notify(deviceAddress, validAddress, handle, confirm, value, hasCallback, accepts) =>
      ops' := HandleNotify(server, deviceAddress, validAddress, handle, confirm, value, hasCallback, accepts, events, ops);
    case Sent(connId, status) =>
      var _ := server.IndicationSent(connId, status);
      ops' := ops + [I.Confirmation(connId, status)];
      ConfirmedSnoc(ops, I.Confirmation(connId, status));
  }

  /** The callback of an indication has run if, and only if, everything it was sent on has confirmed, at
      most once, and with no error exactly if some confirmation was a success. */
  ghost predicate CalledBack(i: I.Indication) {
    && |i.runs| <= 1 && (|i.runs| == 1 <==> i.sentOn != {} && i.confirmed == i.sentOn)
    && (|i.runs| == 1 ==> (i.runs[0] == I.NoError <==> i.succeeded != {}))
  }

  /** Any run on a server object: both indexes hold the same connections as long as every disconnect names
      the address of its connect, and every callback is called as it should. */
  method Play(serverId: int, calls: seq<Call>) returns (server: Server, ghost events: seq<Event>, ghost ops: seq<I.Op>)
    ensures Follows(server, events, ops)
    ensures Ended(events) == EndCalls(serverId, calls) && Confirmed(ops) == ConfirmCalls(calls)
    ensures Honest(events) ==> Consistent(server.Index())
    ensures forall t :: 0 <= t < |server.book.made| && server.book.made[t].hasCallback ==> CalledBack(server.book.made[t])
  {
    server := new Server(serverId);
    events, ops := [], [];
    for n := 0 to |calls|
      invariant Follows(server, events, ops) && fresh(server) && server.serverId == serverId
      invariant Ended(events) == EndCalls(serverId, calls[..n]) && Confirmed(ops) == ConfirmCalls(calls[..n])
      invariant fresh(server.made)
    {
      ghost var before := server.made;
      events, ops := Handle(server, calls[n], events, ops);
      CallsSnoc(serverId, calls, n);
      assert forall k :: 0 <= k < |server.made| ==> server.made[k] in before || fresh(server.made[k]);
    }
    assert calls[..|calls|] == calls;
    if Honest(events) { AlwaysConsistent(events); }
    forall t | 0 <= t < |server.book.made| && server.book.made[t].hasCallback ensures CalledBack(server.book.made[t]) {
      I.CallbackRunsOnce(ops, t);
    }
  }

  /** The confirmations as operations on the book. */
  function AsOps(confirmations: seq<(int, int)>): seq<I.Op> {
    seq(|confirmations|, k requires 0 <= k < |confirmations| => I.Confirmation(confirmations[k].0, confirmations[k].1))
  }

  ghost predicate ConfirmedBy(confirmations: seq<(int, int)>, c: int) {
    exists k :: 0 <= k < |confirmations| && confirmations[k].0 == c
  }

  lemma ConfirmedByAnswers(confirmations: seq<(int, int)>, c: int)
    ensures I.Answered(AsOps(confirmations), c) <==> ConfirmedBy(confirmations, c)
  {
    var ops := AsOps(confirmations);
    I.AnsweredIff(ops, c);
    if k :| 0 <= k < |ops| && I.Confirms(ops[k], c) { assert confirmations[k].0 == c; }
    if k :| 0 <= k < |confirmations| && confirmations[k].0 == c { assert I.Confirms(ops[k], c); }
  }

  /** The callback of an indication to the connections of a list, after these confirmations. */
  lemma RanIff(b: I.SoundBook, list: seq<Connection>, accepts: int -> bool, confirmations: seq<(int, int)>)
    ensures
      var sent := I.Step(b, I.Notify(Ids(list), Answers(list, accepts), true));
      var r := Fold<I.SoundBook, I.Op>(I.Stepper(), sent, AsOps(confirmations));
      && |b.made| < |r.made|
      && (|r.made[|b.made|].runs| == 1 <==>
            && (exists c :: Reached(list, b.pending.Keys, accepts, c))
            && forall c :: Reached(list, b.pending.Keys, accepts, c) ==> ConfirmedBy(confirmations, c))
  {
    var ids, answers, ops := Ids(list), Answers(list, accepts), AsOps(confirmations);
    var out := I.Send(b, ids, answers, true).made[|b.made|].sentOn;
    I.CallbackAfterAll(b, ids, answers, ops);
    SentOnReached(b, list, accepts, true);
    forall c
      ensures c in out <==> Reached(list, b.pending.Keys, accepts, c)
      ensures I.Answered(ops, c) <==> ConfirmedBy(confirmations, c)
    {
      I.SendIff(b, ids, answers, true, c);
      ReachedGoesOut(b, list, accepts, c);
      ConfirmedByAnswers(confirmations, c);
    }
  }

  /** Confirmations come in, one after the other. */
  method Hear(server: Server, confirmations: seq<(int, int)>)
    requires server.Tied() && I.Sound(server.book)
    modifies server, server.made
    ensures server.Tied()
    ensures server.book == Fold<I.SoundBook, I.Op>(I.Stepper(), old(server.book), AsOps(confirmations))
  {
    ghost var ops := AsOps(confirmations);
    for n := 0 to |confirmations|
      invariant server.Tied() && server.made == old(server.made)
      invariant server.book == Fold<I.SoundBook, I.Op>(I.Stepper(), old(server.book), ops[..n])
    {
      var _ := server.IndicationSent(confirmations[n].0, confirmations[n].1);
      assert ops[..n + 1][..n] == ops[..n];
    }
    assert ops[..|confirmations|] == ops;
  }

  /** An indication to a device and the confirmations that follow: its callback has run exactly if some
      connection of the device waited for nothing and was accepted, and every such connection has
      confirmed. */
  method IndicateAndHear(server: Server, deviceAddress: string, handle: int, value: seq<byte>, accepts: int -> bool,
                         confirmations: seq<(int, int)>)
    returns (ok: bool, ghost t: nat)
    requires server.Tied() && I.Sound(server.book) && deviceAddress in server.connAddrMap
    modifies server, server.made
    ensures t < |server.book.made|
    ensures
      var list, waiting := old(server.connAddrMap)[deviceAddress], old(server.pendingIndications).Keys;
      && (ok <==> exists c :: Reached(list, waiting, accepts, c))
      && (|server.book.made[t].runs| == 1 <==>
            ok && forall c :: Reached(list, waiting, accepts, c) ==> ConfirmedBy(confirmations, c))
  {
    t := |server.book.made|;
    ghost var list, before := server.connAddrMap[deviceAddress], server.book;
    ghost var asked;
    ok, asked := server.SendNotification(deviceAddress, true, handle, true, value, true, accepts);
    I.SendSound(before, Ids(list), Answers(list, accepts), true);
    Hear(server, confirmations);
    RanIff(before, list, accepts, confirmations);
  }
}
