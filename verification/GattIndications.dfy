/** Indications of the GATT server (SendNotification and IndicationSentCallback in
    service/gatt_server.cc): one callback shared by all connections of a device, run when the last of
    them has confirmed. */
module GattIndications {
  import opened Transducers

  /** What a callback is told: no error, or the status of the last confirmation. */
  datatype Report = NoError | Failure(status: int)

  const STATUS_SUCCESS: int := 0

  /** One indication, with its history: the connections it was sent on, those that have confirmed,
      those that confirmed success, and the runs of its callback. */
  datatype Indication = Indication(hasCallback: bool, hasSuccess: bool, sentOn: set<int>,
                                   confirmed: set<int>, succeeded: set<int>, runs: seq<Report>)

  /** `pending` says which indication, by number, each connection still has to confirm. */
  datatype Book = Book(pending: map<int, nat>, made: seq<Indication>)

  function Fresh(): Book { Book(map[], []) }

  // ----- sending

  predicate Idle(b: Book, conn: int) { conn !in b.pending }

  /** One turn of the send loop, for indication `t`: a connection that still has one pending, or that
      the stack refuses, is passed over. */
  function SendOne(b: Book, t: nat, conn: int, accepted: bool): Book
    requires t < |b.made|
  {
    if Idle(b, conn) && accepted then
      Book(b.pending[conn := t], b.made[t := b.made[t].(sentOn := b.made[t].sentOn + {conn})])
    else b
  }

  function SendAll(b: Book, t: nat, conns: seq<int>, accepted: seq<bool>): (r: Book)
    requires t < |b.made| && |conns| == |accepted|
    ensures |r.made| == |b.made|
  {
    if conns == [] then b
    else
      var n := |conns| - 1;
      SendOne(SendAll(b, t, conns[..n], accepted[..n]), t, conns[n], accepted[n])
  }

  /** A new indication that nothing has been sent for yet. */
  function Opened(b: Book, hasCallback: bool): Book {
    Book(b.pending, b.made + [Indication(hasCallback, false, {}, {}, {}, [])])
  }

  /** SendNotification, once the connections of the device are known. */
  function Send(b: Book, conns: seq<int>, accepted: seq<bool>, hasCallback: bool): Book
    requires |conns| == |accepted|
  {
    SendAll(Opened(b, hasCallback), |b.made|, conns, accepted)
  }

  // ----- confirming

  /** No connection waits for indication `t` any more: the last reference to it is gone. */
  ghost predicate Unique(pending: map<int, nat>, t: nat) {
    forall c :: c in pending ==> pending[c] != t
  }

  function Record(i: Indication, conn: int, status: int): Indication {
    if status == STATUS_SUCCESS
    then i.(hasSuccess := true, confirmed := i.confirmed + {conn}, succeeded := i.succeeded + {conn})
    else i.(confirmed := i.confirmed + {conn})
  }

  function Run(i: Indication, status: int): Indication {
    i.(runs := i.runs + [if i.hasSuccess then NoError else Failure(status)])
  }

  /** IndicationSentCallback. */
  ghost function Confirm(b: Book, conn: int, status: int): Book
    requires conn in b.pending ==> b.pending[conn] < |b.made|
  {
    if Idle(b, conn) then b
    else
      var t := b.pending[conn];
      var pending := b.pending - {conn};
      var i := Record(b.made[t], conn, status);
      var i1 := if Unique(pending, t) && i.hasCallback then Run(i, status) else i;
      Book(pending, b.made[t := i1])
  }

  // ----- what every run keeps

  /** The connections that still have to confirm `t` are those it was sent on and that have not. */
  ghost predicate Outstanding(b: Book, t: nat)
    requires t < |b.made|
  {
    && b.made[t].confirmed <= b.made[t].sentOn
    && forall c :: (c in b.pending && b.pending[c] == t) <==> (c in b.made[t].sentOn && c !in b.made[t].confirmed)
  }

  /** The callback has run once if everything has been confirmed and not at all otherwise, and was
      told of no error exactly when some confirmation was a success. */
  ghost predicate Reported(i: Indication) {
    && i.succeeded <= i.confirmed && (i.hasSuccess <==> i.succeeded != {})
    && |i.runs| == (if i.hasCallback && i.sentOn != {} && i.confirmed == i.sentOn then 1 else 0)
    && (|i.runs| == 1 ==> (i.runs[0] == NoError <==> i.succeeded != {}))
  }

  ghost predicate Sound(b: Book) {
    && (forall c :: c in b.pending ==> b.pending[c] < |b.made|)
    && forall t :: 0 <= t < |b.made| ==> Outstanding(b, t) && Reported(b.made[t])
  }

  /** A sound book while indication `t` is being sent: nothing of it has been confirmed yet. */
  ghost predicate Sending(b: Book, t: nat) {
    Sound(b) && t == |b.made| - 1 && b.made[t].confirmed == {} && b.made[t].runs == []
  }

  lemma SendOneSound(b: Book, t: nat, conn: int, accepted: bool)
    requires Sending(b, t)
    ensures Sending(SendOne(b, t, conn, accepted), t)
    ensures forall c :: c in b.pending ==>
              c in SendOne(b, t, conn, accepted).pending && SendOne(b, t, conn, accepted).pending[c] == b.pending[c]
  {
  }

  lemma {:induction false} SendAllSound(b: Book, t: nat, conns: seq<int>, accepted: seq<bool>)
    requires Sending(b, t) && |conns| == |accepted|
    ensures Sending(SendAll(b, t, conns, accepted), t)
    ensures forall c :: c in b.pending ==>
              c in SendAll(b, t, conns, accepted).pending && SendAll(b, t, conns, accepted).pending[c] == b.pending[c]
    decreases |conns|
  {
    if conns != [] {
      var n := |conns| - 1;
      SendAllSound(b, t, conns[..n], accepted[..n]);
      SendOneSound(SendAll(b, t, conns[..n], accepted[..n]), t, conns[n], accepted[n]);
    }
  }

  /** Sending keeps the book sound and overwrites no pending entry. */
  lemma SendSound(b: Book, conns: seq<int>, accepted: seq<bool>, hasCallback: bool)
    requires Sound(b) && |conns| == |accepted|
    ensures Sound(Send(b, conns, accepted, hasCallback))
    ensures forall c :: c in b.pending ==>
              c in Send(b, conns, accepted, hasCallback).pending &&
              Send(b, conns, accepted, hasCallback).pending[c] == b.pending[c]
  {
    var b1 := Book(b.pending, b.made + [Indication(hasCallback, false, {}, {}, {}, [])]);
    forall u | 0 <= u < |b1.made| ensures Outstanding(b1, u) && Reported(b1.made[u]) {
      if u < |b.made| { assert Outstanding(b, u) && Reported(b.made[u]); }
    }
    SendAllSound(b1, |b.made|, conns, accepted);
  }

  /** The reference count test means: this was the last connection to confirm. */
  lemma UniqueMeansLast(b: Book, conn: int)
    requires Sound(b) && conn in b.pending
    ensures
      var t := b.pending[conn];
      Unique(b.pending - {conn}, t) <==> b.made[t].sentOn == b.made[t].confirmed + {conn}
  {
    var t := b.pending[conn];
    var pending, i := b.pending - {conn}, b.made[t];
    assert Outstanding(b, t);
    if Unique(pending, t) {
      forall c | c in i.sentOn ensures c in i.confirmed + {conn} {
        if c != conn && c in b.pending { assert c in pending; }
      }
      assert i.sentOn == i.confirmed + {conn};
    } else {
      var c :| c in pending && pending[c] == t;
      assert c in i.sentOn && c !in i.confirmed + {conn};
    }
  }

  lemma ConfirmedOne(b: Book, conn: int, status: int)
    requires Sound(b) && conn in b.pending
    ensures
      var t := b.pending[conn];
      var r := Confirm(b, conn, status);
      Outstanding(r, t) && Reported(r.made[t])
  {
    var t := b.pending[conn];
    assert Outstanding(b, t) && Reported(b.made[t]);
    UniqueMeansLast(b, conn);
  }

  /** A confirmation keeps the book sound. */
  lemma ConfirmSound(b: Book, conn: int, status: int)
    requires Sound(b)
    ensures Sound(Confirm(b, conn, status))
  {
    if !Idle(b, conn) {
      var t := b.pending[conn];
      var r := Confirm(b, conn, status);
      ConfirmedOne(b, conn, status);
      forall u | 0 <= u < |r.made| ensures Outstanding(r, u) && Reported(r.made[u]) {
        if u != t { assert Outstanding(b, u) && Reported(b.made[u]); }
      }
    }
  }

  datatype Op =
    | Notify(conns: seq<int>, accepted: seq<bool>, hasCallback: bool)
    | Confirmation(conn: int, status: int)

  type SoundBook = b: Book | Sound(b) ghost witness Fresh()

  ghost function Step(b: SoundBook, op: Op): SoundBook {
    match op
    case Notify(conns, accepted, hasCallback) =>
      if |conns| == |accepted| then SendSound(b, conns, accepted, hasCallback); Send(b, conns, accepted, hasCallback)
      else b
    case Confirmation(conn, status) => ConfirmSound(b, conn, status); Confirm(b, conn, status)
  }

  ghost function Stepper(): (SoundBook, Op) -> SoundBook { (b: SoundBook, op: Op) => Step(b, op) }

  /** The book after any run. It is sound by its type. */
  ghost function After(ops: seq<Op>): SoundBook { Fold<SoundBook, Op>(Stepper(), Fresh(), ops) }

  /** In every run each callback runs at most once; it has run exactly when its indication was sent
      and every connection it was sent on has confirmed; and it reports no error exactly when at
      least one of them confirmed success. */
  lemma CallbackRunsOnce(ops: seq<Op>, t: nat)
    requires t < |After(ops).made| && After(ops).made[t].hasCallback
    ensures
      var i := After(ops).made[t];
      && |i.runs| <= 1
      && (|i.runs| == 1 <==> i.sentOn != {} && i.confirmed == i.sentOn)
      && (|i.runs| == 1 ==> (i.runs[0] == NoError <==> i.succeeded != {}))
  {
  }

  /** Only a confirmation runs a callback, only the one it belongs to, and only as the last one. */
  lemma RunsOnlyOnLast(b: Book, conn: int, status: int, t: nat)
    requires Sound(b) && t < |b.made|
    ensures
      var r := Confirm(b, conn, status);
      r.made[t].runs != b.made[t].runs <==>
        conn in b.pending && b.pending[conn] == t && b.made[t].hasCallback &&
        b.made[t].sentOn == b.made[t].confirmed + {conn}
    ensures
      var r := Confirm(b, conn, status);
      r.made[t].runs != b.made[t].runs ==>
        r.made[t].runs == [if b.made[t].succeeded != {} || status == STATUS_SUCCESS then NoError else Failure(status)]
  {
    assert Reported(b.made[t]);
    if conn in b.pending && b.pending[conn] == t { UniqueMeansLast(b, conn); }
  }

  // ----- a connection that has not confirmed

  /** The send loop leaves a connection with something pending out. */
  lemma {:induction false} SendAllSkips(b: Book, t: nat, conns: seq<int>, accepted: seq<bool>, conn: int)
    requires t < |b.made| && |conns| == |accepted| && conn in b.pending
    ensures
      var r := SendAll(b, t, conns, accepted);
      && conn in r.pending && r.pending[conn] == b.pending[conn]
      && forall u :: 0 <= u < |b.made| ==> (conn in r.made[u].sentOn <==> conn in b.made[u].sentOn)
    decreases |conns|
  {
    if conns != [] {
      var n := |conns| - 1;
      SendAllSkips(b, t, conns[..n], accepted[..n], conn);
    }
  }

  /** `conn` still has to confirm indication `t`, and nothing from `first` on has been sent to it. */
  ghost predicate Stuck(b: Book, conn: int, t: nat, first: nat) {
    && conn in b.pending && b.pending[conn] == t && first <= |b.made|
    && forall u :: first <= u < |b.made| ==> conn !in b.made[u].sentOn
  }

  lemma StuckStep(b: SoundBook, op: Op, conn: int, t: nat, first: nat)
    requires Stuck(b, conn, t, first) && !(op.Confirmation? && op.conn == conn)
    ensures Stuck(Step(b, op), conn, t, first)
  {
    match op
    case Notify(conns, accepted, hasCallback) =>
      if |conns| == |accepted| { SendAllSkips(Opened(b, hasCallback), |b.made|, conns, accepted, conn); }
    case Confirmation(_, _) =>
  }

  /** Over every run, a connection that has an indication to confirm is sent no other one before a
      confirmation for its id comes, whether or not it is still connected, and until then the callback of
      that indication does not run. */
  lemma {:induction false} StuckUntilConfirmed(b: SoundBook, ops: seq<Op>, conn: int)
    requires conn in b.pending && forall k :: 0 <= k < |ops| ==> !(ops[k].Confirmation? && ops[k].conn == conn)
    ensures
      var r := Fold<SoundBook, Op>(Stepper(), b, ops);
      Stuck(r, conn, b.pending[conn], |b.made|) && b.pending[conn] < |r.made| && r.made[b.pending[conn]].runs == []
    decreases |ops|
  {
    if ops != [] {
      var n := |ops| - 1;
      StuckUntilConfirmed(b, ops[..n], conn);
      StuckStep(Fold<SoundBook, Op>(Stepper(), b, ops[..n]), ops[n], conn, b.pending[conn], |b.made|);
    }
    var r: SoundBook := Fold<SoundBook, Op>(Stepper(), b, ops);
    assert Outstanding(r, b.pending[conn]) && Reported(r.made[b.pending[conn]]);
  }

  // ----- what is sent and what is confirmed

  /** The connections an indication goes out on: those of the list that have nothing pending and that the
      stack accepts. */
  ghost predicate GoesOut(b: Book, conns: seq<int>, accepted: seq<bool>, c: int)
    requires |conns| == |accepted|
  {
    c !in b.pending && exists k :: 0 <= k < |conns| && conns[k] == c && accepted[k]
  }

  lemma GoesOutSnoc(b: Book, conns: seq<int>, accepted: seq<bool>, c: int)
    requires |conns| == |accepted| > 0
    ensures
      var n := |conns| - 1;
      GoesOut(b, conns, accepted, c) <==>
        GoesOut(b, conns[..n], accepted[..n], c) || (c !in b.pending && conns[n] == c && accepted[n])
  {
    var n := |conns| - 1;
    if GoesOut(b, conns, accepted, c) {
      var k :| 0 <= k < |conns| && conns[k] == c && accepted[k];
      if k < n { assert conns[..n][k] == c && accepted[..n][k]; }
    }
    if GoesOut(b, conns[..n], accepted[..n], c) {
      var k :| 0 <= k < n && conns[..n][k] == c && accepted[..n][k];
      assert conns[k] == c && accepted[k];
    }
  }

  lemma {:induction false} SendAllIff(b: Book, t: nat, conns: seq<int>, accepted: seq<bool>, c: int)
    requires t < |b.made| && |conns| == |accepted|
    ensures
      var r := SendAll(b, t, conns, accepted);
      && (c in r.made[t].sentOn <==> c in b.made[t].sentOn || GoesOut(b, conns, accepted, c))
      && (c in r.pending <==> c in b.pending || GoesOut(b, conns, accepted, c))
      && (c in b.pending ==> r.pending[c] == b.pending[c])
      && (GoesOut(b, conns, accepted, c) ==> r.pending[c] == t)
      && r.made[t] == b.made[t].(sentOn := r.made[t].sentOn)
      && forall u :: 0 <= u < |b.made| && u != t ==> r.made[u] == b.made[u]
    decreases |conns|
  {
    if conns != [] {
      var n := |conns| - 1;
      SendAllIff(b, t, conns[..n], accepted[..n], c);
      GoesOutSnoc(b, conns, accepted, c);
    }
  }

  /** An indication is recorded as sent on exactly the connections it goes out on, and exactly those newly
      wait for it; nothing else in the record changes. */
  lemma SendIff(b: Book, conns: seq<int>, accepted: seq<bool>, hasCallback: bool, c: int)
    requires |conns| == |accepted|
    ensures
      var r, t := Send(b, conns, accepted, hasCallback), |b.made|;
      && |r.made| == t + 1 && r.made[..t] == b.made && r.made[t].hasCallback == hasCallback
      && (c in r.made[t].sentOn <==> GoesOut(b, conns, accepted, c))
      && (c in r.pending <==> c in b.pending || GoesOut(b, conns, accepted, c))
      && (c in r.pending ==> r.pending[c] == if c in b.pending then b.pending[c] else t)
  {
    SendAllIff(Opened(b, hasCallback), |b.made|, conns, accepted, c);
  }

  predicate Confirms(op: Op, c: int) { op.Confirmation? && op.conn == c }

  /** The status of the first confirmation that comes for a connection. */
  function FirstStatus(ops: seq<Op>, c: int): (r: seq<int>)
    ensures |r| <= 1
  {
    if ops == [] then []
    else
      var rest, op := FirstStatus(ops[..|ops| - 1], c), ops[|ops| - 1];
      if rest == [] && Confirms(op, c) then [op.status] else rest
  }

  lemma {:induction false} FirstStatusIs(ops: seq<Op>, k: nat, c: int)
    requires k <= |ops| && forall j :: 0 <= j < k ==> !Confirms(ops[j], c)
    ensures k == |ops| ==> FirstStatus(ops, c) == []
    ensures k < |ops| && Confirms(ops[k], c) ==> FirstStatus(ops, c) == [ops[k].status]
    decreases |ops|
  {
    if ops != [] {
      var n := |ops| - 1;
      FirstStatusIs(ops[..n], if k > n then n else k, c);
    }
  }

  /** What is known of connection `c` and indication `t` once these confirmations have come. */
  ghost predicate Heard(r: Book, t: nat, c: int, status: seq<int>, was: Indication) {
    && t < |r.made| && r.made[t].sentOn == was.sentOn && r.made[t].hasCallback == was.hasCallback
    && if status == [] then c in r.pending && r.pending[c] == t && c !in r.made[t].confirmed && c !in r.made[t].succeeded
       else
         && c in r.made[t].confirmed && (c in r.made[t].succeeded <==> status[0] == STATUS_SUCCESS)
         && (c in r.pending ==> r.pending[c] != t)
  }

  lemma HeardStep(b: SoundBook, op: Op, t: nat, c: int, status: seq<int>, was: Indication)
    requires |status| <= 1 && Heard(b, t, c, status, was)
    ensures Heard(Step(b, op), t, c, if status == [] && Confirms(op, c) then [op.status] else status, was)
  {
    match op
    case Notify(conns, accepted, hasCallback) =>
      if |conns| == |accepted| { SendIff(b, conns, accepted, hasCallback, c); }
    case Confirmation(conn, st) =>
      assert Outstanding(b, t) && Reported(b.made[t]);
  }

  /** Over any run a connection has confirmed an indication as soon as a confirmation for it has come, and
      successfully if the first one was a success. */
  lemma {:induction false} ConfirmedAsHeard(b: SoundBook, ops: seq<Op>, c: int)
    requires c in b.pending
    ensures Heard(Fold<SoundBook, Op>(Stepper(), b, ops), b.pending[c], c, FirstStatus(ops, c), b.made[b.pending[c]])
    decreases |ops|
  {
    var t := b.pending[c];
    if ops == [] {
      assert Outstanding(b, t) && Reported(b.made[t]);
    } else {
      var n := |ops| - 1;
      ConfirmedAsHeard(b, ops[..n], c);
      HeardStep(Fold<SoundBook, Op>(Stepper(), b, ops[..n]), ops[n], t, c, FirstStatus(ops[..n], c), b.made[t]);
    }
  }

  lemma SentStays(b: SoundBook, op: Op, t: nat)
    requires t < |b.made|
    ensures
      var r := Step(b, op);
      t < |r.made| && r.made[t].sentOn == b.made[t].sentOn && r.made[t].hasCallback == b.made[t].hasCallback
  {
    if op.Notify? && |op.conns| == |op.accepted| { SendIff(b, op.conns, op.accepted, op.hasCallback, 0); }
  }

  /** What an indication was sent on does not change. */
  lemma {:induction false} SentOnStays(b: SoundBook, ops: seq<Op>, t: nat)
    requires t < |b.made|
    ensures
      var r := Fold<SoundBook, Op>(Stepper(), b, ops);
      t < |r.made| && r.made[t].sentOn == b.made[t].sentOn && r.made[t].hasCallback == b.made[t].hasCallback
    decreases |ops|
  {
    if ops != [] {
      var n := |ops| - 1;
      SentOnStays(b, ops[..n], t);
      var before: SoundBook := Fold<SoundBook, Op>(Stepper(), b, ops[..n]);
      SentStays(before, ops[n], t);
    }
  }

  predicate Answered(ops: seq<Op>, c: int) { FirstStatus(ops, c) != [] }

  predicate AnsweredWell(ops: seq<Op>, c: int) { FirstStatus(ops, c) == [STATUS_SUCCESS] }

  /** A connection has answered if there is a confirmation for it, and answered well if the first is a success. */
  lemma AnsweredIff(ops: seq<Op>, c: int)
    ensures Answered(ops, c) <==> exists k :: 0 <= k < |ops| && Confirms(ops[k], c)
    ensures AnsweredWell(ops, c) <==>
              exists k :: 0 <= k < |ops| && Confirms(ops[k], c) && ops[k].status == STATUS_SUCCESS &&
                          forall j :: 0 <= j < k ==> !Confirms(ops[j], c)
  {
    var k := 0;
    while k < |ops| && !Confirms(ops[k], c)
      invariant k <= |ops| && forall j :: 0 <= j < k ==> !Confirms(ops[j], c)
    {
      k := k + 1;
    }
    FirstStatusIs(ops, k, c);
  }

  /** A confirmation has come for every connection of `out`. */
  ghost predicate AllHeard(ops: seq<Op>, out: set<int>) { forall c :: c in out ==> Answered(ops, c) }

  /** The first confirmation of some connection of `out` was a success. */
  ghost predicate SomeSuccess(ops: seq<Op>, out: set<int>) { exists c :: c in out && AnsweredWell(ops, c) }

  ghost predicate HeardOf(r: Book, t: nat, c: int, ops: seq<Op>, was: Indication) {
    Heard(r, t, c, FirstStatus(ops, c), was)
  }

  lemma Tally(r: SoundBook, t: nat, ops: seq<Op>, was: Indication)
    requires t < |r.made| && r.made[t].sentOn == was.sentOn
    requires forall c :: c in was.sentOn ==> HeardOf(r, t, c, ops, was)
    ensures r.made[t].confirmed == was.sentOn <==> AllHeard(ops, was.sentOn)
    ensures r.made[t].succeeded != {} <==> SomeSuccess(ops, was.sentOn)
  {
    var i := r.made[t];
    assert Outstanding(r, t) && Reported(i);
    if AllHeard(ops, was.sentOn) {
      forall c | c in was.sentOn ensures c in i.confirmed { assert HeardOf(r, t, c, ops, was); }
    } else {
      var c :| c in was.sentOn && !Answered(ops, c);
      assert HeardOf(r, t, c, ops, was);
    }
    if SomeSuccess(ops, was.sentOn) {
      var c :| c in was.sentOn && AnsweredWell(ops, c);
      assert HeardOf(r, t, c, ops, was);
    } else {
      forall c | c in was.sentOn ensures c !in i.succeeded {
        assert HeardOf(r, t, c, ops, was) && !AnsweredWell(ops, c);
      }
      assert i.succeeded == {};
    }
  }

  /** An indication with a callback is sent. Over any run after that, the callback runs, once, as soon as a
      confirmation has come for every connection it went out on and not before, and is told of no error
      exactly if one of those was a success. */
  lemma CallbackAfterAll(b: SoundBook, conns: seq<int>, accepted: seq<bool>, ops: seq<Op>)
    requires |conns| == |accepted|
    ensures
      var t := |b.made|;
      var sent := Step(b, Notify(conns, accepted, true));
      var r := Fold<SoundBook, Op>(Stepper(), sent, ops);
      var out := sent.made[t].sentOn;
      && t < |r.made|
      && (|r.made[t].runs| == 1 <==> out != {} && AllHeard(ops, out))
      && (|r.made[t].runs| == 1 ==> (r.made[t].runs[0] == NoError <==> SomeSuccess(ops, out)))
  {
    var t := |b.made|;
    var sent: SoundBook := Step(b, Notify(conns, accepted, true));
    var r: SoundBook := Fold<SoundBook, Op>(Stepper(), sent, ops);
    var out := sent.made[t].sentOn;
    SendIff(b, conns, accepted, true, 0);
    SentOnStays(sent, ops, t);
    forall c | c in out ensures HeardOf(r, t, c, ops, sent.made[t]) {
      SendIff(b, conns, accepted, true, c);
      ConfirmedAsHeard(sent, ops, c);
    }
    Tally(r, t, ops, sent.made[t]);
    assert Reported(r.made[t]);
  }
}
