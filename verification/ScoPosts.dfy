/** Reports in the message queue: the callbacks of the lower stack post them and they are handled later,
    in the order in which they were posted. */
module ScoPosts {
  import opened Collections
  import opened ScoModel
  import opened ScoRuns

  // ----- what an operation may record

  /** Calls were added to the record, but no link-up report was posted. */
  ghost predicate Extends(a: seq<Call>, b: seq<Call>) {
    a <= b && forall k :: |a| <= k < |b| ==> !b[k].PostedOpen?
  }

  lemma RemoveLogs(s: Sco, i: Index, onlyActive: bool, btm: Btm)
    requires Valid(s)
    ensures Extends(s.calls, RemoveSco(s, i, onlyActive, btm).0.calls)
  {
  }

  lemma CreateLogs(s: Sco, i: Index, isOrig: bool, btm: Btm)
    requires Valid(s)
    ensures Extends(s.calls, CreateSco(s, i, isOrig, btm).calls)
  {
  }

  lemma RspLogs(s: Sco, i: Index, btm: Btm)
    requires Valid(s)
    ensures Extends(s.calls, ConnRsp(s, i, btm).calls)
  {
  }

  lemma CodecDoneLogs(s: Sco, i: Index, btm: Btm)
    requires Valid(s)
    ensures Extends(s.calls, CodecDone(s, i, btm).calls)
  {
    CreateLogs(s, i, true, btm);
  }

  lemma CloseLogs(s: Sco, i: Index, btm: Btm)
    requires Valid(s)
    ensures Extends(s.calls, CloseRequested(s, i, btm).calls)
  {
    RemoveLogs(s, i, true, btm);
  }

  lemma CodecNegoLogs(s: Sco, i: Index, agreed: bool, btm: Btm)
    requires Valid(s)
    ensures Extends(s.calls, CodecNego(s, i, agreed, btm).calls)
  {
    if agreed {
      CodecDoneLogs(Put(s, i, s.scbs[i].(codecUpdated := false)), i, btm);
    } else {
      CloseLogs(s, i, btm);
    }
  }

  lemma NegotiateLogs(s: Sco, i: Index, btm: Btm)
    requires Valid(s)
    ensures Extends(s.calls, Negotiate(s, i, btm).calls)
  {
    var b := if s.scbs[i].peerNegotiates then s.scbs[i] else s.scbs[i].(scoCodec := CVSD);
    CodecNegoLogs(Put(s, i, b).(curr := Some(i)), i, true, btm);
  }

  lemma RemoveThenNegotiate(s: Sco, i: Index, x: Index, btm: Btm)
    requires Valid(s)
    ensures
      var s1 := RemoveSco(s, i, false, btm).0.(state := CodecSt);
      Extends(s.calls, s1.calls) && Extends(s.calls, Negotiate(s1, x, btm).calls)
  {
    RemoveLogs(s, i, false, btm);
    NegotiateLogs(RemoveSco(s, i, false, btm).0.(state := CodecSt), x, btm);
  }

  lemma ListenLogs(s: Sco, i: Index, e: LinkEvent, btm: Btm)
    requires Valid(s)
    ensures Extends(s.calls, ListenEvent(s, i, e, btm).calls)
  {
    match e
    case OpenE => RemoveThenNegotiate(s, i, i, btm);
    case ShutdownE => RemoveLogs(s, i, false, btm);
    case _ => CreateLogs(s, i, false, btm);
  }

  lemma CodecLogs(s: Sco, i: Index, e: LinkEvent, btm: Btm)
    requires Valid(s)
    ensures Extends(s.calls, CodecEvent(s, i, e, btm).calls)
  {
    if e == ShutdownE { RemoveLogs(s, i, false, btm); } else { CreateLogs(s, i, false, btm); }
  }

  lemma OpeningLogs(s: Sco, i: Index, e: LinkEvent, btm: Btm)
    requires Valid(s)
    ensures Extends(s.calls, OpeningEvent(s, i, e, btm).calls)
  {
    match e
    case ReopenE => NegotiateLogs(s.(state := CodecSt), i, btm);
    case ShutdownE => RemoveLogs(s, i, false, btm);
    case _ => CreateLogs(s, i, false, btm);
  }

  lemma OpenClLogs(s: Sco, i: Index, e: LinkEvent, btm: Btm)
    requires Valid(s)
    ensures Extends(s.calls, OpenClEvent(s, i, e, btm).calls)
  {
    RemoveLogs(s, i, e == ConnOpenE, btm);
  }

  lemma OpenXferLogs(s: Sco, i: Index, e: LinkEvent, btm: Btm)
    requires Valid(s) && s.xfer.Some?
    ensures Extends(s.calls, OpenXferEvent(s, i, e, btm).calls)
  {
    if e == ShutdownE {
      RemoveLogs(s, i, false, btm);
    } else {
      CreateLogs(s, i, false, btm);
      RspLogs(CreateSco(s, i, false, btm), s.xfer.value, btm);
    }
  }

  lemma OpenLogs(s: Sco, i: Index, e: LinkEvent, btm: Btm)
    requires Valid(s) && (e == XferE ==> s.curr.Some?)
    ensures Extends(s.calls, OpenEvent(s, i, e, btm).calls)
  {
    match e
    case XferE => RemoveLogs(s, s.curr.value, true, btm);
    case ShutdownE => RemoveLogs(s, i, false, btm);
    case _ => CreateLogs(s, i, false, btm);
  }

  lemma ClosingLogs(s: Sco, i: Index, e: LinkEvent, btm: Btm)
    requires Valid(s)
    ensures Extends(s.calls, ClosingEvent(s, i, e, btm).calls)
  {
    if e == ShutdownE { RemoveLogs(s, i, false, btm); } else { CreateLogs(s, i, false, btm); }
  }

  lemma CloseOpLogs(s: Sco, i: Index, e: LinkEvent, btm: Btm)
    requires Valid(s)
    ensures Extends(s.calls, CloseOpEvent(s, i, e, btm).calls)
  {
    if e == ConnCloseE { NegotiateLogs(s.(state := CodecSt), i, btm); } else { CreateLogs(s, i, false, btm); }
  }

  lemma CloseXferLogs(s: Sco, i: Index, e: LinkEvent, btm: Btm)
    requires Valid(s) && s.xfer.Some?
    ensures Extends(s.calls, CloseXferEvent(s, i, e, btm).calls)
  {
    if e == ConnCloseE {
      var x := s.xfer.value;
      var s1 := CreateSco(s, i, false, btm);
      CreateLogs(s, i, false, btm);
      RemoveLogs(s1, x, false, btm);
      NegotiateLogs(RemoveSco(s1, x, false, btm).0.(state := CodecSt, xfer := None), x, btm);
    } else {
      RemoveLogs(s, i, true, btm);
    }
  }

  lemma ShuttingLogs(s: Sco, i: Index, e: LinkEvent, btm: Btm)
    requires Valid(s)
    ensures Extends(s.calls, ShuttingEvent(s, i, e, btm).calls)
  {
    match e
    case ConnOpenE => RemoveLogs(s, i, true, btm);
    case ConnCloseE => CreateLogs(LastGoesDown(s, i), i, false, btm);
    case _ => CreateLogs(s, i, false, btm);
  }

  /** No event posts a link-up report, in any state. */
  lemma EventLogs(s: Sco, i: Index, e: LinkEvent, btm: Btm)
    requires Enterable(s, e)
    ensures Extends(s.calls, Event(s, i, e, btm).calls)
  {
    if e == CnDoneE {
      CodecDoneLogs(s, i, btm);
    } else if e == CloseE {
      CloseLogs(s, i, btm);
    } else {
      match s.state
      case ShutdownSt => CreateLogs(s, i, false, btm);
      case ListenSt => ListenLogs(s, i, e, btm);
      case CodecSt => CodecLogs(s, i, e, btm);
      case OpeningSt => OpeningLogs(s, i, e, btm);
      case OpenClSt => OpenClLogs(s, i, e, btm);
      case OpenXferSt => OpenXferLogs(s, i, e, btm);
      case OpenSt => OpenLogs(s, i, e, btm);
      case ClosingSt => ClosingLogs(s, i, e, btm);
      case CloseOpSt => CloseOpLogs(s, i, e, btm);
      case CloseXferSt => CloseXferLogs(s, i, e, btm);
      case ShuttingSt => ShuttingLogs(s, i, e, btm);
    }
  }

  lemma RequestLogs(s: SafeSco, idx: nat, addr: Option<nat>, btm: Btm)
    ensures Extends(s.calls, ConnRequest(s, idx, addr, btm).calls)
  {
    var found := if addr.Some? then FindByAddr(s.scbs, addr.value) else None;
    if addr.Some? && IsActive(s, addr.value) && found.Some? && s.scbs[found.value].svcConn {
      var i := found.value;
      var s1 := Put(s, i, s.scbs[i].(scoIdx := idx));
      if s.curr.None? {
        RspLogs(s1, i, btm);
      } else {
        var t := s1.(xfer := Some(i), state := OpenXferSt);
        RemoveLogs(t, s.curr.value, true, btm);
        RspLogs(RemoveSco(t, s.curr.value, true, btm).0.(xfer := None, state := ListenSt), i, btm);
      }
    }
  }

  lemma ClosedLogs(s: SafeSco, i: Index, btm: Btm)
    ensures Extends(s.calls, ConnClosed(s, i, btm).calls)
  {
    EventLogs(Put(s, i, s.scbs[i].(scoIdx := INVALID_INDEX)).(curr := None), i,
              if WantsRetry(s.scbs[i]) then ReopenE else ConnCloseE, btm);
  }

  lemma BacLogs(s: SafeSco, i: Index, hasMsbc: bool, btm: Btm)
    ensures Extends(s.calls, AtBac(s, i, hasMsbc, btm).calls)
  {
    NegotiateLogs(Put(s, i, s.scbs[i].(codecUpdated := true, scoCodec := if hasMsbc then MSBC else CVSD)), i, btm);
  }

  /** What a step adds to the record; `up` says that it is the callback for a link that is up. */
  ghost predicate Grows(a: seq<Call>, b: seq<Call>, up: bool) {
    if up then |b| == |a| + 1 && a <= b && (b[|a|].PostedOpen? || b[|a|].Removed?) else Extends(a, b)
  }

  lemma UpLogs(s: SafeSco, idx: nat, addr: Option<nat>)
    ensures Grows(s.calls, LinkUp(s, idx, addr).calls, true)
  {
  }

  /** Only the callback for a link that is up posts a link-up report. */
  lemma StepLogs(s: SafeSco, x: Stimulus)
    ensures Grows(s.calls, Step(s, x).calls, x.input.BtmUp?)
  {
    if !Undeliverable(s, x.input) { DeliverLogs(s, x); }
  }

  lemma DeliverLogs(s: SafeSco, x: Stimulus)
    ensures Grows(s.calls, Deliver(s, x).calls, x.input.BtmUp?)
  {
    match x.input
    case ReqListen(i) => EventLogs(s, i, ListenE, x.btm);
    case ReqOpen(i) => EventLogs(s, i, if s.curr.Some? && s.curr != Some(i) then XferE else OpenE, x.btm);
    case ReqClose(i) => CloseLogs(s, i, x.btm);
    case ReqShutdown(i) => EventLogs(s, i, ShutdownE, x.btm);
    case EvOpened(i) => EventLogs(s, i, ConnOpenE, x.btm);
    case EvClosed(i) => ClosedLogs(s, i, x.btm);
    case NegotiationTimeout(i) => CodecNegoLogs(s, i, false, x.btm);
    case HeadsetBcs(i, named) => CodecNegoLogs(s, i, Confirms(s.scbs[i], named), x.btm);
    case HeadsetBac(i, hasMsbc) => BacLogs(s, i, hasMsbc, x.btm);
    case BtmUp(idx, addr) => UpLogs(s, idx, addr);
    case BtmRequest(idx, addr) => RequestLogs(s, idx, addr, x.btm);
    case _ =>
  }

  // ----- the queue

  datatype Report = Up(to: nat) | Lost(to: nat)

  /** The reports posted, in order. */
  function Reports(calls: seq<Call>): seq<Report> {
    if calls == [] then []
    else
      var rest := Reports(calls[..|calls| - 1]);
      match calls[|calls| - 1]
      case PostedOpen(i) => rest + [Up(i)]
      case PostedClose(i) => rest + [Lost(i)]
      case _ => rest
  }

  /** The reports handled, in order. */
  function Handled(xs: seq<Stimulus>): seq<Report> {
    if xs == [] then []
    else
      var rest := Handled(xs[..|xs| - 1]);
      match xs[|xs| - 1].input
      case EvOpened(i) => rest + [Up(i)]
      case EvClosed(i) => rest + [Lost(i)]
      case _ => rest
  }

  /** A run of the message queue: at every step the reports handled are those posted before, in order
      and none twice. */
  ghost predicate Causal(xs: seq<Stimulus>) {
    forall m :: 0 <= m < |xs| ==> Handled(xs[..m + 1]) <= Reports(Exec(xs[..m]).calls)
  }

  lemma {:induction false} ReportsExtend(a: seq<Call>, b: seq<Call>)
    requires Extends(a, b)
    ensures Reports(a) <= Reports(b)
    ensures forall n :: |Reports(a)| <= n < |Reports(b)| ==> Reports(b)[n].Lost?
    decreases |b|
  {
    if |a| < |b| {
      var init := b[..|b| - 1];
      assert a <= init;
      ReportsExtend(a, init);
      assert !b[|b| - 1].PostedOpen?;
    } else {
      assert a == b;
    }
  }

  lemma GrowsReports(a: seq<Call>, b: seq<Call>, up: bool, n: nat)
    requires Grows(a, b, up)
    ensures Reports(a) <= Reports(b)
    ensures |Reports(a)| <= n < |Reports(b)| && Reports(b)[n].Up? ==>
              up && n == |Reports(a)| && b == a + [PostedOpen(Reports(b)[n].to)]
  {
    if up {
      assert b[..|b| - 1] == a;
    } else {
      ReportsExtend(a, b);
    }
  }

  /** The step at which report `n` was posted, in any history of the record. */
  lemma {:induction false} FindPost(logs: seq<seq<Call>>, ups: seq<bool>, n: nat) returns (j: nat)
    requires |logs| == |ups| + 1 && logs[0] == []
    requires forall k :: 0 <= k < |ups| ==> Grows(logs[k], logs[k + 1], ups[k])
    requires n < |Reports(logs[|ups|])| && Reports(logs[|ups|])[n].Up?
    ensures j < |ups| && ups[j] && |Reports(logs[j])| == n
    ensures logs[j + 1] == logs[j] + [PostedOpen(Reports(logs[|ups|])[n].to)]
    decreases |ups|
  {
    var m := |ups| - 1;
    GrowsReports(logs[m], logs[m + 1], ups[m], n);
    if n < |Reports(logs[m])| {
      j := FindPost(logs[..m + 1], ups[..m], n);
    } else {
      j := m;
    }
  }

  lemma RunGrows(xs: seq<Stimulus>, k: nat)
    requires k < |xs|
    ensures Grows(Exec(xs[..k]).calls, Exec(xs[..k + 1]).calls, xs[k].input.BtmUp?)
  {
    StepLogs(Exec(xs[..k]), xs[k]);
    assert xs[..k + 1][..k] == xs[..k];
  }

  /** A link-up report in the queue was posted by a callback of the lower stack. */
  lemma PostedBy(xs: seq<Stimulus>, n: nat) returns (j: nat)
    requires n < |Reports(Exec(xs).calls)| && Reports(Exec(xs).calls)[n].Up?
    ensures j < |xs| && xs[j].input.BtmUp? && |Reports(Exec(xs[..j]).calls)| == n
    ensures Exec(xs[..j + 1]).calls == Exec(xs[..j]).calls + [PostedOpen(Reports(Exec(xs).calls)[n].to)]
  {
    var logs := seq(|xs| + 1, k requires 0 <= k <= |xs| => Exec(xs[..k]).calls);
    var ups := seq(|xs|, k requires 0 <= k < |xs| => xs[k].input.BtmUp?);
    forall k | 0 <= k < |ups| ensures Grows(logs[k], logs[k + 1], ups[k]) {
      RunGrows(xs, k);
    }
    assert xs[..|xs|] == xs;
    j := FindPost(logs, ups, n);
  }

  /** In every run of the message queue that ends in OPEN, the lower stack announced a link by its
      callback at some step `j`, the report of that very callback was handled at a later step `k`, and no
      loss has been reported since, except for blocks that wanted a retry. */
  lemma OpenMeansCallback(xs: seq<Stimulus>) returns (j: nat, k: nat)
    requires Causal(xs) && Exec(xs).state == OpenSt
    ensures j < k < |xs| && xs[j].input.BtmUp? && xs[k].input.EvOpened?
    ensures Exec(xs[..j + 1]).calls == Exec(xs[..j]).calls + [PostedOpen(xs[k].input.i)]
    ensures |Reports(Exec(xs[..j]).calls)| == |Handled(xs[..k])|
    ensures forall m :: k < m < |xs| && LinkReportedDown(Exec(xs[..m]), xs[m]) ==> RetryLoss(Exec(xs[..m]), xs[m])
  {
    k := OpenMeansLinkUp(xs);
    var n := |Handled(xs[..k])|;
    assert xs[..k + 1][..k] == xs[..k];
    assert Handled(xs[..k + 1])[n] == Up(xs[k].input.i);
    j := PostedBy(xs[..k], n);
    assert xs[..k][..j] == xs[..j] && xs[..k][..j + 1] == xs[..j + 1];
  }
}
