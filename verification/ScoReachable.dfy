/** Runs from start-up, through the message queue, that end in the states of ScoSwallowedClose. */
module ScoReachable {
  import opened Collections
  import opened ScoFallback
  import opened ScoModel
  import opened ScoPosts
  import opened ScoRuns
  import opened ScoSwallowedClose

  // ----- building a run

  /** A run of the message queue that leaves nothing in it. */
  ghost predicate Settled(xs: seq<Stimulus>) { Causal(xs) && Handled(xs) == Reports(Exec(xs).calls) }

  predicate IsReport(input: Input) { input.EvOpened? || input.EvClosed? }

  function ReportOf(input: Input): Report
    requires IsReport(input)
  {
    if input.EvOpened? then Up(input.i) else Lost(input.i)
  }

  lemma ExecSnoc(xs: seq<Stimulus>, x: Stimulus)
    ensures Exec(xs + [x]) == Step(Exec(xs), x)
  {
  }

  lemma HandledSnoc(xs: seq<Stimulus>, x: Stimulus)
    ensures Handled(xs + [x]) == Handled(xs) + if IsReport(x.input) then [ReportOf(x.input)] else []
  {
    assert (xs + [x])[..|xs|] == xs;
  }

  lemma ReportsSnoc(calls: seq<Call>, c: Call)
    ensures !c.PostedOpen? && !c.PostedClose? ==> Reports(calls + [c]) == Reports(calls)
    ensures c.PostedOpen? ==> Reports(calls + [c]) == Reports(calls) + [Up(c.to)]
    ensures c.PostedClose? ==> Reports(calls + [c]) == Reports(calls) + [Lost(c.to)]
  {
    assert (calls + [c])[..|calls|] == calls;
  }

  lemma CausalSnoc(xs: seq<Stimulus>, x: Stimulus)
    requires Causal(xs) && Handled(xs + [x]) <= Reports(Exec(xs).calls)
    ensures Causal(xs + [x])
  {
    var ys := xs + [x];
    forall m | 0 <= m < |ys| ensures Handled(ys[..m + 1]) <= Reports(Exec(ys[..m]).calls) {
      assert ys[..m] == xs[..m];
      if m < |xs| {
        assert ys[..m + 1] == xs[..m + 1];
      } else {
        assert ys[..m] == xs && ys[..m + 1] == ys;
      }
    }
  }

  /** A step that posts nothing. */
  lemma Silent(xs: seq<Stimulus>, x: Stimulus)
    requires Settled(xs) && !IsReport(x.input) && Reports(Step(Exec(xs), x).calls) == Reports(Exec(xs).calls)
    ensures Settled(xs + [x]) && Exec(xs + [x]) == Step(Exec(xs), x)
  {
    ExecSnoc(xs, x);
    HandledSnoc(xs, x);
    CausalSnoc(xs, x);
  }

  /** A callback that posts one report, and the handling of that report. */
  lemma Heard(xs: seq<Stimulus>, x: Stimulus, y: Stimulus)
    requires Settled(xs) && !IsReport(x.input) && IsReport(y.input)
    requires Reports(Step(Exec(xs), x).calls) == Reports(Exec(xs).calls) + [ReportOf(y.input)]
    requires Reports(Step(Step(Exec(xs), x), y).calls) == Reports(Step(Exec(xs), x).calls)
    ensures Settled(xs + [x] + [y]) && Exec(xs + [x] + [y]) == Step(Step(Exec(xs), x), y)
  {
    ExecSnoc(xs, x);
    ExecSnoc(xs + [x], y);
    HandledSnoc(xs, x);
    HandledSnoc(xs + [x], y);
    CausalSnoc(xs, x);
    CausalSnoc(xs + [x], y);
  }

  // ----- the first attempts for a headset

  /** A block as it stands once a headset with mSBC has connected. */
  predicate Connected(b: Scb) {
    && b.inUse && b.connState == ConnOpenSt && b.svcConn && b.peerNegotiates && b.peerAddr != 0
    && b.scoIdx == INVALID_INDEX && b.scoCodec == MSBC && b.codecUpdated && Fresh(b)
  }

  /** The headset of block 0 has connected; it is made active and listens. */
  function Setup(b: Scb, btm: Btm): seq<Stimulus> {
    [Stimulus(Rewrite(0, b), btm)] + [Stimulus(SetActive(b.peerAddr), btm)] + [Stimulus(ReqListen(0), btm)]
  }

  lemma Listens(s: SafeSco, btm: Btm)
    requires s.state == ShutdownSt && Connected(s.scbs[0]) && s.active == s.scbs[0].peerAddr && btm.listen.Some?
    ensures
      var r := Step(s, Stimulus(ReqListen(0), btm));
      && r.calls == s.calls + [Listening(0)] && r.state == ListenSt && r.curr == s.curr && r.allowed == s.allowed
      && r.active == s.active && r.scbs == s.scbs[0 := s.scbs[0].(scoIdx := btm.listen.value)]
  {
  }

  lemma SetupIsSettled(b: Scb, btm: Btm)
    requires Connected(b) && btm.listen.Some?
    ensures
      var xs := Setup(b, btm);
      Settled(xs) && Idle(Exec(xs), 0) && Exec(xs).scbs[0].codecUpdated
  {
    var x1, x2, x3 := Stimulus(Rewrite(0, b), btm), Stimulus(SetActive(b.peerAddr), btm), Stimulus(ReqListen(0), btm);
    Silent([], x1);
    assert [] + [x1] == [x1];
    Silent([x1], x2);
    var s := Exec([x1] + [x2]);
    assert s == Put(Initial(), 0, b).(active := b.peerAddr);
    Listens(s, btm);
    ReportsSnoc(s.calls, Listening(0));
    Silent([x1] + [x2], x3);
  }

  /** The application opens audio: mSBC is proposed. */
  lemma OpenPostsNothing(s: SafeSco, i: Index, btm: Btm)
    requires Idle(s, i) && s.scbs[i].codecUpdated && Willing(btm)
    ensures Reports(Step(s, Stimulus(ReqOpen(i), btm)).calls) == Reports(s.calls)
  {
    var t: SafeSco := RemoveSco(s, i, false, btm).0.(state := CodecSt);
    assert Step(s, Stimulus(ReqOpen(i), btm)) == Negotiate(t, i, btm) by { OpenNegotiates(s, i, btm); }
    ListeningLinkDropped(s, i, btm);
    NegotiationStarts(t, i, btm);
    ReportsSnoc(s.calls, Removed(s.scbs[i].scoIdx));
    ReportsSnoc(t.calls, SentBcs(i, MSBC));
  }

  lemma OpenNegotiates(s: SafeSco, i: Index, btm: Btm)
    requires Idle(s, i)
    ensures Step(s, Stimulus(ReqOpen(i), btm)) == Negotiate(RemoveSco(s, i, false, btm).0.(state := CodecSt), i, btm)
  {
  }

  /** The headset confirms mSBC: the attempt with T2 is under way. */
  lemma BcsPostsNothing(s: SafeSco, i: Index, btm: Btm)
    requires Proposing(s, i) && Willing(btm)
    ensures
      var r := Step(s, Stimulus(HeadsetBcs(i, MSBC), btm));
      Trying(r, i, ParamsMsbcT2) && Reports(r.calls) == Reports(s.calls)
  {
    assert Step(s, Stimulus(HeadsetBcs(i, MSBC), btm)) == Confirmed(s, i, btm);
    ProposalConfirmed(s, i, btm);
    BcsLinkUsesNamedCodec(s, i, MSBC, btm);
    ReportsSnoc(s.calls, Originated(i, ParamsMsbcT2));
  }

  /** It fails: the attempt with T1 is under way. */
  lemma FailurePostsLoss(s: SafeSco, i: Index, btm: Btm)
    requires Trying(s, i, ParamsMsbcT2) && Willing(btm)
    ensures
      var down := Step(s, Stimulus(BtmDown(s.scbs[i].scoIdx), btm));
      var r := Step(down, Stimulus(EvClosed(i), btm));
      && Reports(down.calls) == Reports(s.calls) + [Lost(i)] && Reports(r.calls) == Reports(down.calls)
      && Trying(r, i, ParamsMsbcT1)
  {
    DownIsLinkDown(s, s.scbs[i].scoIdx, btm);
    var down := LinkDown(s, s.scbs[i].scoIdx);
    assert down.calls == s.calls + [PostedClose(i)] && down.scbs[i].inUse;
    ClosedIsConnClosed(down, i, btm);
    T2Fails(s, i, btm);
    T2FailureCalls(s, i, btm);
    ReportsSnoc(s.calls, PostedClose(i));
    ReportsSnoc(down.calls, Originated(i, ParamsMsbcT1));
  }

  /** From start-up to the retry with the safe settings, every report handled. */
  lemma RetryIsReachable(b: Scb, btm: Btm) returns (xs: seq<Stimulus>)
    requires Connected(b) && btm.listen.Some? && Willing(btm)
    ensures Settled(xs) && Trying(Exec(xs), 0, ParamsMsbcT1)
  {
    SetupIsSettled(b, btm);
    xs := Proposed(Setup(b, btm), btm);
    xs := Tried(xs, btm);
    xs := Retried(xs, btm);
  }

  lemma Proposed(xs: seq<Stimulus>, btm: Btm) returns (ys: seq<Stimulus>)
    requires Settled(xs) && Idle(Exec(xs), 0) && Exec(xs).scbs[0].codecUpdated && Willing(btm)
    ensures Settled(ys) && Proposing(Exec(ys), 0)
  {
    OpenPostsNothing(Exec(xs), 0, btm);
    OpenEntersChain(Exec(xs), 0, btm);
    Silent(xs, Stimulus(ReqOpen(0), btm));
    ys := xs + [Stimulus(ReqOpen(0), btm)];
  }

  lemma Tried(xs: seq<Stimulus>, btm: Btm) returns (ys: seq<Stimulus>)
    requires Settled(xs) && Proposing(Exec(xs), 0) && Willing(btm)
    ensures Settled(ys) && Trying(Exec(ys), 0, ParamsMsbcT2)
  {
    BcsPostsNothing(Exec(xs), 0, btm);
    Silent(xs, Stimulus(HeadsetBcs(0, MSBC), btm));
    ys := xs + [Stimulus(HeadsetBcs(0, MSBC), btm)];
  }

  lemma Retried(xs: seq<Stimulus>, btm: Btm) returns (ys: seq<Stimulus>)
    requires Settled(xs) && Trying(Exec(xs), 0, ParamsMsbcT2) && Willing(btm)
    ensures Settled(ys) && Trying(Exec(ys), 0, ParamsMsbcT1)
  {
    var x, y := Stimulus(BtmDown(Exec(xs).scbs[0].scoIdx), btm), Stimulus(EvClosed(0), btm);
    FailurePostsLoss(Exec(xs), 0, btm);
    Heard(xs, x, y);
    ys := xs + [x] + [y];
  }

  // ----- a transfer that waits for a link that is gone

  /** The lost transfer happens: during the retry another headset connects and is given the link, and a run
      from start-up ends with the machine waiting for the old link to close, which is gone already. */
  lemma LostTransferIsReachable(b: Scb, b': Scb, j: Index, btm: Btm) returns (xs: seq<Stimulus>)
    requires Connected(b) && btm.listen.Some? && Willing(btm) && Connected(b') && j != 0
    ensures Causal(xs)
    ensures Exec(xs).state == CloseXferSt && Exec(xs).curr == None && Exec(xs).xfer == Some(j)
    ensures Exec(xs).scbs[0].scoIdx == INVALID_INDEX && Exec(xs).scbs[j] == b' && b'.inUse
  {
    xs := RetryIsReachable(b, btm);
    xs := Joined(xs, b', j, btm);
    var s, x := Exec(xs), Stimulus(ReqOpen(j), btm);
    TransferIsLost(s, 0, j, btm);
    Silent(xs, x);
    var asked := Step(s, x);
    ReportsSnoc(s.calls, PostedClose(0));
    var y, z := Stimulus(BtmDown(asked.scbs[0].scoIdx), btm), Stimulus(EvClosed(0), btm);
    Heard(xs + [x], y, z);
    xs := xs + [x] + [y] + [z];
  }

  /** Another headset connects. */
  lemma Joined(xs: seq<Stimulus>, b': Scb, j: Index, btm: Btm) returns (ys: seq<Stimulus>)
    requires Settled(xs) && Trying(Exec(xs), 0, ParamsMsbcT1) && j != 0
    ensures Settled(ys) && Trying(Exec(ys), 0, ParamsMsbcT1) && Exec(ys).scbs[j] == b'
  {
    Silent(xs, Stimulus(Rewrite(j, b'), btm));
    ys := xs + [Stimulus(Rewrite(j, b'), btm)];
  }

  // ----- an open machine without a link

  /** The machine does stay open without a link: in a run from start-up the retry's link comes up and goes
      down again before the two reports are handled, in order. */
  lemma OpenWithoutLinkIsReachable(b: Scb, btm: Btm) returns (xs: seq<Stimulus>)
    requires Connected(b) && btm.listen.Some? && Willing(btm)
    ensures Causal(xs)
    ensures Exec(xs).state == OpenSt && Exec(xs).curr == None && Exec(xs).scbs[0].scoIdx == INVALID_INDEX
  {
    xs := RetryIsReachable(b, btm);
    xs := UpAndDown(xs, btm);
  }

  lemma UpAndDownPost(s: SafeSco, i: Index, addr: Option<nat>, btm: Btm)
    requires Trying(s, i, ParamsMsbcT1)
    ensures
      var idx := s.scbs[i].scoIdx;
      var up := Step(s, Stimulus(BtmUp(idx, addr), btm));
      var down := Step(up, Stimulus(BtmDown(idx), btm));
      && Reports(s.calls) <= Reports(up.calls) && Reports(down.calls) == Reports(s.calls) + [Up(i), Lost(i)]
      && Reports(Step(down, Stimulus(EvOpened(i), btm)).calls) == Reports(down.calls)
  {
    OpenWithoutLink(s, i, addr, btm);
    ReportsSnoc(s.calls, PostedOpen(i));
    ReportsSnoc(s.calls + [PostedOpen(i)], PostedClose(i));
  }

  lemma UpAndDown(xs: seq<Stimulus>, btm: Btm) returns (ys: seq<Stimulus>)
    requires Settled(xs) && Trying(Exec(xs), 0, ParamsMsbcT1)
    ensures Causal(ys)
    ensures Exec(ys).state == OpenSt && Exec(ys).curr == None && Exec(ys).scbs[0].scoIdx == INVALID_INDEX
  {
    var s: SafeSco := Exec(xs);
    var idx, addr := s.scbs[0].scoIdx, Some(s.scbs[0].peerAddr);
    var up, down := Stimulus(BtmUp(idx, addr), btm), Stimulus(BtmDown(idx), btm);
    var heard, lost := Stimulus(EvOpened(0), btm), Stimulus(EvClosed(0), btm);
    UpAndDownPost(s, 0, addr, btm);
    BothHeard(xs, up, down, heard, lost);
    OpenWithoutLink(s, 0, addr, btm);
    ys := xs + [up] + [down] + [heard] + [lost];
  }

  /** Two callbacks that post one report each, and then the handling of both. */
  lemma BothHeard(xs: seq<Stimulus>, x1: Stimulus, x2: Stimulus, y1: Stimulus, y2: Stimulus)
    requires Settled(xs) && !IsReport(x1.input) && !IsReport(x2.input) && IsReport(y1.input) && IsReport(y2.input)
    requires
      var s2 := Step(Step(Exec(xs), x1), x2);
      && Reports(Exec(xs).calls) <= Reports(Step(Exec(xs), x1).calls)
      && Reports(s2.calls) == Reports(Exec(xs).calls) + [ReportOf(y1.input), ReportOf(y2.input)]
      && Reports(Step(s2, y1).calls) == Reports(s2.calls)
    ensures
      var ys := xs + [x1] + [x2] + [y1] + [y2];
      Causal(ys) && Exec(ys) == Step(Step(Step(Step(Exec(xs), x1), x2), y1), y2)
  {
    var a := xs + [x1];
    var b := a + [x2];
    var c := b + [y1];
    ExecSnoc(xs, x1);
    ExecSnoc(a, x2);
    ExecSnoc(b, y1);
    ExecSnoc(c, y2);
    HandledSnoc(xs, x1);
    HandledSnoc(a, x2);
    HandledSnoc(b, y1);
    HandledSnoc(c, y2);
    CausalSnoc(xs, x1);
    CausalSnoc(a, x2);
    CausalSnoc(b, y1);
    CausalSnoc(c, y2);
  }
}
