/** Runs played on the control block itself. */
module ScoPlay {
  import opened ScoMachine
  import opened ScoModel
  import opened ScoPosts
  import opened ScoRuns

  /** A request, a posted event or a headset command reaches the block it is for. */
  method HandleAddressed(c: ScoControl, x: Stimulus)
    requires Safe(c.Snap()) && Addressee(x.input).Some? && !Undeliverable(c.Snap(), x.input)
    modifies c
    ensures c.Snap() == Deliver(old(c.Snap()), x)
  {
    match x.input
    case ReqListen(i) => c.HandleEvent(i, ListenE, x.btm);
    case ReqOpen(i) => c.OpenAudio(i, x.btm);
    case ReqClose(i) => c.CloseAudio(i, x.btm);
    case ReqShutdown(i) => c.HandleEvent(i, ShutdownE, x.btm);
    case EvOpened(i) => c.OnConnOpen(i, x.btm);
    case EvClosed(i) => c.OnConnClose(i, x.btm);
    case HeadsetBcs(i, named) => c.OnAtBcs(i, named, x.btm);
    case HeadsetBac(i, hasMsbc) => c.OnAtBac(i, hasMsbc, x.btm);
  }

  method Handle(c: ScoControl, x: Stimulus)
    requires Safe(c.Snap())
    modifies c
    ensures c.Snap() == Step(old(c.Snap()), x)
  {
    var to := Addressee(x.input);
    if to.Some? {
      if c.scbs[to.value].inUse { HandleAddressed(c, x); }
      return;
    }
    match x.input
    case NegotiationTimeout(i) => c.NegotiationResult(i, false, x.btm);
    case BtmUp(idx, addr) => c.OnLinkUp(idx, addr);
    case BtmDown(idx) => c.OnLinkDown(idx);
    case BtmRequest(idx, addr) => c.OnConnRequest(idx, addr, x.btm);
    case SetActive(device) => c.active := device;
    case SetAllowed(value) => c.allowed := value;
    case Rewrite(i, b) => c.scbs := c.scbs[i := b];
  }

  /** A callback at step `j` announced the link whose report was handled at step `k`, and no loss was
      reported since, except for blocks that wanted a retry. */
  ghost predicate LinkAnnounced(xs: seq<Stimulus>, j: nat, k: nat) {
    && j < k < |xs| && xs[j].input.BtmUp? && xs[k].input.EvOpened?
    && Exec(xs[..j + 1]).calls == Exec(xs[..j]).calls + [PostedOpen(xs[k].input.i)]
    && forall m :: k < m < |xs| && LinkReportedDown(Exec(xs[..m]), xs[m]) ==> RetryLoss(Exec(xs[..m]), xs[m])
  }

  /** Any run, on a control block from start-up: it does what the specification does, a transfer state
      has its target, and if reports come through the message queue an open machine had its link
      announced. */
  method Play(xs: seq<Stimulus>) returns (c: ScoControl)
    ensures c.Snap() == Exec(xs)
    ensures c.state == OpenXferSt || c.state == CloseXferSt ==> c.xfer.Some?
    ensures Causal(xs) && c.state == OpenSt ==> exists j, k :: LinkAnnounced(xs, j, k)
  {
    c := new ScoControl();
    for n := 0 to |xs|
      invariant c.Snap() == Exec(xs[..n])
    {
      Handle(c, xs[n]);
      assert xs[..n + 1][..n] == xs[..n];
    }
    assert xs[..|xs|] == xs;
    if Causal(xs) && Exec(xs).state == OpenSt {
      ghost var j, k := OpenMeansCallback(xs);
      assert LinkAnnounced(xs, j, k);
    }
  }
}
