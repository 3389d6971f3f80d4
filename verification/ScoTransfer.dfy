/** Who gets the link at the end of a transfer: over any run, the block that asked for it. */
module ScoTransfer {
  import opened Collections
  import opened ScoCells
  import opened ScoFallback
  import opened ScoModel
  import opened ScoRuns
  import opened Transducers

  /** The machine waits for the old link to close, to give it to `j`: to a headset that the application
      chose in CLOSE_XFER, to one that asked by itself in OPEN_XFER. */
  predicate Waiting(s: Sco, st: LinkState, j: Index) { s.state == st && s.xfer == Some(j) }

  predicate IsTransfer(st: LinkState) { st == CloseXferSt || st == OpenXferSt }

  /** The headset that the machine waits for asks again while the old link is being removed. */
  predicate AsksAgain(s: SafeSco, x: Stimulus, j: Index)
    requires x.input.BtmRequest? && MayAsk(s, x.input.addr)
  {
    var target := FindByAddr(s.scbs, x.input.addr.value).value;
    && s.state == OpenXferSt && target == j && s.curr.Some?
    && Removal(Put(s, target, s.scbs[target].(scoIdx := x.input.idx)), s.curr.value, true) != []
    && x.btm.remove == RemoveStarted
  }

  /** What ends the wait: a loss that is not retried, which completes the transfer; a close, a shutdown, a
      negotiation that fails; another headset that asks; and a link that leads to nobody. */
  predicate Ends(s: SafeSco, x: Stimulus, j: Index) {
    !Undeliverable(s, x.input) &&
    match x.input
    case ReqClose(i) => s.scbs[i].scoIdx != INVALID_INDEX
    case ReqShutdown(i) => true
    case EvClosed(i) => !WantsRetry(s.scbs[i])
    case NegotiationTimeout(i) => true
    case HeadsetBcs(i, named) => !Confirms(s.scbs[i], named)
    case BtmUp(idx, addr) =>
      && !(s.curr.Some? && s.scbs[s.curr.value].inUse)
      && !(addr.Some? && var peer := FindByAddr(s.scbs, addr.value); peer.Some? && s.scbs[peer.value].svcConn)
    case BtmDown(idx) => s.curr.Some? && !s.scbs[s.curr.value].inUse
    case BtmRequest(idx, addr) => MayAsk(s, addr) && !AsksAgain(s, x, j)
    case _ => false
  }

  lemma WaitLoss(s: SafeSco, i: Index, btm: Btm, st: LinkState, j: Index)
    requires IsTransfer(st) && Waiting(s, st, j)
    ensures Waiting(ConnClosed(s, i, btm), st, j) <==> WantsRetry(s.scbs[i])
    ensures WantsRetry(s.scbs[i]) ==> ConnClosed(s, i, btm).calls == s.calls
  {
    if WantsRetry(s.scbs[i]) { ReopenOnlyWhileOpening(Lost(s, i), i, btm); }
    else if st == CloseXferSt { LossHandsOver(s, i, btm); }
    else { LossAnswers(s, i, btm); }
  }

  lemma WaitStepRequest(s: SafeSco, x: Stimulus, st: LinkState, j: Index)
    requires IsTransfer(st) && Waiting(s, st, j)
    requires x.input.ReqListen? || x.input.ReqOpen? || x.input.ReqClose? || x.input.ReqShutdown?
    ensures Waiting(Step(s, x), st, j) <==> !Ends(s, x, j)
    ensures !Ends(s, x, j) ==> OnlyTo(s.calls, Step(s, x).calls, j)
  {
    if !Undeliverable(s, x.input) {
      match x.input
      case ReqListen(i) => ListenCell(s, i, x.btm);
      case ReqOpen(i) =>
        if s.curr.Some? && s.curr != Some(i) { TransferCell(s, i, x.btm); } else { OpenCell(s, i, x.btm); }
      case ReqClose(i) => CloseCell(s, i, x.btm);
      case ReqShutdown(i) => ShutdownCell(s, i, x.btm);
    }
  }

  lemma WaitStepUp(s: SafeSco, i: Index, btm: Btm, st: LinkState, j: Index)
    requires IsTransfer(st) && Waiting(s, st, j)
    ensures
      var r := Step(s, Stimulus(EvOpened(i), btm));
      Waiting(r, st, j) && OnlyTo(s.calls, r.calls, j)
  {
    if s.scbs[i].inUse { UpCell(s, i, btm); }
  }

  lemma WaitStepLoss(s: SafeSco, i: Index, btm: Btm, st: LinkState, j: Index)
    requires IsTransfer(st) && Waiting(s, st, j)
    ensures
      var r := Step(s, Stimulus(EvClosed(i), btm));
      && (Waiting(r, st, j) <==> !s.scbs[i].inUse || WantsRetry(s.scbs[i]))
      && (!s.scbs[i].inUse || WantsRetry(s.scbs[i]) ==> r.calls == s.calls)
  {
    if s.scbs[i].inUse {
      ClosedIsConnClosed(s, i, btm);
      WaitLoss(s, i, btm, st, j);
    }
  }

  lemma WaitStepHeadset(s: SafeSco, x: Stimulus, st: LinkState, j: Index)
    requires IsTransfer(st) && Waiting(s, st, j) && (x.input.HeadsetBcs? || x.input.HeadsetBac?)
    ensures Waiting(Step(s, x), st, j) <==> !Ends(s, x, j)
    ensures !Ends(s, x, j) ==> OnlyTo(s.calls, Step(s, x).calls, j)
  {
    if !Undeliverable(s, x.input) {
      match x.input
      case HeadsetBcs(i, named) => CloseCell(s, i, x.btm);
      case HeadsetBac(i, hasMsbc) => CodecsRemembered(s, i, hasMsbc, x.btm);
    }
  }

  lemma WaitStepOther(s: SafeSco, x: Stimulus, st: LinkState, j: Index)
    requires IsTransfer(st) && Waiting(s, st, j) && Addressee(x.input).None?
    ensures Waiting(Step(s, x), st, j) <==> !Ends(s, x, j)
    ensures !Ends(s, x, j) ==> OnlyTo(s.calls, Step(s, x).calls, j)
  {
    match x.input
    case NegotiationTimeout(i) => CloseCell(s, i, x.btm);
    case BtmUp(idx, addr) => UpCallback(s, idx, addr);
    case BtmDown(idx) => DownCallback(s, idx);
    case BtmRequest(idx, addr) =>
      if !MayAsk(s, addr) { RejectionCell(s, idx, addr, x.btm); }
      else if s.curr == None { AnswerCell(s, idx, addr, x.btm); }
      else { RequestedTransferCell(s, idx, addr, x.btm); }
    case _ =>
  }

  /** The machine goes on waiting for the same target exactly through the steps that do not end the wait,
      and during those nobody is proposed a codec, given a link or answered. */
  lemma WaitStep(s: SafeSco, x: Stimulus, st: LinkState, j: Index)
    requires IsTransfer(st) && Waiting(s, st, j)
    ensures Waiting(Step(s, x), st, j) <==> !Ends(s, x, j)
    ensures !Ends(s, x, j) ==> OnlyTo(s.calls, Step(s, x).calls, j)
  {
    match x.input
    case ReqListen(_) | ReqOpen(_) | ReqClose(_) | ReqShutdown(_) => WaitStepRequest(s, x, st, j);
    case EvOpened(i) => WaitStepUp(s, i, x.btm, st, j);
    case EvClosed(i) => WaitStepLoss(s, i, x.btm, st, j);
    case HeadsetBcs(_, _) | HeadsetBac(_, _) => WaitStepHeadset(s, x, st, j);
    case _ => WaitStepOther(s, x, st, j);
  }

  /** The run from `s`. */
  function From(s: SafeSco, xs: seq<Stimulus>): SafeSco { Fold<SafeSco, Stimulus>(Stepper(), s, xs) }

  ghost predicate Undisturbed(s: SafeSco, xs: seq<Stimulus>, j: Index) {
    forall m :: 0 <= m < |xs| ==> !Ends(From(s, xs[..m]), xs[m], j)
  }

  lemma GoesOnWaiting(s: SafeSco, xs: seq<Stimulus>, st: LinkState, j: Index)
    requires IsTransfer(st) && Waiting(s, st, j) && Undisturbed(s, xs, j)
    ensures Waiting(From(s, xs), st, j) && OnlyTo(s.calls, From(s, xs).calls, j)
  {
    var waits := (t: SafeSco) => Waiting(t, st, j) && OnlyTo(s.calls, t.calls, j);
    var ends := (t: SafeSco, x: Stimulus) => Ends(t, x, j);
    forall t: SafeSco, x: Stimulus | waits(t) && !ends(t, x) ensures waits(Stepper()(t, x)) {
      WaitStep(t, x, st, j);
      OnlyToTwice(s.calls, t.calls, Step(t, x).calls, j);
    }
    FoldKeepsUnless<SafeSco, Stimulus>(Stepper(), s, xs, waits, ends);
  }

  lemma ApplicationAsks(s: SafeSco, j: Index, btm: Btm)
    requires s.state == OpenSt && s.curr.Some? && s.curr != Some(j) && s.allowed && s.scbs[j].inUse
    ensures
      var asked := Step(s, Stimulus(ReqOpen(j), btm));
      Waiting(asked, CloseXferSt, j) && OnlyTo(s.calls, asked.calls, j)
  {
    TransferCell(s, j, btm);
  }

  lemma TransferEnds(s: SafeSco, j: Index, i: Index, btm: Btm)
    requires Waiting(s, CloseXferSt, j) && s.scbs[i].inUse && !WantsRetry(s.scbs[i])
    ensures
      var t, r := Lost(s, i), Step(s, Stimulus(EvClosed(i), btm));
      && r.xfer == None && TurnsTo(s.calls, r, j)
      && (i != j ==> Served(s.calls + ListenCall(t, i), t, r, j, btm))
  {
    ClosedIsConnClosed(s, i, btm);
    LossHandsOver(s, i, btm);
  }

  lemma OnlyToTwice(a: seq<Call>, b: seq<Call>, c: seq<Call>, x: nat)
    requires OnlyTo(a, b, x) && OnlyTo(b, c, x)
    ensures OnlyTo(a, c, x)
  {
  }

  /** The application asks for audio on `j` while another block has it open. Whatever happens until the loss
      of the old link is reported, short of something that ends the wait, the machine then turns to `j`: what
      it listened on is removed, and it is proposed its codec or given the link. In all that time nobody else
      is. */
  lemma TransferReachesTarget(s: SafeSco, j: Index, xs: seq<Stimulus>, i: Index, btm: Btm, btm': Btm)
    requires s.state == OpenSt && s.curr.Some? && s.curr != Some(j) && s.allowed && s.scbs[j].inUse
    requires
      var asked := Step(s, Stimulus(ReqOpen(j), btm));
      Undisturbed(asked, xs, j) && From(asked, xs).scbs[i].inUse && !WantsRetry(From(asked, xs).scbs[i])
    ensures
      var t := From(Step(s, Stimulus(ReqOpen(j), btm)), xs);
      var lost, r := Lost(t, i), Step(t, Stimulus(EvClosed(i), btm'));
      && r.xfer == None && TurnsTo(s.calls, r, j)
      && (i != j ==> Served(t.calls + ListenCall(lost, i), lost, r, j, btm'))
  {
    var asked: SafeSco := Step(s, Stimulus(ReqOpen(j), btm));
    ApplicationAsks(s, j, btm);
    GoesOnWaiting(asked, xs, CloseXferSt, j);
    var t: SafeSco := From(asked, xs);
    TransferEnds(t, j, i, btm');
    OnlyToTwice(s.calls, asked.calls, t.calls, j);
    TurnsAfter(s.calls, t.calls, Step(t, Stimulus(EvClosed(i), btm')), j);
  }

  lemma HeadsetAsks(s: SafeSco, idx: nat, addr: Option<nat>, btm: Btm)
    requires MayAsk(s, addr) && s.curr.Some? && Step(s, Stimulus(BtmRequest(idx, addr), btm)).state == OpenXferSt
    ensures
      var x, asked := FindByAddr(s.scbs, addr.value).value, Step(s, Stimulus(BtmRequest(idx, addr), btm));
      Waiting(asked, OpenXferSt, x) && OnlyTo(s.calls, asked.calls, x)
  {
    RequestedTransferCell(s, idx, addr, btm);
  }

  /** The headset `x` is answered, and is the current block with its own link. */
  ghost predicate Answered(before: seq<Call>, r: Sco, x: Index)
    requires Valid(r)
  {
    && r.state == OpeningSt && r.curr == Some(x) && r.xfer == None && r.curIdx == r.scbs[x].scoIdx
    && OnlyTo(before, r.calls, x) && |before| < |r.calls| && r.calls[|r.calls| - 1] == Accepted(x)
  }

  lemma AnswerEnds(s: SafeSco, x: Index, i: Index, btm: Btm)
    requires Waiting(s, OpenXferSt, x) && s.scbs[i].inUse && !WantsRetry(s.scbs[i])
    ensures Answered(s.calls, Step(s, Stimulus(EvClosed(i), btm)), x)
  {
    ClosedIsConnClosed(s, i, btm);
    LossAnswers(s, i, btm);
  }

  lemma AnsweredAfter(a: seq<Call>, b: seq<Call>, r: Sco, x: Index)
    requires Valid(r) && OnlyTo(a, b, x) && Answered(b, r, x)
    ensures Answered(a, r, x)
  {
  }

  /** A headset asks for the link itself while another block holds it, and that link is being removed. When
      the removal is reported, short of something that ends the wait, the headset that asked is answered, it
      is the current block with its own link, and in all that time nobody else is answered. */
  lemma RequestIsAnswered(s: SafeSco, idx: nat, addr: Option<nat>, xs: seq<Stimulus>, i: Index, btm: Btm, btm': Btm)
    requires MayAsk(s, addr) && s.curr.Some? && Step(s, Stimulus(BtmRequest(idx, addr), btm)).state == OpenXferSt
    requires
      var asked := Step(s, Stimulus(BtmRequest(idx, addr), btm));
      && Undisturbed(asked, xs, FindByAddr(s.scbs, addr.value).value)
      && From(asked, xs).scbs[i].inUse && !WantsRetry(From(asked, xs).scbs[i])
    ensures
      var r := Step(From(Step(s, Stimulus(BtmRequest(idx, addr), btm)), xs), Stimulus(EvClosed(i), btm'));
      Answered(s.calls, r, FindByAddr(s.scbs, addr.value).value)
  {
    var x: Index := FindByAddr(s.scbs, addr.value).value;
    var asked: SafeSco := Step(s, Stimulus(BtmRequest(idx, addr), btm));
    HeadsetAsks(s, idx, addr, btm);
    GoesOnWaiting(asked, xs, OpenXferSt, x);
    var t: SafeSco := From(asked, xs);
    AnswerEnds(t, x, i, btm');
    OnlyToTwice(s.calls, asked.calls, t.calls, x);
    AnsweredAfter(s.calls, t.calls, Step(t, Stimulus(EvClosed(i), btm')), x);
  }
}
