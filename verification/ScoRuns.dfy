/** Whole runs of the audio-link machine: requests, headset commands, link callbacks and posted
    events in any order, with any answers from the lower stack. */
module ScoRuns {
  import opened Collections
  import opened ScoModel
  import opened Transducers

  type Index = i: nat | i < NUM_CLIENTS

  datatype Input =
    | ReqListen(i: Index)
    | ReqOpen(i: Index)
    | ReqClose(i: Index)
    | ReqShutdown(i: Index)
    | EvOpened(i: Index)                        // posted by LinkUp, delivered later
    | EvClosed(i: Index)                        // posted by LinkDown or CreateSco, delivered later
    | NegotiationTimeout(i: Index)
    | HeadsetBcs(i: Index, named: int)
    | HeadsetBac(i: Index, hasMsbc: bool)
    | BtmUp(idx: nat, addr: Option<nat>)
    | BtmDown(idx: nat)
    | BtmRequest(idx: nat, addr: Option<nat>)
    | SetActive(device: nat)
    | SetAllowed(value: bool)
    | Rewrite(i: Index, b: Scb)                 // any other code of the gateway changes a block

  datatype Stimulus = Stimulus(input: Input, btm: Btm)

  ghost predicate Safe(s: Sco) { Valid(s) && TargetKnown(s) }

  type SafeSco = s: Sco | Safe(s) ghost witness Initial()

  /** The block that a request, a posted event or a headset command is for. */
  function Addressee(input: Input): Option<Index> {
    match input
    case ReqListen(i) => Some(i)
    case ReqOpen(i) => Some(i)
    case ReqClose(i) => Some(i)
    case ReqShutdown(i) => Some(i)
    case EvOpened(i) => Some(i)
    case EvClosed(i) => Some(i)
    case HeadsetBcs(i, _) => Some(i)
    case HeadsetBac(i, _) => Some(i)
    case _ => None
  }

  /** What is addressed to a block that is not in use goes nowhere. */
  predicate Undeliverable(s: SafeSco, input: Input) {
    Addressee(input).Some? && !s.scbs[Addressee(input).value].inUse
  }

  /** One step. Whatever the answers, it never leaves a transfer state without its target. */
  function Step(s: SafeSco, x: Stimulus): (r: SafeSco) {
    if Undeliverable(s, x.input) then s else Deliver(s, x)
  }

  function Deliver(s: SafeSco, x: Stimulus): (r: SafeSco) {
    match x.input
    case ReqListen(i) => Event(s, i, ListenE, x.btm)
    case ReqOpen(i) => Open(s, i, x.btm)
    case ReqClose(i) => Close(s, i, x.btm)
    case ReqShutdown(i) => Event(s, i, ShutdownE, x.btm)
    case EvOpened(i) => ConnOpened(s, i, x.btm)
    case EvClosed(i) => ConnClosed(s, i, x.btm)
    case NegotiationTimeout(i) => CodecNego(s, i, false, x.btm)
    case HeadsetBcs(i, named) => AtBcs(s, i, named, x.btm)
    case HeadsetBac(i, hasMsbc) => AtBac(s, i, hasMsbc, x.btm)
    case BtmUp(idx, addr) => LinkUp(s, idx, addr)
    case BtmDown(idx) => LinkDown(s, idx)
    case BtmRequest(idx, addr) => ConnRequest(s, idx, addr, x.btm)
    case SetActive(device) => s.(active := device)
    case SetAllowed(value) => s.(allowed := value)
    case Rewrite(i, b) => Put(s, i, b)
  }

  function Stepper(): (SafeSco, Stimulus) -> SafeSco {
    (s: SafeSco, x: Stimulus) => Step(s, x)
  }

  /** The state after a run from start-up. */
  function Exec(xs: seq<Stimulus>): SafeSco {
    Fold<SafeSco, Stimulus>(Stepper(), Initial(), xs)
  }

  // ----- what a closed link leaves behind

  /** No link is up or on its way down. */
  predicate AtRest(st: LinkState) {
    st == ShutdownSt || st == ListenSt || st == CodecSt || st == OpeningSt
  }

  lemma ConnCloseRests(s: Sco, i: Index, btm: Btm)
    requires Enterable(s, ConnCloseE)
    ensures AtRest(Event(s, i, ConnCloseE, btm).state)
  {
  }

  lemma ReopenOnlyWhileOpening(s: Sco, i: Index, btm: Btm)
    requires Enterable(s, ReopenE)
    ensures s.state != OpeningSt ==> Event(s, i, ReopenE, btm) == s
    ensures s.state == OpeningSt ==> AtRest(Event(s, i, ReopenE, btm).state)
  {
  }

  /** A reported link loss brings the machine to rest, unless the block wants a retry and the
      machine is not in a state that is at rest already: then the report is swallowed. */
  lemma LinkLossRestsIff(s: Sco, i: Index, btm: Btm)
    requires Safe(s)
    ensures AtRest(ConnClosed(s, i, btm).state) <==> !WantsRetry(s.scbs[i]) || AtRest(s.state)
  {
    var s1 := Put(s, i, s.scbs[i].(scoIdx := INVALID_INDEX)).(curr := None);
    ConnCloseRests(s1, i, btm);
    ReopenOnlyWhileOpening(s1, i, btm);
  }

  // ----- an open link was reported up

  ghost predicate LinkReportedUp(s: Sco, x: Stimulus)
    requires Valid(s)
  {
    x.input.EvOpened? && s.scbs[x.input.i].inUse
  }

  ghost predicate LinkReportedDown(s: Sco, x: Stimulus)
    requires Valid(s)
  {
    x.input.EvClosed? && s.scbs[x.input.i].inUse
  }

  lemma OpenedByReport(s: Sco, i: Index, e: LinkEvent, btm: Btm)
    requires Enterable(s, e) && s.state != OpenSt && Event(s, i, e, btm).state == OpenSt
    ensures s.state == OpeningSt && e == ConnOpenE
  {
  }

  lemma ClosingOpensNothing(s: SafeSco, i: Index, btm: Btm)
    requires s.state != OpenSt
    ensures ConnClosed(s, i, btm).state != OpenSt
  {
  }

  lemma ResultOpensNothing(s: SafeSco, i: Index, agreed: bool, btm: Btm)
    requires s.state != OpenSt
    ensures CodecNego(s, i, agreed, btm).state != OpenSt
  {
  }

  lemma CodecsOpenNothing(s: SafeSco, i: Index, hasMsbc: bool, btm: Btm)
    requires s.state != OpenSt
    ensures AtBac(s, i, hasMsbc, btm).state != OpenSt
  {
  }

  lemma RequestOpensNothing(s: SafeSco, idx: nat, addr: Option<nat>, btm: Btm)
    requires s.state != OpenSt
    ensures ConnRequest(s, idx, addr, btm).state != OpenSt
  {
  }

  lemma EnteringOpen(s: SafeSco, x: Stimulus)
    requires s.state != OpenSt && Step(s, x).state == OpenSt
    ensures LinkReportedUp(s, x)
  {
    match x.input
    case ReqListen(i) => OpenedByReport(s, i, ListenE, x.btm);
    case ReqOpen(i) =>
      if s.curr.Some? && s.curr != Some(i) { OpenedByReport(s, i, XferE, x.btm); }
      else { OpenedByReport(s, i, OpenE, x.btm); }
    case ReqShutdown(i) => OpenedByReport(s, i, ShutdownE, x.btm);
    case EvClosed(i) => ClosingOpensNothing(s, i, x.btm);
    case NegotiationTimeout(i) => ResultOpensNothing(s, i, false, x.btm);
    case HeadsetBcs(i, named) => ResultOpensNothing(s, i, Confirms(s.scbs[i], named), x.btm);
    case HeadsetBac(i, hasMsbc) => CodecsOpenNothing(s, i, hasMsbc, x.btm);
    case BtmRequest(idx, addr) => RequestOpensNothing(s, idx, addr, x.btm);
    case _ =>
  }

  lemma StayingOpen(s: SafeSco, x: Stimulus)
    requires s.state == OpenSt && LinkReportedDown(s, x)
    ensures Step(s, x).state == OpenSt <==> WantsRetry(s.scbs[x.input.i])
  {
  }

  /** A loss is reported for a block that wants a retry. */
  ghost predicate RetryLoss(s: SafeSco, x: Stimulus) {
    LinkReportedDown(s, x) && WantsRetry(s.scbs[x.input.i])
  }

  /** Whenever the machine is open, a link was reported up at some step `k`, and no loss has been
      reported since, except for blocks that wanted a retry. */
  lemma OpenMeansLinkUp(xs: seq<Stimulus>) returns (k: nat)
    requires Exec(xs).state == OpenSt
    ensures k < |xs| && LinkReportedUp(Exec(xs[..k]), xs[k])
    ensures forall m :: k < m < |xs| && LinkReportedDown(Exec(xs[..m]), xs[m]) ==> RetryLoss(Exec(xs[..m]), xs[m])
  {
    var open := (s: SafeSco) => s.state == OpenSt;
    var up := (s: SafeSco, x: Stimulus) => LinkReportedUp(s, x);
    var calm := (s: SafeSco, x: Stimulus) => LinkReportedDown(s, x) ==> RetryLoss(s, x);
    forall s: SafeSco, x: Stimulus | !open(s) && open(Stepper()(s, x)) ensures up(s, x) {
      EnteringOpen(s, x);
    }
    forall s: SafeSco, x: Stimulus | open(s) && open(Stepper()(s, x)) ensures calm(s, x) {
      if LinkReportedDown(s, x) { StayingOpen(s, x); }
    }
    k := LastEntry<SafeSco, Stimulus>(Stepper(), Initial(), xs, open, up, calm);
  }

  // ----- AT+BCS

  predicate IsOriginated(c: Call) { c.Originated? }

  /** The links the gateway asked for, in order. */
  function Attempts(calls: seq<Call>): seq<Call> {
    if calls == [] then []
    else
      var rest := Attempts(calls[..|calls| - 1]);
      if IsOriginated(calls[|calls| - 1]) then rest + [calls[|calls| - 1]] else rest
  }

  function CodecOf(p: EscoParams): nat { if p == ParamsCvsd then CVSD else MSBC }

  /** The headset names the codec the gateway stands by. */
  predicate Confirms(b: Scb, named: int) {
    (named == CVSD || named == MSBC) && named == if b.codecFallback then CVSD else b.scoCodec
  }

  lemma RefusalMakesNoLink(s: Sco, i: Index, btm: Btm)
    requires Valid(s)
    ensures
      var r := CloseRequested(s, i, btm);
      r.calls == s.calls || r.calls == s.calls + [Removed(s.scbs[i].scoIdx)]
  {
  }

  lemma AgreementMakesLink(s: Sco, i: Index, named: Codec, btm: Btm)
    requires Valid(s) && Confirms(s.scbs[i], named)
    ensures
      var r := CodecNego(s, i, true, btm);
      var b := s.scbs[i];
      if s.state == CodecSt && IsActive(s, b.peerAddr) && b.scoIdx == INVALID_INDEX
      then r.calls == s.calls + [Originated(i, ParamsFor(named, b.settings))] && r.scbs[i].inuseCodec == named
      else r.calls == s.calls || r.calls == s.calls + [PostedClose(i)]
  {
  }

  /** AT+BCS creates a link exactly when a negotiation is on, the headset confirms, it is the active
      device and it has no link yet; the link goes to that headset with the codec it named. */
  lemma BcsLinkUsesNamedCodec(s: Sco, i: Index, named: int, btm: Btm)
    requires Safe(s)
    ensures
      var r := AtBcs(s, i, named, btm);
      var b := s.scbs[i];
      if s.state == CodecSt && Confirms(b, named) && IsActive(s, b.peerAddr) && b.scoIdx == INVALID_INDEX
      then r.calls == s.calls + [Originated(i, ParamsFor(named, b.settings))] &&
           CodecOf(ParamsFor(named, b.settings)) == named && r.scbs[i].inuseCodec == named
      else s.calls <= r.calls && forall c :: c in r.calls[|s.calls|..] ==> !IsOriginated(c)
  {
    if Confirms(s.scbs[i], named) {
      AgreementMakesLink(s, i, named, btm);
    } else {
      RefusalMakesNoLink(s, i, btm);
    }
  }

  /** A headset that confirms what +BCS announced is heard, unless the application has asked for no
      codec at all: then CVSD is announced and its confirmation refused. */
  lemma AnnouncedIsConfirmedIff(b: Scb)
    ensures Confirms(b, Announced(b)) <==> b.codecFallback || b.scoCodec == CVSD || b.scoCodec == MSBC
  {
  }
}
