/** The codec fallback chain: mSBC with T2 settings, then T1, then CVSD, then back to listening. It
    is spread over link creation, the disconnect callback, the close action and the event switch. */
module ScoFallback {
  import opened Collections
  import opened ScoModel
  import opened ScoRuns

  /** The lower stack accepts every request to connect and drops listening links when asked. */
  predicate Willing(btm: Btm) {
    btm.connect.Some? && btm.connect.value != INVALID_INDEX && (btm.remove == RemoveDone || btm.remove == RemoveUnknown)
  }

  /** Audio is allowed, to a connected, active headset that negotiates codecs and is to be given mSBC. */
  ghost predicate Eligible(s: Sco, i: Index) {
    && Safe(s) && s.allowed && IsActive(s, s.scbs[i].peerAddr)
    && s.scbs[i].inUse && s.scbs[i].svcConn && s.scbs[i].peerNegotiates && s.scbs[i].scoCodec == MSBC
  }

  /** Nothing pending from earlier: the next attempt starts from T2. */
  predicate Fresh(b: Scb) { !b.codecFallback && b.settings == T2 }

  // ----- the stages of the chain

  /** Listening, with nobody else holding the link. */
  ghost predicate Idle(s: Sco, i: Index) {
    Eligible(s, i) && s.state == ListenSt && Fresh(s.scbs[i]) && (s.curr == None || s.curr == Some(i))
  }

  /** Waiting for the headset to confirm mSBC. */
  ghost predicate Proposing(s: Sco, i: Index) {
    Eligible(s, i) && s.state == CodecSt && s.curr == Some(i) && Fresh(s.scbs[i]) && s.scbs[i].scoIdx == INVALID_INDEX
  }

  /** A link with the given parameters is being set up. */
  ghost predicate Trying(s: Sco, i: Index, p: EscoParams) {
    && Eligible(s, i) && s.state == OpeningSt && s.curr == Some(i)
    && s.scbs[i].scoIdx != INVALID_INDEX && !s.scbs[i].codecFallback
    && match p
       case ParamsMsbcT2 => s.scbs[i].inuseCodec == MSBC && s.scbs[i].settings == T2 && !s.scbs[i].codecUpdated
       case ParamsMsbcT1 => s.scbs[i].inuseCodec == MSBC && s.scbs[i].settings == T1 && !s.scbs[i].codecUpdated
       case ParamsCvsd => s.scbs[i].inuseCodec == CVSD && s.scbs[i].settings == T2 && s.scbs[i].codecUpdated
  }

  /** Waiting for the headset to confirm CVSD. */
  ghost predicate FallingBack(s: Sco, i: Index) {
    Eligible(s, i) && s.state == CodecSt && s.curr == Some(i) && s.scbs[i].codecFallback && s.scbs[i].scoIdx == INVALID_INDEX
  }

  /** Back to listening; the next connection negotiates again and starts from T2. */
  ghost predicate Exhausted(s: Sco, i: Index) {
    && Eligible(s, i) && s.state == ListenSt && s.curr == None
    && Fresh(s.scbs[i]) && s.scbs[i].codecUpdated
  }

  // ----- one move of each kind

  lemma AttemptsSnoc(calls: seq<Call>, c: Call)
    ensures Attempts(calls + [c]) == if IsOriginated(c) then Attempts(calls) + [c] else Attempts(calls)
  {
  }

  /** The headset confirms what was announced. */
  function Confirmed(s: Sco, i: Index, btm: Btm): Sco
    requires Valid(s)
  {
    AtBcs(s, i, Announced(s.scbs[i]), btm)
  }

  lemma ProposalConfirmed(s: Sco, i: Index, btm: Btm)
    requires Proposing(s, i) && Willing(btm)
    ensures Trying(Confirmed(s, i, btm), i, ParamsMsbcT2)
    ensures Attempts(Confirmed(s, i, btm).calls) == Attempts(s.calls) + [Originated(i, ParamsMsbcT2)]
  {
  }

  lemma FallbackConfirmed(s: Sco, i: Index, btm: Btm)
    requires FallingBack(s, i) && Willing(btm)
    ensures Trying(Confirmed(s, i, btm), i, ParamsCvsd)
    ensures Attempts(Confirmed(s, i, btm).calls) == Attempts(s.calls) + [Originated(i, ParamsCvsd)]
  {
  }

  lemma ListeningLinkDropped(s: Sco, i: Index, btm: Btm)
    requires Idle(s, i) && Willing(btm)
    ensures
      var r := RemoveSco(s, i, false, btm).0;
      && r.scbs[i] == s.scbs[i].(scoIdx := INVALID_INDEX) && r.curr == s.curr
      && Attempts(r.calls) == Attempts(s.calls)
  {
  }

  lemma NegotiationStarts(s: Sco, i: Index, btm: Btm)
    requires Eligible(s, i) && s.state == CodecSt && Fresh(s.scbs[i]) && s.scbs[i].scoIdx == INVALID_INDEX && Willing(btm)
    ensures
      var r := Negotiate(s, i, btm);
      if s.scbs[i].codecUpdated
      then Proposing(r, i) && r.calls == s.calls + [SentBcs(i, MSBC)]
      else Trying(r, i, ParamsMsbcT2) && r.calls == s.calls + [Originated(i, ParamsMsbcT2)]
  {
  }

  /** The application opens audio. */
  lemma OpenStarts(s: Sco, i: Index, btm: Btm)
    requires Idle(s, i) && Willing(btm)
    ensures
      var r := Open(s, i, btm);
      if s.scbs[i].codecUpdated
      then Proposing(r, i) && Attempts(r.calls) == Attempts(s.calls)
      else Trying(r, i, ParamsMsbcT2) && Attempts(r.calls) == Attempts(s.calls) + [Originated(i, ParamsMsbcT2)]
  {
    var s1 := RemoveSco(s, i, false, btm).0.(state := CodecSt);
    ListeningLinkDropped(s, i, btm);
    assert Open(s, i, btm) == Negotiate(s1, i, btm);
    NegotiationStarts(s1, i, btm);
    AttemptsSnoc(s1.calls, SentBcs(i, MSBC));
    AttemptsSnoc(s1.calls, Originated(i, ParamsMsbcT2));
  }

  /** The attempt in progress fails: the lower stack reports its link down, and the close event that
      callback posts is delivered. */
  function Fails(s: Sco, i: Index, btm: Btm): Sco
    requires Safe(s) && TargetKnown(LinkDown(s, s.scbs[i].scoIdx))
  {
    ConnClosed(LinkDown(s, s.scbs[i].scoIdx), i, btm)
  }

  lemma T2Fails(s: Sco, i: Index, btm: Btm)
    requires Trying(s, i, ParamsMsbcT2) && Willing(btm)
    ensures Trying(Fails(s, i, btm), i, ParamsMsbcT1)
    ensures Attempts(Fails(s, i, btm).calls) == Attempts(s.calls) + [Originated(i, ParamsMsbcT1)]
  {
  }

  lemma T2FailureCalls(s: Sco, i: Index, btm: Btm)
    requires Trying(s, i, ParamsMsbcT2) && Willing(btm)
    ensures Fails(s, i, btm).calls == s.calls + [PostedClose(i)] + [Originated(i, ParamsMsbcT1)]
  {
  }

  lemma T1Fails(s: Sco, i: Index, btm: Btm)
    requires Trying(s, i, ParamsMsbcT1) && Willing(btm)
    ensures FallingBack(Fails(s, i, btm), i)
    ensures Attempts(Fails(s, i, btm).calls) == Attempts(s.calls)
    ensures Fails(s, i, btm).calls == s.calls + [PostedClose(i)] + [SentBcs(i, CVSD)]
  {
  }

  lemma CvsdFails(s: Sco, i: Index, btm: Btm)
    requires Trying(s, i, ParamsCvsd)
    ensures Exhausted(Fails(s, i, btm), i)
    ensures Attempts(Fails(s, i, btm).calls) == Attempts(s.calls)
  {
  }

  // ----- the whole chain, as a run of the machine

  /** One round of an environment in which every attempt fails and every proposal is confirmed. */
  function Round(s: SafeSco, i: Index, btm: Btm): SafeSco {
    if s.state == OpeningSt then
      var down := Step(s, Stimulus(BtmDown(s.scbs[i].scoIdx), btm));
      Step(down, Stimulus(EvClosed(i), btm))
    else if s.state == CodecSt then Step(s, Stimulus(HeadsetBcs(i, Announced(s.scbs[i])), btm))
    else s
  }

  function Rounds(s: SafeSco, i: Index, btms: seq<Btm>): SafeSco {
    if btms == [] then s else Round(Rounds(s, i, btms[..|btms| - 1]), i, btms[|btms| - 1])
  }

  function Chain(i: Index): seq<Call> {
    [Originated(i, ParamsMsbcT2), Originated(i, ParamsMsbcT1), Originated(i, ParamsCvsd)]
  }

  ghost predicate AtStage(s: Sco, i: Index, n: nat) {
    match n
    case 0 => Proposing(s, i)
    case 1 => Trying(s, i, ParamsMsbcT2)
    case 2 => Trying(s, i, ParamsMsbcT1)
    case 3 => FallingBack(s, i)
    case 4 => Trying(s, i, ParamsCvsd)
    case 5 => Exhausted(s, i)
    case _ => false
  }

  /** How many links have been attempted when stage `n` is reached. */
  function Made(n: nat): nat {
    if n == 0 then 0 else if n == 1 then 1 else if n <= 3 then 2 else 3
  }

  lemma DownIsLinkDown(s: SafeSco, idx: nat, btm: Btm)
    ensures Step(s, Stimulus(BtmDown(idx), btm)) == LinkDown(s, idx)
  {
  }

  lemma ClosedIsConnClosed(s: SafeSco, i: Index, btm: Btm)
    requires s.scbs[i].inUse
    ensures Step(s, Stimulus(EvClosed(i), btm)) == ConnClosed(s, i, btm)
  {
  }

  lemma RoundWhileTrying(s: SafeSco, i: Index, p: EscoParams, btm: Btm)
    requires Trying(s, i, p)
    ensures Round(s, i, btm) == Fails(s, i, btm)
  {
  }

  lemma RoundWhileNegotiating(s: SafeSco, i: Index, btm: Btm)
    requires s.state == CodecSt && s.scbs[i].inUse
    ensures Round(s, i, btm) == Confirmed(s, i, btm)
  {
  }

  lemma ChainSteps(i: Index)
    ensures Chain(i)[0..1] == [Originated(i, ParamsMsbcT2)] && Chain(i)[1..2] == [Originated(i, ParamsMsbcT1)]
    ensures Chain(i)[2..3] == [Originated(i, ParamsCvsd)] && Chain(i)[2..2] == Chain(i)[3..3] == []
  {
  }

  lemma RoundAdvances(s: SafeSco, i: Index, n: nat, btm: Btm)
    requires AtStage(s, i, n) && Willing(btm)
    ensures AtStage(Round(s, i, btm), i, if n < 5 then n + 1 else 5)
    ensures Attempts(Round(s, i, btm).calls) == Attempts(s.calls) + Chain(i)[Made(n)..Made(n + 1)]
  {
    ChainSteps(i);
    match n
    case 0 => RoundWhileNegotiating(s, i, btm); ProposalConfirmed(s, i, btm);
    case 1 => RoundWhileTrying(s, i, ParamsMsbcT2, btm); T2Fails(s, i, btm);
    case 2 => RoundWhileTrying(s, i, ParamsMsbcT1, btm); T1Fails(s, i, btm);
    case 3 => RoundWhileNegotiating(s, i, btm); FallbackConfirmed(s, i, btm);
    case 4 => RoundWhileTrying(s, i, ParamsCvsd, btm); CvsdFails(s, i, btm);
    case 5 =>
  }

  lemma {:induction false} RoundsAdvance(s: SafeSco, i: Index, n: nat, btms: seq<Btm>)
    requires AtStage(s, i, n) && forall b :: b in btms ==> Willing(b)
    ensures
      var m := if n + |btms| < 5 then n + |btms| else 5;
      && AtStage(Rounds(s, i, btms), i, m)
      && Attempts(Rounds(s, i, btms).calls) == Attempts(s.calls) + Chain(i)[Made(n)..Made(m)]
    decreases |btms|
  {
    if btms != [] {
      var init := btms[..|btms| - 1];
      RoundsAdvance(s, i, n, init);
      assert btms[|btms| - 1] in btms;
      var k := if n + |init| < 5 then n + |init| else 5;
      RoundAdvances(Rounds(s, i, init), i, k, btms[|btms| - 1]);
    }
  }

  /** The stage reached `rounds` rounds after an open request. */
  function StageAfter(b: Scb, rounds: nat): (n: nat)
    ensures n <= 5 && (rounds >= 5 ==> n == 5)
  {
    var start := if b.codecUpdated then 0 else 1;
    if start + rounds < 5 then start + rounds else 5
  }

  lemma OpenEntersChain(s: SafeSco, i: Index, btm: Btm)
    requires Idle(s, i) && Willing(btm)
    ensures
      var r := Step(s, Stimulus(ReqOpen(i), btm));
      var n := StageAfter(s.scbs[i], 0);
      AtStage(r, i, n) && Attempts(r.calls) == Attempts(s.calls) + Chain(i)[..Made(n)]
  {
    OpenStarts(s, i, btm);
    assert Chain(i)[..1] == [Originated(i, ParamsMsbcT2)];
  }

  lemma ChainPieces(i: Index, base: seq<Call>, n: nat, m: nat)
    requires n <= m <= 5
    ensures base + Chain(i)[..Made(n)] + Chain(i)[Made(n)..Made(m)] == base + Chain(i)[..Made(m)]
  {
  }

  /** If every attempt fails and every proposal is confirmed, the links attempted after an open
      request are a prefix of mSBC T2, mSBC T1, CVSD however long it goes on. After five rounds
      (Made(5) is 3) all three have been tried and the machine listens again. */
  lemma FallbackIsOrderedAndBounded(s: SafeSco, i: Index, btm: Btm, btms: seq<Btm>)
    requires Idle(s, i) && Willing(btm) && forall b :: b in btms ==> Willing(b)
    ensures
      var r := Rounds(Step(s, Stimulus(ReqOpen(i), btm)), i, btms);
      var n := StageAfter(s.scbs[i], |btms|);
      AtStage(r, i, n) && Attempts(r.calls) == Attempts(s.calls) + Chain(i)[..Made(n)]
  {
    OpenEntersChain(s, i, btm);
    RoundsAdvance(Step(s, Stimulus(ReqOpen(i), btm)), i, StageAfter(s.scbs[i], 0), btms);
    ChainPieces(i, Attempts(s.calls), StageAfter(s.scbs[i], 0), StageAfter(s.scbs[i], |btms|));
  }

  /** The connection after an exhausted chain negotiates mSBC again and starts from T2. */
  lemma NextConnectionRenegotiates(s: SafeSco, i: Index, btm: Btm, btm': Btm)
    requires Exhausted(s, i) && Willing(btm) && Willing(btm')
    ensures
      var r := Step(s, Stimulus(ReqOpen(i), btm));
      Proposing(r, i) && Trying(Round(r, i, btm'), i, ParamsMsbcT2)
  {
    OpenEntersChain(s, i, btm);
    RoundAdvances(Step(s, Stimulus(ReqOpen(i), btm)), i, 0, btm');
  }
}
