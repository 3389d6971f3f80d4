/** What every request and report does in every state of the audio-link machine: where it goes, who is the
    current block and the target of a transfer, and who is called. */
module ScoCells {
  import opened Collections
  import opened ScoModel
  import opened ScoRuns

  // ----- calls

  /** The removal asked of the lower stack: of a link that is there, and if so limited of the current one. */
  function Removal(s: Sco, i: Index, onlyActive: bool): seq<Call>
    requires Valid(s)
  {
    var idx := s.scbs[i].scoIdx;
    if idx == INVALID_INDEX || (onlyActive && idx != s.curIdx) then [] else [Removed(idx)]
  }

  /** The call made when a block is to listen: an active headset without a link listens, and a current one
      that is not active is reported lost. */
  function ListenCall(s: Sco, i: Index): seq<Call>
    requires Valid(s)
  {
    var b := s.scbs[i];
    if IsActive(s, b.peerAddr) then if b.scoIdx == INVALID_INDEX then [Listening(i)] else []
    else if s.curr == Some(i) && b.inUse then [PostedClose(i)] else []
  }

  /** Every proposal, attempt and answer that was added to the record is to `x`. */
  ghost predicate OnlyTo(before: seq<Call>, calls: seq<Call>, x: nat) {
    && before <= calls
    && forall k :: |before| <= k < |calls| && (calls[k].SentBcs? || calls[k].Originated? || calls[k].Accepted?) ==>
         calls[k].to == x
  }

  /** The machine has turned to block `x`: it is current, and is proposed a codec or given a link, and
      nobody else is. */
  ghost predicate TurnsTo(before: seq<Call>, r: Sco, x: nat) {
    r.curr == Some(x) && (r.state == CodecSt || r.state == OpeningSt) && OnlyTo(before, r.calls, x)
  }

  lemma TurnsAfter(a: seq<Call>, b: seq<Call>, r: Sco, x: nat)
    requires OnlyTo(a, b, x) && TurnsTo(b, r, x)
    ensures TurnsTo(a, r, x)
  {
  }

  lemma RemovalCalls(s: SafeSco, i: Index, onlyActive: bool, btm: Btm)
    ensures
      var (r, started) := RemoveSco(s, i, onlyActive, btm);
      && r.calls == s.calls + Removal(s, i, onlyActive) && r.curIdx == s.curIdx
      && (started <==> Removal(s, i, onlyActive) != [] && btm.remove == RemoveStarted)
      && r.curr == (if started then Some(i) else s.curr)
      && (forall j :: 0 <= j < NUM_CLIENTS && j != i ==> r.scbs[j] == s.scbs[j])
      && r.scbs[i] == s.scbs[i].(scoIdx := r.scbs[i].scoIdx)
      && r.scbs[i].scoIdx ==
           if Removal(s, i, onlyActive) != [] && (btm.remove == RemoveDone || btm.remove == RemoveUnknown) then INVALID_INDEX
           else s.scbs[i].scoIdx
  {
  }

  lemma ListenCalls(s: SafeSco, i: Index, btm: Btm)
    ensures
      var r := CreateSco(s, i, false, btm);
      && r.calls == s.calls + ListenCall(s, i) && r.curr == s.curr
      && (forall j :: 0 <= j < NUM_CLIENTS && j != i ==> r.scbs[j] == s.scbs[j])
  {
  }

  /** What creating a link of the gateway's own calls. */
  function Attempt(s: Sco, i: Index, codec: Codec): seq<Call>
    requires Valid(s)
  {
    var b := s.scbs[i];
    if !IsActive(s, b.peerAddr) then if b.inUse then [PostedClose(i)] else []
    else if b.scoIdx != INVALID_INDEX then []
    else [Originated(i, ParamsFor(codec, if b.codecFallback then T2 else b.settings))]
  }

  /** The codec a block is to be given. */
  function CodecFor(b: Scb): Codec {
    if b.peerNegotiates && !b.codecFallback && b.scoCodec == MSBC then MSBC else CVSD
  }

  lemma AttemptCalls(s: SafeSco, i: Index, btm: Btm)
    requires s.curr == Some(i)
    ensures
      var r := CreateSco(s, i, true, btm);
      && r.calls == s.calls + Attempt(s, i, if s.scbs[i].scoCodec == MSBC && !s.scbs[i].codecFallback then MSBC else CVSD)
      && r.curr == Some(i)
  {
  }

  /** A link that the lower stack creates, to listen or to connect, is known by its index, and one to connect is
      the current one; if the stack refuses there is none. */
  lemma CreatedIndex(s: SafeSco, i: Index, originate: bool, btm: Btm)
    requires IsActive(s, s.scbs[i].peerAddr) && s.scbs[i].scoIdx == INVALID_INDEX
    ensures
      var r, created := CreateSco(s, i, originate, btm), if originate then btm.connect else btm.listen;
      && r.scbs[i].scoIdx == (if created.Some? then created.value else INVALID_INDEX)
      && (originate ==> r.isLocal && (created.Some? ==> r.curIdx == created.value))
      && (!originate ==> r.curIdx == s.curIdx)
  {
  }

  predicate Proposes(b: Scb) { b.peerNegotiates && (b.codecUpdated || b.codecFallback) }

  lemma ProposalCell(s: SafeSco, i: Index, btm: Btm)
    requires s.state == CodecSt && Proposes(s.scbs[i])
    ensures
      var r := Negotiate(s, i, btm);
      r.state == CodecSt && r.curr == Some(i) && r.xfer == s.xfer && r.calls == s.calls + [SentBcs(i, CodecFor(s.scbs[i]))]
  {
  }

  /** The block on the way from its negotiation to its link. */
  function Agreed(s: SafeSco, i: Index): SafeSco {
    var b := s.scbs[i];
    Put(s, i, b.(scoCodec := if b.peerNegotiates then b.scoCodec else CVSD, codecUpdated := false)).(curr := Some(i))
  }

  lemma NothingToPropose(s: SafeSco, i: Index, btm: Btm)
    requires s.state == CodecSt && !Proposes(s.scbs[i])
    ensures Negotiate(s, i, btm) == CreateSco(Agreed(s, i), i, true, btm).(state := OpeningSt)
  {
    var b := if s.scbs[i].peerNegotiates then s.scbs[i] else s.scbs[i].(scoCodec := CVSD);
    assert Put(Put(s, i, b).(curr := Some(i)), i, b.(codecUpdated := false)) == Agreed(s, i);
  }

  lemma CreationCell(s: SafeSco, i: Index, btm: Btm)
    requires s.state == CodecSt && !Proposes(s.scbs[i])
    ensures
      var r := Negotiate(s, i, btm);
      r.state == OpeningSt && r.curr == Some(i) && r.xfer == s.xfer && r.calls == s.calls + Attempt(s, i, CodecFor(s.scbs[i]))
  {
    NothingToPropose(s, i, btm);
    AttemptCalls(Agreed(s, i), i, btm);
  }

  /** A negotiation proposes the codec of the block if it is new or the fallback, and creates the link
      otherwise; either way with this block alone. */
  lemma NegotiationCell(s: SafeSco, i: Index, btm: Btm)
    requires s.state == CodecSt
    ensures
      var b, r := s.scbs[i], Negotiate(s, i, btm);
      && TurnsTo(s.calls, r, i) && r.xfer == s.xfer && (r.state == CodecSt <==> Proposes(b))
      && r.calls == s.calls + if Proposes(b) then [SentBcs(i, CodecFor(b))] else Attempt(s, i, CodecFor(b))
  {
    if Proposes(s.scbs[i]) { ProposalCell(s, i, btm); } else { CreationCell(s, i, btm); }
  }

  // ----- requests

  predicate IgnoresListen(s: Sco, i: Index) {
    match s.state
    case ShutdownSt | ListenSt | CodecSt => false
    case OpeningSt | OpenSt | ClosingSt | CloseOpSt | ShuttingSt => s.curr == Some(i)
    case OpenClSt | OpenXferSt | CloseXferSt => true
  }

  /** A headset that joins listens, except the current one and while a link is handed over; only a machine
      that was shut down changes its state. */
  lemma ListenCell(s: SafeSco, i: Index, btm: Btm)
    ensures
      var r := Event(s, i, ListenE, btm);
      && r.state == (if s.state == ShutdownSt then ListenSt else s.state) && r.curr == s.curr && r.xfer == s.xfer
      && r.calls == s.calls + if IgnoresListen(s, i) then [] else ListenCall(s, i)
  {
    ListenCalls(s, i, btm);
  }

  /** An open request negotiates with its own block if the machine listens, takes a close back or is kept
      for after the close, and is lost in every other state. */
  lemma OpenCell(s: SafeSco, i: Index, btm: Btm)
    ensures
      var r := Event(s, i, OpenE, btm);
      match s.state
      case ListenSt => TurnsTo(s.calls, r, i) && r.xfer == s.xfer
      case OpenClSt => r == s.(state := OpeningSt)
      case ClosingSt => r == s.(state := CloseOpSt)
      case _ => r == s
  {
    if s.state == ListenSt {
      RemovalCalls(s, i, false, btm);
      var t: SafeSco := RemoveSco(s, i, false, btm).0.(state := CodecSt);
      NegotiationCell(t, i, btm);
      TurnsAfter(s.calls, t.calls, Negotiate(t, i, btm), i);
    }
  }

  /** A request for a link that another block has makes its own block the target of a transfer, and an open
      link of the current block is removed for it; while a transfer or a shutdown is on it is lost. */
  lemma TransferCell(s: SafeSco, i: Index, btm: Btm)
    requires s.curr.Some?
    ensures
      var r := Event(s, i, XferE, btm);
      match s.state
      case CodecSt | OpeningSt | OpenClSt | ClosingSt => r == s.(xfer := Some(i), state := CloseXferSt)
      case OpenSt =>
        && r.state == CloseXferSt && r.xfer == Some(i) && r.curr == s.curr
        && r.calls == s.calls + Removal(s, s.curr.value, true)
      case _ => r == s
  {
    if s.state == OpenSt { RemovalCalls(s, s.curr.value, true, btm); }
  }

  /** A close request ends a negotiation, a link set up is closed as soon as it is there, an open link is
      removed, and whatever was to come after a close is forgotten. */
  lemma CloseCell(s: SafeSco, i: Index, btm: Btm)
    ensures
      var r := Event(s, i, CloseE, btm);
      match s.state
      case CodecSt => r == s.(state := ListenSt)
      case OpeningSt => r == s.(state := OpenClSt)
      case OpenXferSt => r.state == ClosingSt && r.calls == s.calls + Removal(s, i, true)
      case OpenSt =>
        && r.calls == s.calls + Removal(s, i, true) && r.xfer == s.xfer
        && r.state == if Removal(s, i, true) != [] && btm.remove == RemoveStarted then ClosingSt else OpenSt
      case CloseOpSt => r == s.(state := ClosingSt)
      case CloseXferSt => r == s.(xfer := None, state := ClosingSt)
      case _ => r == s
  {
    RemovalCalls(s, i, true, btm);
  }

  /** The block gives its link up and is not the current one any more; the machine stops with the last. */
  ghost predicate GivesUp(s: SafeSco, r: Sco, i: Index, btm: Btm) {
    var started := Removal(s, i, false) != [] && btm.remove == RemoveStarted;
    && r.calls == s.calls + Removal(s, i, false) && r.xfer == s.xfer
    && r.state == (if OtherScbOpen(s, i) then s.state else ShutdownSt)
    && r.curr == if started || s.curr == Some(i) then None else s.curr
  }

  /** A shutdown of the current block waits for its link to close; of another one it removes the link. While
      nobody has the link it is done at once, and a transfer is forgotten. */
  lemma ShutdownCell(s: SafeSco, i: Index, btm: Btm)
    ensures
      var r := Event(s, i, ShutdownE, btm);
      match s.state
      case ShutdownSt => r == s
      case ListenSt | CodecSt => GivesUp(s, r, i, btm)
      case OpeningSt | OpenClSt | ClosingSt =>
        if s.curr == Some(i) then r == s.(state := ShuttingSt)
        else r.state == s.state && r.xfer == s.xfer && r.calls == s.calls + Removal(s, i, false)
      case OpenXferSt => r.state == ShuttingSt && r.xfer == s.xfer && r.calls == s.calls + Removal(s, i, false)
      case OpenSt =>
        && r.calls == s.calls + Removal(s, i, false) && r.xfer == s.xfer
        && r.state == if r.curr == Some(i) then ShuttingSt else OpenSt
      case CloseOpSt => r == s.(state := ShuttingSt)
      case CloseXferSt => r == s.(xfer := None, state := ShuttingSt)
      case ShuttingSt =>
        && r.calls == s.calls && r.xfer == s.xfer && r.curr == (if s.curr == Some(i) then None else s.curr)
        && r.state == if OtherScbOpen(s, i) then ListenSt else ShutdownSt
  {
    RemovalCalls(s, i, false, btm);
    if s.state == ListenSt || s.state == CodecSt { SameOthers(s, RemoveSco(s, i, false, btm).0, i); }
  }

  lemma SameOthers(s: Sco, r: Sco, i: Index)
    requires Valid(s) && Valid(r) && forall j :: 0 <= j < NUM_CLIENTS && j != i ==> r.scbs[j] == s.scbs[j]
    ensures OtherScbOpen(r, i) == OtherScbOpen(s, i)
  {
  }

  // ----- reports

  /** A reported link opens the machine only while that is what it waits for; where the link is not wanted
      any more it is removed. T2 is preferred again. */
  lemma UpCell(s: SafeSco, i: Index, btm: Btm)
    ensures
      var r := ConnOpened(s, i, btm);
      && r.xfer == s.xfer && r.scbs[i].settings == T2
      && match s.state
         case OpeningSt => r.state == OpenSt && r.curr == s.curr && r.calls == s.calls
         case OpenClSt => r.state == ClosingSt && r.calls == s.calls + Removal(s, i, true)
         case CloseXferSt | ShuttingSt => r.state == s.state && r.calls == s.calls + Removal(s, i, true)
         case _ => r.state == s.state && r.curr == s.curr && r.calls == s.calls
  {
    RemovalCalls(s, i, true, btm);
  }

  /** The machine after a reported loss, before anything is done about it. */
  function Lost(s: SafeSco, i: Index): SafeSco {
    Put(s, i, s.scbs[i].(scoIdx := INVALID_INDEX)).(curr := None)
  }

  /** A loss that is not retried: the block listens again; a request kept for after the
      close is served, with the same block or with the target of the transfer; and a shutdown ends. */
  lemma LossCell(s: SafeSco, i: Index, btm: Btm)
    requires !WantsRetry(s.scbs[i])
    ensures
      var t, r := Lost(s, i), ConnClosed(s, i, btm);
      match s.state
      case ShutdownSt => r.state == ShutdownSt && r.curr == None && r.xfer == s.xfer && r.calls == s.calls
      case ListenSt | CodecSt | OpeningSt | OpenSt | ClosingSt =>
        r.state == ListenSt && r.curr == None && r.xfer == s.xfer && r.calls == s.calls + ListenCall(t, i)
      case OpenClSt => r.state == ListenSt && r.curr == None && r.xfer == s.xfer && r.calls == s.calls
      case OpenXferSt => AnswersTarget(s, r, i)
      case CloseOpSt => TurnsTo(s.calls, r, i) && r.xfer == s.xfer
      case CloseXferSt => r.xfer == None && TurnsTo(s.calls, r, s.xfer.value)
      case ShuttingSt =>
        && r.curr == None && r.xfer == s.xfer
        && r.state == (if OtherScbOpen(s, i) || ScbOpen(s.scbs[i]) then ListenSt else ShutdownSt)
        && r.calls == s.calls + if ScbOpen(s.scbs[i]) then ListenCall(t, i) else []
  {
    match s.state
    case OpenXferSt => LossAnswers(s, i, btm);
    case CloseOpSt => LossReopens(s, i, btm);
    case CloseXferSt => LossHandsOver(s, i, btm);
    case ShuttingSt => StopCell(s, i, btm);
    case _ => LossEnds(s, i, btm);
  }

  lemma LossReopens(s: SafeSco, i: Index, btm: Btm)
    requires s.state == CloseOpSt && !WantsRetry(s.scbs[i])
    ensures
      var r := ConnClosed(s, i, btm);
      TurnsTo(s.calls, r, i) && r.xfer == s.xfer
  {
    NegotiationCell(Lost(s, i).(state := CodecSt), i, btm);
  }

  /** A link that is lost while it is being set up is tried again exactly if its headset is connected and either
      the fallback codec or the safe mSBC settings are next; otherwise the machine listens. */
  lemma RetriedIff(s: SafeSco, i: Index, btm: Btm)
    requires s.state == OpeningSt
    ensures
      var b, r := s.scbs[i], ConnClosed(s, i, btm);
      if b.svcConn && (b.codecFallback || (b.scoCodec == MSBC && b.settings == T1)) then TurnsTo(s.calls, r, i)
      else r.state == ListenSt && r.curr == None
  {
    if WantsRetry(s.scbs[i]) { NegotiationCell(Lost(s, i).(state := CodecSt), i, btm); } else { LossEnds(s, i, btm); }
  }

  /** After a loss that is not retried the block starts again from T2. */
  lemma LossPrefersT2(s: SafeSco, i: Index, btm: Btm)
    requires !WantsRetry(s.scbs[i])
    ensures ConnClosed(s, i, btm).scbs[i].settings == T2
  {
  }

  lemma LossEnds(s: SafeSco, i: Index, btm: Btm)
    requires !WantsRetry(s.scbs[i])
    ensures
      var t, r := Lost(s, i), ConnClosed(s, i, btm);
      match s.state
      case OpenXferSt | CloseOpSt | CloseXferSt | ShuttingSt => true
      case _ =>
        && r.state == (if s.state == ShutdownSt then ShutdownSt else ListenSt) && r.curr == None && r.xfer == s.xfer
        && r.calls == s.calls + if s.state == ShutdownSt || s.state == OpenClSt then [] else ListenCall(t, i)
  {
    ListenCalls(Lost(s, i), i, btm);
  }

  /** The old link of a transfer asked for by a headset is gone: the headset that asked is answered and no
      other, its link is the current one, and the transfer is over. */
  ghost predicate AnswersTarget(s: SafeSco, r: Sco, i: Index)
    requires s.xfer.Some? && Valid(r)
  {
    var x := s.xfer.value;
    && r.state == OpeningSt && r.curr == Some(x) && r.xfer == None && r.curIdx == r.scbs[x].scoIdx
    && r.calls == s.calls + ListenCall(Lost(s, i), i) + [Accepted(x)]
  }

  lemma LossAnswers(s: SafeSco, i: Index, btm: Btm)
    requires s.state == OpenXferSt && !WantsRetry(s.scbs[i])
    ensures AnswersTarget(s, ConnClosed(s, i, btm), i)
  {
    AcceptCell(Lost(s, i), i, btm);
  }

  lemma LossHandsOver(s: SafeSco, i: Index, btm: Btm)
    requires s.state == CloseXferSt && !WantsRetry(s.scbs[i])
    ensures
      var x, t, r := s.xfer.value, Lost(s, i), ConnClosed(s, i, btm);
      && r.xfer == None && TurnsTo(s.calls, r, x)
      && (i != x ==> Served(s.calls + ListenCall(t, i), t, r, x, btm))
  {
    HandOverCell(Lost(s, i), i, btm);
  }

  lemma AcceptCell(t: SafeSco, i: Index, btm: Btm)
    requires t.state == OpenXferSt
    ensures
      var x, r := t.xfer.value, Event(t, i, ConnCloseE, btm);
      && r.state == OpeningSt && r.curr == Some(x) && r.xfer == None && r.curIdx == r.scbs[x].scoIdx
      && r.calls == t.calls + ListenCall(t, i) + [Accepted(x)] && r.scbs[x].inuseCodec == CODEC_NONE && !r.isLocal
  {
    ListenCalls(t, i, btm);
  }

  /** The link that block `x` listens on is removed, and then it is proposed its codec, or given a link if there
      is nothing to propose, it is the active device and the removal is done with. */
  ghost predicate Served(before: seq<Call>, t: Sco, r: Sco, x: Index, btm: Btm)
    requires Valid(t)
  {
    var b, asked := t.scbs[x], before + Removal(t, x, false);
    if Proposes(b) then r.calls == asked + [SentBcs(x, CodecFor(b))]
    else
      && asked <= r.calls
      && (IsActive(t, b.peerAddr) &&
          (Removal(t, x, false) == [] || btm.remove == RemoveDone || btm.remove == RemoveUnknown) ==>
            r.calls == asked + [Originated(x, ParamsFor(CodecFor(b), if b.codecFallback then T2 else b.settings))])
  }

  lemma TakeOver(before: seq<Call>, t: SafeSco, x: Index, btm: Btm)
    requires OnlyTo(before, t.calls, x)
    ensures
      var r := Negotiate(RemoveSco(t, x, false, btm).0.(state := CodecSt, xfer := None), x, btm);
      r.xfer == None && TurnsTo(before, r, x)
  {
    RemovalCalls(t, x, false, btm);
    var u: SafeSco := RemoveSco(t, x, false, btm).0.(state := CodecSt, xfer := None);
    NegotiationCell(u, x, btm);
    TurnsAfter(before, u.calls, Negotiate(u, x, btm), x);
  }

  lemma TakeOverServes(t: SafeSco, x: Index, btm: Btm)
    ensures
      var r := Negotiate(RemoveSco(t, x, false, btm).0.(state := CodecSt, xfer := None), x, btm);
      Served(t.calls, t, r, x, btm)
  {
    RemovalCalls(t, x, false, btm);
    var u: SafeSco := RemoveSco(t, x, false, btm).0.(state := CodecSt, xfer := None);
    if Proposes(u.scbs[x]) { ProposalCell(u, x, btm); } else { CreationCell(u, x, btm); }
  }

  /** The old link of a transfer is gone: the target is negotiated with or given the link, and nobody else. */
  lemma HandOverCell(t: SafeSco, i: Index, btm: Btm)
    requires t.state == CloseXferSt
    ensures
      var x, r := t.xfer.value, Event(t, i, ConnCloseE, btm);
      && r.xfer == None && TurnsTo(t.calls, r, x)
      && (i != x ==> Served(t.calls + ListenCall(t, i), t, r, x, btm))
  {
    var x, listening := t.xfer.value, CreateSco(t, i, false, btm);
    ListenCalls(t, i, btm);
    TakeOver(t.calls, listening, x, btm);
    TakeOverServes(listening, x, btm);
  }

  lemma StopCell(s: SafeSco, i: Index, btm: Btm)
    requires s.state == ShuttingSt
    ensures
      var t := Lost(s, i);
      var r := Event(t, i, ConnCloseE, btm);
      && r.curr == None && r.xfer == s.xfer
      && r.state == (if OtherScbOpen(s, i) || ScbOpen(s.scbs[i]) then ListenSt else ShutdownSt)
      && r.calls == s.calls + if ScbOpen(s.scbs[i]) then ListenCall(t, i) else []
  {
    var t := Lost(s, i);
    SameOthers(s, t, i);
    ListenCalls(LastGoesDown(t, i), i, btm);
  }

  // ----- callbacks of the lower stack

  /** A link that comes up is reported to the current block, and if there is none to the connected headset
      it leads to; a link to nobody is removed and the machine stops. */
  lemma UpCallback(s: SafeSco, idx: nat, addr: Option<nat>)
    ensures
      var r := LinkUp(s, idx, addr);
      var peer := if addr.Some? then FindByAddr(s.scbs, addr.value) else None;
      && r.scbs == s.scbs && r.xfer == s.xfer
      && if s.curr.Some? && s.scbs[s.curr.value].inUse
         then r.calls == s.calls + [PostedOpen(s.curr.value)] && r.state == s.state && r.curr == s.curr
         else if peer.Some? && s.scbs[peer.value].svcConn
         then r.calls == s.calls + [PostedOpen(peer.value)] && r.state == s.state && r.curr == s.curr
         else r.calls == s.calls + [Removed(idx)] && r.state == ShutdownSt && r.curr == None
  {
  }

  /** A link that goes down is reported if it may be that of the current block: its index is that one's, or
      that one has none. Without a current block it is nobody's. */
  lemma DownCallback(s: SafeSco, idx: nat)
    ensures
      var r := LinkDown(s, idx);
      match s.curr
      case None => r == s
      case Some(c) =>
        var b := s.scbs[c];
        if !b.inUse then r.state == ShutdownSt && r.curr == None && r.calls == s.calls && r.scbs[c].scoIdx == INVALID_INDEX
        else if b.scoIdx == idx || b.scoIdx == INVALID_INDEX
        then
          && r.state == s.state && r.curr == s.curr && r.xfer == s.xfer && r.calls == s.calls + [PostedClose(c)]
          && (b.inuseCodec != MSBC || s.state != OpeningSt ==> r.scbs == s.scbs[c := b.(inuseCodec := CODEC_NONE)])
        else r == s
  {
  }

  /** A headset may ask for a link if it is the active device and connected. */
  predicate MayAsk(s: Sco, addr: Option<nat>) {
    && addr.Some? && IsActive(s, addr.value)
    && var peer := FindByAddr(s.scbs, addr.value); peer.Some? && s.scbs[peer.value].svcConn
  }

  /** A headset that asks for a link is answered if nobody holds one. */
  lemma AnswerCell(s: SafeSco, idx: nat, addr: Option<nat>, btm: Btm)
    requires MayAsk(s, addr) && s.curr == None
    ensures
      var x, r := FindByAddr(s.scbs, addr.value).value, ConnRequest(s, idx, addr, btm);
      && r.state == OpeningSt && r.curr == Some(x) && r.xfer == s.xfer && r.curIdx == r.scbs[x].scoIdx == idx
      && r.calls == s.calls + [Accepted(x)]
  {
  }

  /** If somebody holds one, the headset becomes the target of a transfer when that link is being removed,
      and is answered at once when there is nothing to wait for. */
  lemma RequestedTransferCell(s: SafeSco, idx: nat, addr: Option<nat>, btm: Btm)
    requires MayAsk(s, addr) && s.curr.Some?
    ensures
      var x, r := FindByAddr(s.scbs, addr.value).value, ConnRequest(s, idx, addr, btm);
      var removal := Removal(Put(s, x, s.scbs[x].(scoIdx := idx)), s.curr.value, true);
      if removal != [] && btm.remove == RemoveStarted
      then r.state == OpenXferSt && r.xfer == Some(x) && r.curr == s.curr && r.calls == s.calls + removal
      else r.state == ListenSt && r.xfer == None && r.curr == Some(x) && r.calls == s.calls + removal + [Accepted(x)]
  {
    var x := FindByAddr(s.scbs, addr.value).value;
    var t: SafeSco := Put(s, x, s.scbs[x].(scoIdx := idx)).(xfer := Some(x), state := OpenXferSt);
    RemovalCalls(t, s.curr.value, true, btm);
  }

  /** Any other headset is rejected. */
  lemma RejectionCell(s: SafeSco, idx: nat, addr: Option<nat>, btm: Btm)
    requires !MayAsk(s, addr)
    ensures ConnRequest(s, idx, addr, btm) == s.(calls := s.calls + [Rejected(idx)])
  {
  }

  // ----- the rest of the gateway

  /** An open request is heard only if audio is allowed, and is a transfer if another block has the link; a close
      request only if the block has a link or a negotiation is on. */
  lemma RequestsHeard(s: SafeSco, i: Index, btm: Btm)
    ensures !s.allowed ==> Open(s, i, btm) == s
    ensures s.allowed ==>
              Open(s, i, btm) == Event(s, i, if s.curr.Some? && s.curr != Some(i) then XferE else OpenE, btm)
    ensures s.scbs[i].scoIdx == INVALID_INDEX && s.state != CodecSt ==> Close(s, i, btm) == s
    ensures s.scbs[i].scoIdx != INVALID_INDEX || s.state == CodecSt ==> Close(s, i, btm) == Event(s, i, CloseE, btm)
  {
  }

  /** A headset that lists its codecs during its own negotiation is proposed the best one listed, unless the
      gateway is falling back. */
  lemma CodecsDecideProposal(s: SafeSco, i: Index, hasMsbc: bool, btm: Btm)
    requires s.state == CodecSt && s.curr == Some(i) && s.scbs[i].peerNegotiates && s.scbs[i].weNegotiate
    ensures
      var r := AtBac(s, i, hasMsbc, btm);
      && r.state == CodecSt && r.curr == Some(i) && r.scbs[i].codecUpdated
      && r.calls == s.calls + [SentBcs(i, if hasMsbc && !s.scbs[i].codecFallback then MSBC else CVSD)]
  {
    var t: SafeSco := Put(s, i, s.scbs[i].(codecUpdated := true, scoCodec := if hasMsbc then MSBC else CVSD));
    ProposalCell(t, i, btm);
  }

  /** At any other time they are remembered for the next negotiation, and nothing is sent. */
  lemma CodecsRemembered(s: SafeSco, i: Index, hasMsbc: bool, btm: Btm)
    requires s.state != CodecSt || s.curr != Some(i)
    ensures
      var b, r := s.scbs[i], AtBac(s, i, hasMsbc, btm);
      r == if b.peerNegotiates && b.weNegotiate
           then Put(s, i, b.(codecUpdated := true, scoCodec := if hasMsbc then MSBC else CVSD)) else s
  {
  }
}
