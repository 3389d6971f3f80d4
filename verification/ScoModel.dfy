/** The audio-link (SCO) state of the audio gateway as a value, and what every operation of
    bta/ag/bta_ag_sco.cc does to it. Answers of the lower stack come in as parameters and every
    call made to it is recorded. */
module ScoModel {
  import opened Collections

  const NUM_CLIENTS: nat := 6
  const INVALID_INDEX: nat := 0xFFFF

  // Codec numbers: UUID_CODEC_x, BTA_AG_CODEC_x and BTM_SCO_CODEC_x agree.
  const CODEC_NONE: nat := 0
  const CVSD: nat := 1
  const MSBC: nat := 2

  /** Every writer of a block's codec stores one of the three. */
  type Codec = c: nat | c <= 2

  datatype LinkState =
    | ShutdownSt | ListenSt | CodecSt | OpeningSt | OpenClSt | OpenXferSt
    | OpenSt | ClosingSt | CloseOpSt | CloseXferSt | ShuttingSt

  datatype LinkEvent = ListenE | OpenE | XferE | CnDoneE | ReopenE | CloseE | ShutdownE | ConnOpenE | ConnCloseE

  /** States of the service-level connection of one block. */
  datatype ConnState = InitSt | ConnOpeningSt | ConnOpenSt | ConnClosingSt

  /** The two parameter sets for mSBC; T2 is preferred, T1 is the safe one. */
  datatype MsbcSettings = T2 | T1

  /** The parameter set a link is created with. */
  datatype EscoParams = ParamsCvsd | ParamsMsbcT2 | ParamsMsbcT1

  /** One service control block (tBTA_AG_SCB); an address of 0 is the empty address. */
  datatype Scb = Scb(inUse: bool, connState: ConnState, svcConn: bool, peerAddr: nat, scoIdx: nat,
                     peerNegotiates: bool, weNegotiate: bool, scoCodec: Codec, inuseCodec: Codec,
                     codecUpdated: bool, codecFallback: bool, settings: MsbcSettings)

  /** Calls to the lower stack, to the peer and to the message queue. */
  datatype Call =
    | Originated(to: nat, params: EscoParams)
    | Listening(to: nat)
    | Removed(idx: nat)
    | Accepted(to: nat)
    | Rejected(idx: nat)
    | SentBcs(to: nat, codec: Codec)
    | PostedOpen(to: nat)
    | PostedClose(to: nat)

  datatype RemoveStatus = RemoveStarted | RemoveDone | RemoveUnknown | RemoveFailed

  /** What the lower stack would answer during one step: to a removal, to a request to listen and
      to a request to connect. A created link has an index, a refused one has none. */
  datatype Btm = Btm(remove: RemoveStatus, listen: Option<nat>, connect: Option<nat>)

  /** bta_ag_cb.sco with the blocks, the policy switch and the active device. */
  datatype Sco = Sco(scbs: seq<Scb>, state: LinkState, curr: Option<nat>, xfer: Option<nat>, curIdx: nat,
                     isLocal: bool, allowed: bool, active: nat, calls: seq<Call>)

  function FreeScb(): Scb {
    Scb(false, InitSt, false, 0, 0, false, false, CODEC_NONE, CODEC_NONE, false, false, T2)
  }

  /** Start-up: everything zero, no block in use. */
  function Initial(): (s: Sco)
    ensures Valid(s) && TargetKnown(s)
  {
    Sco(seq(NUM_CLIENTS, k => FreeScb()), ShutdownSt, None, None, 0, false, true, 0, [])
  }

  ghost predicate Valid(s: Sco) {
    && |s.scbs| == NUM_CLIENTS
    && (s.curr.Some? ==> s.curr.value < NUM_CLIENTS)
    && (s.xfer.Some? ==> s.xfer.value < NUM_CLIENTS)
  }

  /** In both transfer states the target is known. */
  ghost predicate TargetKnown(s: Sco) {
    s.state == OpenXferSt || s.state == CloseXferSt ==> s.xfer.Some?
  }

  /** An operation keeps the block numbers in range, and a known transfer target known. */
  ghost predicate Keeps(s: Sco, r: Sco) {
    Valid(r) && (TargetKnown(s) ==> TargetKnown(r))
  }

  /** Nothing but block contents, the current block, its index and the call record changed. */
  ghost predicate SameMachine(s: Sco, r: Sco) {
    Valid(r) && r.state == s.state && r.xfer == s.xfer && r.allowed == s.allowed && r.active == s.active
  }

  // ----- helpers

  function Put(s: Sco, i: nat, b: Scb): Sco
    requires i < |s.scbs|
  {
    s.(scbs := s.scbs[i := b])
  }

  function Log(s: Sco, c: Call): Sco { s.(calls := s.calls + [c]) }

  predicate IsActive(s: Sco, addr: nat) { s.active != 0 && s.active == addr }

  predicate IsOpening(s: Sco, i: nat) { s.state == OpeningSt && s.curr == Some(i) }

  predicate ScbOpen(b: Scb) { b.inUse && b.connState == ConnOpenSt }

  predicate OtherScbOpen(s: Sco, i: nat) {
    exists j :: 0 <= j < |s.scbs| && j != i && ScbOpen(s.scbs[j])
  }

  /** The first block in use with that peer address. */
  function FindByAddr(scbs: seq<Scb>, addr: nat): (r: Option<nat>)
    ensures r.Some? ==> r.value < |scbs| && scbs[r.value].inUse && scbs[r.value].peerAddr == addr
    ensures r.None? ==> forall j :: 0 <= j < |scbs| ==> !(scbs[j].inUse && scbs[j].peerAddr == addr)
    decreases |scbs|
  {
    if scbs == [] then None
    else if scbs[0].inUse && scbs[0].peerAddr == addr then Some(0)
    else match FindByAddr(scbs[1..], addr) case None => None case Some(j) => Some(j + 1)
  }

  // ----- links

  /** bta_ag_remove_sco; the flag says a removal is under way. */
  function RemoveSco(s: Sco, i: nat, onlyActive: bool, btm: Btm): (r: (Sco, bool))
    requires Valid(s) && i < NUM_CLIENTS
    ensures SameMachine(s, r.0)
  {
    var b := s.scbs[i];
    if b.scoIdx == INVALID_INDEX || (onlyActive && b.scoIdx != s.curIdx) then (s, false)
    else
      var s1 := Log(s, Removed(b.scoIdx));
      match btm.remove
      case RemoveStarted => (s1.(curr := Some(i)), true)
      case RemoveDone => (Put(s1, i, b.(scoIdx := INVALID_INDEX)), false)
      case RemoveUnknown => (Put(s1, i, b.(scoIdx := INVALID_INDEX)), false)
      case RemoveFailed => (s1, false)
  }

  function ParamsFor(codec: Codec, settings: MsbcSettings): EscoParams {
    if codec != MSBC then ParamsCvsd else if settings == T2 then ParamsMsbcT2 else ParamsMsbcT1
  }

  function IndexOf(answer: Option<nat>): nat {
    match answer case Some(idx) => idx case None => INVALID_INDEX
  }

  /** bta_ag_create_pending_sco. */
  function CreatePending(s: Sco, i: nat, isLocal: bool, btm: Btm): (r: Sco)
    requires Valid(s) && i < NUM_CLIENTS
    ensures SameMachine(s, r)
  {
    var b := s.scbs[i];
    var s1 := s.(curr := Some(i), curIdx := b.scoIdx);
    if isLocal then
      var s2 := Log(s1, Originated(i, ParamsFor(b.inuseCodec, b.settings)));
      var s3 := Put(s2, i, b.(scoIdx := IndexOf(btm.connect)));
      if btm.connect.Some? then s3.(curIdx := btm.connect.value) else s3
    else
      Log(s1, Accepted(i))
  }

  /** The codec the next link to a block will use. */
  function NextCodec(b: Scb): Codec {
    if b.scoCodec == MSBC && !b.codecFallback then MSBC else CVSD
  }

  /** A pending fallback is spent: negotiate again next time, and start from T2. */
  function SpendFallback(b: Scb): Scb {
    if b.codecFallback then b.(codecFallback := false, codecUpdated := true, settings := T2) else b
  }

  /** bta_ag_create_sco. */
  function CreateSco(s: Sco, i: nat, isOrig: bool, btm: Btm): (r: Sco)
    requires Valid(s) && i < NUM_CLIENTS
    ensures SameMachine(s, r)
  {
    var b := s.scbs[i];
    if !IsActive(s, b.peerAddr) then
      if s.curr == Some(i) && b.inUse then Log(s, PostedClose(i)) else s
    else if b.scoIdx != INVALID_INDEX then s
    else if isOrig then
      var b1 := SpendFallback(b).(inuseCodec := NextCodec(b));
      CreatePending(Put(s, i, b1).(isLocal := true, curr := Some(i)), i, true, btm)
    else
      Log(Put(s, i, SpendFallback(b).(scoIdx := IndexOf(btm.listen))), Listening(i))
  }

  /** bta_ag_sco_conn_rsp. */
  function ConnRsp(s: Sco, i: nat, btm: Btm): (r: Sco)
    requires Valid(s) && i < NUM_CLIENTS
    ensures SameMachine(s, r)
  {
    CreatePending(Put(s, i, s.scbs[i].(inuseCodec := CODEC_NONE)).(isLocal := false), i, false, btm)
  }

  // ----- codec negotiation

  /** The two events a negotiation can raise while the machine is in another event. */
  function CodecDone(s: Sco, i: nat, btm: Btm): (r: Sco)
    requires Valid(s) && i < NUM_CLIENTS
    ensures Keeps(s, r)
  {
    if s.state == CodecSt then CreateSco(s, i, true, btm).(state := OpeningSt) else s
  }

  function CloseRequested(s: Sco, i: nat, btm: Btm): (r: Sco)
    requires Valid(s) && i < NUM_CLIENTS
    ensures Keeps(s, r)
  {
    match s.state
    case CodecSt => s.(state := ListenSt)
    case OpeningSt => s.(state := OpenClSt)
    case OpenXferSt => RemoveSco(s, i, true, btm).0.(state := ClosingSt)
    case OpenSt =>
      var (s1, started) := RemoveSco(s, i, true, btm);
      if started then s1.(state := ClosingSt) else s1
    case CloseOpSt => s.(state := ClosingSt)
    case CloseXferSt => s.(xfer := None, state := ClosingSt)
    case _ => s
  }

  /** bta_ag_sco_codec_nego. */
  function CodecNego(s: Sco, i: nat, agreed: bool, btm: Btm): (r: Sco)
    requires Valid(s) && i < NUM_CLIENTS
    ensures Keeps(s, r)
  {
    if agreed then CodecDone(Put(s, i, s.scbs[i].(codecUpdated := false)), i, btm)
    else CloseRequested(s, i, btm)
  }

  /** The codec bta_ag_send_bcs announces. */
  function Announced(b: Scb): Codec {
    if b.codecFallback then CVSD else if b.scoCodec == MSBC then MSBC else CVSD
  }

  /** bta_ag_codec_negotiate. */
  function Negotiate(s: Sco, i: nat, btm: Btm): (r: Sco)
    requires Valid(s) && i < NUM_CLIENTS
    ensures Keeps(s, r)
  {
    var b := if s.scbs[i].peerNegotiates then s.scbs[i] else s.scbs[i].(scoCodec := CVSD);
    var s1 := Put(s, i, b).(curr := Some(i));
    if (b.codecUpdated || b.codecFallback) && b.peerNegotiates then Log(s1, SentBcs(i, Announced(b)))
    else CodecNego(s1, i, true, btm)
  }

  // ----- the event switch, state by state

  function ShutDownIfLast(s: Sco, i: nat): Sco {
    if OtherScbOpen(s, i) then s else s.(state := ShutdownSt)
  }

  function DropCurr(s: Sco, i: nat): Sco { if s.curr == Some(i) then s.(curr := None) else s }

  function ListenEvent(s: Sco, i: nat, e: LinkEvent, btm: Btm): (r: Sco)
    requires Valid(s) && i < NUM_CLIENTS
    ensures Keeps(s, r)
  {
    match e
    case ListenE => CreateSco(s, i, false, btm)
    case OpenE => Negotiate(RemoveSco(s, i, false, btm).0.(state := CodecSt), i, btm)
    case ShutdownE => ShutDownIfLast(DropCurr(RemoveSco(s, i, false, btm).0, i), i)
    case ConnCloseE => CreateSco(s, i, false, btm).(state := ListenSt)
    case _ => s
  }

  function CodecEvent(s: Sco, i: nat, e: LinkEvent, btm: Btm): (r: Sco)
    requires Valid(s) && i < NUM_CLIENTS
    ensures Keeps(s, r)
  {
    match e
    case ListenE => CreateSco(s, i, false, btm)
    case XferE => s.(xfer := Some(i), state := CloseXferSt)
    case ShutdownE => ShutDownIfLast(DropCurr(RemoveSco(s, i, false, btm).0, i), i)
    case ConnCloseE => CreateSco(s, i, false, btm).(state := ListenSt)
    case _ => s
  }

  /** A block that is not the current one is shut down on the spot; for the current one the machine waits. */
  function ShutCurrLater(s: Sco, i: nat, btm: Btm): (r: Sco)
    requires Valid(s) && i < NUM_CLIENTS
    ensures Keeps(s, r)
  {
    if s.curr == Some(i) then s.(state := ShuttingSt) else RemoveSco(s, i, false, btm).0
  }

  function ListenUnlessCurr(s: Sco, i: nat, btm: Btm): (r: Sco)
    requires Valid(s) && i < NUM_CLIENTS
    ensures SameMachine(s, r)
  {
    if s.curr == Some(i) then s else CreateSco(s, i, false, btm)
  }

  function OpeningEvent(s: Sco, i: nat, e: LinkEvent, btm: Btm): (r: Sco)
    requires Valid(s) && i < NUM_CLIENTS
    ensures Keeps(s, r)
  {
    match e
    case ListenE => ListenUnlessCurr(s, i, btm)
    case ReopenE => Negotiate(s.(state := CodecSt), i, btm)
    case XferE => s.(xfer := Some(i), state := CloseXferSt)
    case ShutdownE => ShutCurrLater(s, i, btm)
    case ConnOpenE => s.(state := OpenSt)
    case ConnCloseE => CreateSco(s, i, false, btm).(state := ListenSt)
    case _ => s
  }

  function OpenClEvent(s: Sco, i: nat, e: LinkEvent, btm: Btm): (r: Sco)
    requires Valid(s) && i < NUM_CLIENTS
    ensures Keeps(s, r)
  {
    match e
    case XferE => s.(xfer := Some(i), state := CloseXferSt)
    case OpenE => s.(state := OpeningSt)
    case ShutdownE => ShutCurrLater(s, i, btm)
    case ConnOpenE => RemoveSco(s, i, true, btm).0.(state := ClosingSt)
    case ConnCloseE => s.(state := ListenSt)
    case _ => s
  }

  function OpenXferEvent(s: Sco, i: nat, e: LinkEvent, btm: Btm): (r: Sco)
    requires Valid(s) && i < NUM_CLIENTS && s.xfer.Some?
    ensures Keeps(s, r)
  {
    match e
    case ShutdownE => RemoveSco(s, i, false, btm).0.(state := ShuttingSt)
    case ConnCloseE =>
      var x := s.xfer.value;
      var s1 := ConnRsp(CreateSco(s, i, false, btm), x, btm);
      s1.(state := OpeningSt, curr := Some(x), curIdx := s1.scbs[x].scoIdx, xfer := None)
    case _ => s
  }

  function OpenEvent(s: Sco, i: nat, e: LinkEvent, btm: Btm): (r: Sco)
    requires Valid(s) && i < NUM_CLIENTS && (e == XferE ==> s.curr.Some?)
    ensures Keeps(s, r)
  {
    match e
    case ListenE => ListenUnlessCurr(s, i, btm)
    case XferE => RemoveSco(s, s.curr.value, true, btm).0.(xfer := Some(i), state := CloseXferSt)
    case ShutdownE =>
      var s1 := RemoveSco(s, i, false, btm).0;
      if s1.curr == Some(i) then s1.(state := ShuttingSt) else s1
    case ConnCloseE => CreateSco(s, i, false, btm).(state := ListenSt)
    case _ => s
  }

  function ClosingEvent(s: Sco, i: nat, e: LinkEvent, btm: Btm): (r: Sco)
    requires Valid(s) && i < NUM_CLIENTS
    ensures Keeps(s, r)
  {
    match e
    case ListenE => ListenUnlessCurr(s, i, btm)
    case OpenE => s.(state := CloseOpSt)
    case XferE => s.(xfer := Some(i), state := CloseXferSt)
    case ShutdownE => ShutCurrLater(s, i, btm)
    case ConnCloseE => CreateSco(s, i, false, btm).(state := ListenSt)
    case _ => s
  }

  function CloseOpEvent(s: Sco, i: nat, e: LinkEvent, btm: Btm): (r: Sco)
    requires Valid(s) && i < NUM_CLIENTS
    ensures Keeps(s, r)
  {
    match e
    case ShutdownE => s.(state := ShuttingSt)
    case ConnCloseE => Negotiate(s.(state := CodecSt), i, btm)
    case ListenE => ListenUnlessCurr(s, i, btm)
    case _ => s
  }

  function CloseXferEvent(s: Sco, i: nat, e: LinkEvent, btm: Btm): (r: Sco)
    requires Valid(s) && i < NUM_CLIENTS && s.xfer.Some?
    ensures Keeps(s, r)
  {
    match e
    case ConnOpenE => RemoveSco(s, i, true, btm).0
    case ShutdownE => s.(xfer := None, state := ShuttingSt)
    case ConnCloseE =>
      var x := s.xfer.value;
      var s1 := RemoveSco(CreateSco(s, i, false, btm), x, false, btm).0;
      Negotiate(s1.(state := CodecSt, xfer := None), x, btm)
    case _ => s
  }

  /** The current block is gone for good: forget it and its link index. */
  function ForgetCurr(s: Sco, i: nat): (r: Sco)
    requires Valid(s) && i < NUM_CLIENTS
    ensures Keeps(s, r)
  {
    if s.curr == Some(i) then Put(s, i, s.scbs[i].(scoIdx := INVALID_INDEX)).(curr := None) else s
  }

  function LastGoesDown(s: Sco, i: nat): Sco {
    s.(state := if OtherScbOpen(s, i) then ListenSt else ShutdownSt)
  }

  function ShuttingEvent(s: Sco, i: nat, e: LinkEvent, btm: Btm): (r: Sco)
    requires Valid(s) && i < NUM_CLIENTS
    ensures Keeps(s, r)
  {
    match e
    case ConnOpenE => RemoveSco(s, i, true, btm).0
    case ConnCloseE =>
      var s1 := LastGoesDown(s, i);
      var s2 := if ScbOpen(s.scbs[i]) then CreateSco(s1, i, false, btm).(state := ListenSt) else s1;
      ForgetCurr(s2, i)
    case ListenE => ListenUnlessCurr(s, i, btm)
    case ShutdownE => ForgetCurr(LastGoesDown(s, i), i)
    case _ => s
  }

  /** What the switch may be entered with: no transfer without a target, and no request to take the
      link over unless some block has it. */
  ghost predicate Enterable(s: Sco, e: LinkEvent) {
    Valid(s) && TargetKnown(s) && (e == XferE ==> s.curr.Some?)
  }

  /** bta_ag_sco_event. */
  function Event(s: Sco, i: nat, e: LinkEvent, btm: Btm): (r: Sco)
    requires Enterable(s, e) && i < NUM_CLIENTS
    ensures Keeps(s, r)
  {
    if e == CnDoneE then CodecDone(s, i, btm)
    else if e == CloseE then CloseRequested(s, i, btm)
    else match s.state
      case ShutdownSt => if e == ListenE then CreateSco(s, i, false, btm).(state := ListenSt) else s
      case ListenSt => ListenEvent(s, i, e, btm)
      case CodecSt => CodecEvent(s, i, e, btm)
      case OpeningSt => OpeningEvent(s, i, e, btm)
      case OpenClSt => OpenClEvent(s, i, e, btm)
      case OpenXferSt => OpenXferEvent(s, i, e, btm)
      case OpenSt => OpenEvent(s, i, e, btm)
      case ClosingSt => ClosingEvent(s, i, e, btm)
      case CloseOpSt => CloseOpEvent(s, i, e, btm)
      case CloseXferSt => CloseXferEvent(s, i, e, btm)
      case ShuttingSt => ShuttingEvent(s, i, e, btm)
  }

  // ----- what the rest of the gateway asks for

  /** bta_ag_sco_open: while another block has the link this is a transfer. */
  function Open(s: Sco, i: nat, btm: Btm): (r: Sco)
    requires Valid(s) && TargetKnown(s) && i < NUM_CLIENTS
    ensures Keeps(s, r)
  {
    if !s.allowed then s
    else if s.curr.Some? && s.curr != Some(i) then Event(s, i, XferE, btm)
    else Event(s, i, OpenE, btm)
  }

  /** bta_ag_sco_close. */
  function Close(s: Sco, i: nat, btm: Btm): (r: Sco)
    requires Valid(s) && i < NUM_CLIENTS
    ensures Keeps(s, r)
  {
    if s.scbs[i].scoIdx != INVALID_INDEX || s.state == CodecSt then CloseRequested(s, i, btm) else s
  }

  function UseT2(s: Sco, i: nat): Sco
    requires i < |s.scbs|
  {
    Put(s, i, s.scbs[i].(settings := T2))
  }

  /** bta_ag_sco_conn_open. */
  function ConnOpened(s: Sco, i: nat, btm: Btm): (r: Sco)
    requires Valid(s) && TargetKnown(s) && i < NUM_CLIENTS
    ensures Keeps(s, r)
  {
    UseT2(Event(s, i, ConnOpenE, btm), i)
  }

  /** A block asks for another attempt: with CVSD, or with the safe mSBC settings. */
  predicate WantsRetry(b: Scb) {
    b.svcConn && (b.codecFallback || (b.scoCodec == MSBC && b.settings == T1))
  }

  /** bta_ag_sco_conn_close. */
  function ConnClosed(s: Sco, i: nat, btm: Btm): (r: Sco)
    requires Valid(s) && TargetKnown(s) && i < NUM_CLIENTS
    ensures Keeps(s, r)
  {
    var s1 := Put(s, i, s.scbs[i].(scoIdx := INVALID_INDEX)).(curr := None);
    if WantsRetry(s.scbs[i]) then Event(s1, i, ReopenE, btm)
    else UseT2(Event(s1, i, ConnCloseE, btm), i)
  }

  /** The AT+BCS handler of bta_ag_at_hfp_cback: the headset names a codec. */
  function AtBcs(s: Sco, i: nat, named: int, btm: Btm): (r: Sco)
    requires Valid(s) && i < NUM_CLIENTS
    ensures Keeps(s, r)
  {
    var b := s.scbs[i];
    var codecType: nat := if named == CVSD then CVSD else if named == MSBC then MSBC else 0xFFFF;
    var codecSent := if b.codecFallback then CVSD else b.scoCodec;
    CodecNego(s, i, codecType == codecSent, btm)
  }

  /** The AT+BAC handler: the headset lists its codecs. */
  function AtBac(s: Sco, i: nat, hasMsbc: bool, btm: Btm): (r: Sco)
    requires Valid(s) && i < NUM_CLIENTS
    ensures Keeps(s, r)
  {
    var b := s.scbs[i];
    if b.peerNegotiates && b.weNegotiate then
      var s1 := Put(s, i, b.(codecUpdated := true, scoCodec := if hasMsbc then MSBC else CVSD));
      if s.state == CodecSt && s.curr == Some(i) then Negotiate(s1, i, btm) else s1
    else s
  }

  // ----- callbacks of the lower stack

  /** How a block goes on once its link is down: an mSBC link that never opened steps down. */
  function AfterFailure(b: Scb, opening: bool): Scb {
    var b1 :=
      if b.inuseCodec == MSBC && opening then
        if b.settings == T2 then b.(connState := ConnOpenSt, settings := T1)
        else b.(connState := ConnOpenSt, codecFallback := true)
      else b;
    b1.(inuseCodec := CODEC_NONE)
  }

  /** bta_ag_sco_disc_cback: the settings for the next attempt are chosen here. */
  function LinkDown(s: Sco, idx: nat): (r: Sco)
    requires Valid(s)
    ensures Keeps(s, r)
  {
    if s.curr.None? then s
    else
      var c := s.curr.value;
      var b := s.scbs[c];
      if !b.inUse then
        Put(s, c, b.(scoIdx := INVALID_INDEX)).(curr := None, state := ShutdownSt)
      else if b.scoIdx != idx && b.scoIdx != INVALID_INDEX then s
      else
        Log(Put(s, c, AfterFailure(b, IsOpening(s, c))), PostedClose(c))
  }

  /** bta_ag_sco_conn_cback. */
  function LinkUp(s: Sco, idx: nat, addr: Option<nat>): (r: Sco)
    requires Valid(s)
    ensures Keeps(s, r)
  {
    var found := if addr.Some? then FindByAddr(s.scbs, addr.value) else None;
    if s.curr.Some? && s.scbs[s.curr.value].inUse then Log(s, PostedOpen(s.curr.value))
    else if found.Some? && s.scbs[found.value].svcConn then Log(s, PostedOpen(found.value))
    else Log(s.(curr := None, state := ShutdownSt), Removed(idx))
  }

  /** bta_ag_esco_connreq_cback: a headset asks for a link. */
  function ConnRequest(s: Sco, idx: nat, addr: Option<nat>, btm: Btm): (r: Sco)
    requires Valid(s)
    ensures Keeps(s, r)
  {
    var found := if addr.Some? then FindByAddr(s.scbs, addr.value) else None;
    if addr.Some? && IsActive(s, addr.value) && found.Some? && s.scbs[found.value].svcConn then
      var i := found.value;
      var s1 := Put(s, i, s.scbs[i].(scoIdx := idx));
      if s.curr.None? then
        ConnRsp(s1, i, btm).(state := OpeningSt, curr := Some(i), curIdx := idx)
      else
        var (s2, started) := RemoveSco(s1.(xfer := Some(i), state := OpenXferSt), s.curr.value, true, btm);
        if started then s2 else ConnRsp(s2.(xfer := None, state := ListenSt), i, btm)
    else Log(s, Rejected(idx))
  }
}
