/** The audio-link machine of bta/ag/bta_ag_sco.cc in its own form: one control block whose fields
    the event switch and its helpers update in place. Every method is tied to its value in ScoModel. */
module ScoMachine {
  import opened Collections
  import opened ScoModel

  class ScoControl {
    var scbs: seq<Scb>
    var state: LinkState
    var curr: Option<nat>
    var xfer: Option<nat>
    var curIdx: nat
    var isLocal: bool
    var allowed: bool
    var active: nat
    ghost var calls: seq<Call>

    ghost function Snap(): Sco
      reads this
    {
      Sco(scbs, state, curr, xfer, curIdx, isLocal, allowed, active, calls)
    }

    ghost predicate Ok()
      reads this
    {
      Valid(Snap())
    }

    /** The control block as it is zeroed at start-up. */
    constructor ()
      ensures Snap() == Initial()
    {
      scbs := seq(NUM_CLIENTS, k => FreeScb());
      state, curr, xfer, curIdx, isLocal := ShutdownSt, None, None, 0, false;
      allowed, active, calls := true, 0, [];
    }

    method OtherOpen(i: nat) returns (found: bool)
      ensures found == OtherScbOpen(Snap(), i)
    {
      for j := 0 to |scbs|
        invariant forall k :: 0 <= k < j ==> !(k != i && ScbOpen(scbs[k]))
      {
        if scbs[j].inUse && j != i && scbs[j].connState == ConnOpenSt {
          return true;
        }
      }
      return false;
    }

    method IndexByAddr(addr: nat) returns (r: Option<nat>)
      ensures r == FindByAddr(scbs, addr)
    {
      for i := 0 to |scbs|
        invariant forall k :: 0 <= k < i ==> !(scbs[k].inUse && scbs[k].peerAddr == addr)
      {
        if scbs[i].inUse && scbs[i].peerAddr == addr {
          FirstByAddr(scbs, addr, i);
          return Some(i);
        }
      }
      return None;
    }

    method RemoveLink(i: nat, onlyActive: bool, btm: Btm) returns (started: bool)
      requires Ok() && i < NUM_CLIENTS
      modifies this
      ensures (Snap(), started) == RemoveSco(old(Snap()), i, onlyActive, btm)
    {
      if scbs[i].scoIdx != INVALID_INDEX {
        if !onlyActive || scbs[i].scoIdx == curIdx {
          calls := calls + [Removed(scbs[i].scoIdx)];
          if btm.remove == RemoveStarted {
            curr := Some(i);
            return true;
          } else if btm.remove == RemoveDone || btm.remove == RemoveUnknown {
            scbs := scbs[i := scbs[i].(scoIdx := INVALID_INDEX)];
          }
        }
      }
      return false;
    }

    method CreatePendingLink(i: nat, local: bool, btm: Btm)
      requires Ok() && i < NUM_CLIENTS
      modifies this
      ensures Snap() == CreatePending(old(Snap()), i, local, btm)
    {
      curr := Some(i);
      curIdx := scbs[i].scoIdx;
      if local {
        var params := ParamsCvsd;
        if scbs[i].inuseCodec == MSBC {
          if scbs[i].settings == T2 { params := ParamsMsbcT2; } else { params := ParamsMsbcT1; }
        }
        calls := calls + [Originated(i, params)];
        scbs := scbs[i := scbs[i].(scoIdx := IndexOf(btm.connect))];
        if btm.connect.Some? {
          curIdx := scbs[i].scoIdx;
        }
      } else {
        calls := calls + [Accepted(i)];
      }
    }

    method CreateLink(i: nat, isOrig: bool, btm: Btm)
      requires Ok() && i < NUM_CLIENTS
      modifies this
      ensures Snap() == CreateSco(old(Snap()), i, isOrig, btm)
    {
      if active == 0 || active != scbs[i].peerAddr {
        if curr == Some(i) && scbs[i].inUse {
          calls := calls + [PostedClose(i)];
        }
        return;
      }
      if scbs[i].scoIdx != INVALID_INDEX {
        return;
      }
      var escoCodec := CVSD;
      if scbs[i].scoCodec == MSBC && !scbs[i].codecFallback {
        escoCodec := MSBC;
      }
      ResetAfterFallback(i);
      if isOrig {
        isLocal := true;
        curr := Some(i);
        scbs := scbs[i := scbs[i].(inuseCodec := escoCodec)];
        assert scbs == old(scbs)[i := SpendFallback(old(scbs[i])).(inuseCodec := escoCodec)];
        CreatePendingLink(i, isLocal, btm);
      } else {
        scbs := scbs[i := scbs[i].(scoIdx := IndexOf(btm.listen))];
        assert scbs == old(scbs)[i := SpendFallback(old(scbs[i])).(scoIdx := IndexOf(btm.listen))];
        calls := calls + [Listening(i)];
      }
    }

    /** The part of bta_ag_create_sco that spends a pending fallback. */
    method ResetAfterFallback(i: nat)
      requires Ok() && i < NUM_CLIENTS
      modifies this`scbs
      ensures scbs == old(scbs)[i := SpendFallback(old(scbs[i]))]
    {
      if scbs[i].codecFallback {
        scbs := scbs[i := scbs[i].(codecFallback := false)];
        scbs := scbs[i := scbs[i].(codecUpdated := true)];
        scbs := scbs[i := scbs[i].(settings := T2)];
      }
    }

    method RespondToRequest(i: nat, btm: Btm)
      requires Ok() && i < NUM_CLIENTS
      modifies this
      ensures Snap() == ConnRsp(old(Snap()), i, btm)
    {
      isLocal := false;
      scbs := scbs[i := scbs[i].(inuseCodec := CODEC_NONE)];
      CreatePendingLink(i, isLocal, btm);
    }

    method NegotiationResult(i: nat, agreed: bool, btm: Btm)
      requires Ok() && TargetKnown(Snap()) && i < NUM_CLIENTS
      modifies this
      ensures Snap() == CodecNego(old(Snap()), i, agreed, btm)
      decreases 1
    {
      if agreed {
        scbs := scbs[i := scbs[i].(codecUpdated := false)];
        HandleEvent(i, CnDoneE, btm);
      } else {
        HandleEvent(i, CloseE, btm);
      }
    }

    method NegotiateCodec(i: nat, btm: Btm)
      requires Ok() && TargetKnown(Snap()) && i < NUM_CLIENTS
      modifies this
      ensures Snap() == Negotiate(old(Snap()), i, btm)
      decreases 2
    {
      curr := Some(i);
      if !scbs[i].peerNegotiates {
        scbs := scbs[i := scbs[i].(scoCodec := CVSD)];
      }
      assert scbs == old(scbs)[i := scbs[i]];
      if (scbs[i].codecUpdated || scbs[i].codecFallback) && scbs[i].peerNegotiates {
        calls := calls + [SentBcs(i, Announced(scbs[i]))];
      } else {
        NegotiationResult(i, true, btm);
      }
    }

    /** The switch, with the cases of one state in a method of their own. */
    method HandleEvent(i: nat, e: LinkEvent, btm: Btm)
      requires Enterable(Snap(), e) && i < NUM_CLIENTS
      modifies this
      ensures Snap() == Event(old(Snap()), i, e, btm)
      decreases if e == CnDoneE || e == CloseE then 0 else 4
    {
      match state {
        case ShutdownSt =>
          if e == ListenE {
            CreateLink(i, false, btm);
            state := ListenSt;
          }
        case ListenSt => WhileListening(i, e, btm);
        case CodecSt => WhileNegotiating(i, e, btm);
        case OpeningSt => WhileOpening(i, e, btm);
        case OpenClSt => WhileOpeningThenClose(i, e, btm);
        case OpenXferSt => WhileOpenTransfer(i, e, btm);
        case OpenSt => WhileOpen(i, e, btm);
        case ClosingSt => WhileClosing(i, e, btm);
        case CloseOpSt => WhileClosingThenOpen(i, e, btm);
        case CloseXferSt => WhileCloseTransfer(i, e, btm);
        case ShuttingSt => WhileShutting(i, e, btm);
      }
    }

    method WhileListening(i: nat, e: LinkEvent, btm: Btm)
      requires Enterable(Snap(), e) && i < NUM_CLIENTS && state == ListenSt
      modifies this
      ensures Snap() == Event(old(Snap()), i, e, btm)
      decreases if e == CnDoneE || e == CloseE then 0 else 4, 0
    {
      match e {
        case ListenE =>
          CreateLink(i, false, btm);
        case OpenE =>
          var _ := RemoveLink(i, false, btm);
          state := CodecSt;
          NegotiateCodec(i, btm);
        case ShutdownE =>
          var _ := RemoveLink(i, false, btm);
          if curr == Some(i) { curr := None; }
          var other := OtherOpen(i);
          if !other { state := ShutdownSt; }
        case ConnCloseE =>
          CreateLink(i, false, btm);
          state := ListenSt;
        case _ =>
      }
    }

    method WhileNegotiating(i: nat, e: LinkEvent, btm: Btm)
      requires Enterable(Snap(), e) && i < NUM_CLIENTS && state == CodecSt
      modifies this
      ensures Snap() == Event(old(Snap()), i, e, btm)
    {
      match e {
        case ListenE =>
          CreateLink(i, false, btm);
        case CnDoneE =>
          CreateLink(i, true, btm);
          state := OpeningSt;
        case XferE =>
          xfer := Some(i);
          state := CloseXferSt;
        case ShutdownE =>
          var _ := RemoveLink(i, false, btm);
          if curr == Some(i) { curr := None; }
          var other := OtherOpen(i);
          if !other { state := ShutdownSt; }
        case CloseE =>
          state := ListenSt;
        case ConnCloseE =>
          CreateLink(i, false, btm);
          state := ListenSt;
        case _ =>
      }
    }

    method WhileOpening(i: nat, e: LinkEvent, btm: Btm)
      requires Enterable(Snap(), e) && i < NUM_CLIENTS && state == OpeningSt
      modifies this
      ensures Snap() == Event(old(Snap()), i, e, btm)
      decreases if e == CnDoneE || e == CloseE then 0 else 4, 0
    {
      match e {
        case ListenE =>
          if curr != Some(i) { CreateLink(i, false, btm); }
        case ReopenE =>
          state := CodecSt;
          NegotiateCodec(i, btm);
        case XferE =>
          xfer := Some(i);
          state := CloseXferSt;
        case CloseE =>
          state := OpenClSt;
        case ShutdownE =>
          if curr != Some(i) {
            var _ := RemoveLink(i, false, btm);
          } else {
            state := ShuttingSt;
          }
        case ConnOpenE =>
          state := OpenSt;
        case ConnCloseE =>
          CreateLink(i, false, btm);
          state := ListenSt;
        case _ =>
      }
    }

    method WhileOpeningThenClose(i: nat, e: LinkEvent, btm: Btm)
      requires Enterable(Snap(), e) && i < NUM_CLIENTS && state == OpenClSt
      modifies this
      ensures Snap() == Event(old(Snap()), i, e, btm)
    {
      match e {
        case XferE =>
          xfer := Some(i);
          state := CloseXferSt;
        case OpenE =>
          state := OpeningSt;
        case ShutdownE =>
          if curr != Some(i) {
            var _ := RemoveLink(i, false, btm);
          } else {
            state := ShuttingSt;
          }
        case ConnOpenE =>
          var _ := RemoveLink(i, true, btm);
          state := ClosingSt;
        case ConnCloseE =>
          state := ListenSt;
        case _ =>
      }
    }

    method WhileOpenTransfer(i: nat, e: LinkEvent, btm: Btm)
      requires Enterable(Snap(), e) && i < NUM_CLIENTS && state == OpenXferSt
      modifies this
      ensures Snap() == Event(old(Snap()), i, e, btm)
    {
      match e {
        case CloseE =>
          var _ := RemoveLink(i, true, btm);
          state := ClosingSt;
        case ShutdownE =>
          var _ := RemoveLink(i, false, btm);
          state := ShuttingSt;
        case ConnCloseE =>
          AcceptTransfer(i, btm);
        case _ =>
      }
    }

    method AcceptTransfer(i: nat, btm: Btm)
      requires Ok() && i < NUM_CLIENTS && state == OpenXferSt && xfer.Some?
      modifies this
      ensures Snap() == OpenXferEvent(old(Snap()), i, ConnCloseE, btm)
    {
      CreateLink(i, false, btm);
      RespondToRequest(xfer.value, btm);
      state := OpeningSt;
      curr := xfer;
      curIdx := scbs[xfer.value].scoIdx;
      xfer := None;
    }

    method WhileOpen(i: nat, e: LinkEvent, btm: Btm)
      requires Enterable(Snap(), e) && i < NUM_CLIENTS && state == OpenSt
      modifies this
      ensures Snap() == Event(old(Snap()), i, e, btm)
    {
      match e {
        case ListenE =>
          if curr != Some(i) { CreateLink(i, false, btm); }
        case XferE =>
          var _ := RemoveLink(curr.value, true, btm);
          xfer := Some(i);
          state := CloseXferSt;
        case CloseE =>
          var started := RemoveLink(i, true, btm);
          if started { state := ClosingSt; }
        case ShutdownE =>
          var _ := RemoveLink(i, false, btm);
          if curr == Some(i) { state := ShuttingSt; }
        case ConnCloseE =>
          CreateLink(i, false, btm);
          state := ListenSt;
        case _ =>
      }
    }

    method WhileClosing(i: nat, e: LinkEvent, btm: Btm)
      requires Enterable(Snap(), e) && i < NUM_CLIENTS && state == ClosingSt
      modifies this
      ensures Snap() == Event(old(Snap()), i, e, btm)
    {
      match e {
        case ListenE =>
          if curr != Some(i) { CreateLink(i, false, btm); }
        case OpenE =>
          state := CloseOpSt;
        case XferE =>
          xfer := Some(i);
          state := CloseXferSt;
        case ShutdownE =>
          if curr != Some(i) {
            var _ := RemoveLink(i, false, btm);
          } else {
            state := ShuttingSt;
          }
        case ConnCloseE =>
          CreateLink(i, false, btm);
          state := ListenSt;
        case _ =>
      }
    }

    method WhileClosingThenOpen(i: nat, e: LinkEvent, btm: Btm)
      requires Enterable(Snap(), e) && i < NUM_CLIENTS && state == CloseOpSt
      modifies this
      ensures Snap() == Event(old(Snap()), i, e, btm)
      decreases if e == CnDoneE || e == CloseE then 0 else 4, 0
    {
      match e {
        case CloseE =>
          state := ClosingSt;
        case ShutdownE =>
          state := ShuttingSt;
        case ConnCloseE =>
          state := CodecSt;
          NegotiateCodec(i, btm);
        case ListenE =>
          if curr != Some(i) { CreateLink(i, false, btm); }
        case _ =>
      }
    }

    method WhileCloseTransfer(i: nat, e: LinkEvent, btm: Btm)
      requires Enterable(Snap(), e) && i < NUM_CLIENTS && state == CloseXferSt
      modifies this
      ensures Snap() == Event(old(Snap()), i, e, btm)
      decreases if e == CnDoneE || e == CloseE then 0 else 4, 0
    {
      match e {
        case ConnOpenE =>
          var _ := RemoveLink(i, true, btm);
        case CloseE =>
          xfer := None;
          state := ClosingSt;
        case ShutdownE =>
          xfer := None;
          state := ShuttingSt;
        case ConnCloseE =>
          HandOver(i, btm);
        case _ =>
      }
    }

    /** The old headset's link is gone: the target of the transfer is next. */
    method HandOver(i: nat, btm: Btm)
      requires Ok() && i < NUM_CLIENTS && xfer.Some?
      modifies this
      ensures Snap() == CloseXferEvent(old(Snap()), i, ConnCloseE, btm)
      decreases 3, 1
    {
      CreateLink(i, false, btm);
      var _ := RemoveLink(xfer.value, false, btm);
      state := CodecSt;
      var target := xfer.value;
      xfer := None;
      NegotiateCodec(target, btm);
    }

    method WhileShutting(i: nat, e: LinkEvent, btm: Btm)
      requires Enterable(Snap(), e) && i < NUM_CLIENTS && state == ShuttingSt
      modifies this
      ensures Snap() == Event(old(Snap()), i, e, btm)
    {
      match e {
        case ConnOpenE =>
          var _ := RemoveLink(i, true, btm);
        case ConnCloseE =>
          var other := OtherOpen(i);
          if !other { state := ShutdownSt; } else { state := ListenSt; }
          if scbs[i].inUse && scbs[i].connState == ConnOpenSt {
            CreateLink(i, false, btm);
            state := ListenSt;
          }
          if curr == Some(i) {
            scbs := scbs[i := scbs[i].(scoIdx := INVALID_INDEX)];
            curr := None;
          }
        case ListenE =>
          if curr != Some(i) { CreateLink(i, false, btm); }
        case ShutdownE =>
          var other := OtherOpen(i);
          if !other { state := ShutdownSt; } else { state := ListenSt; }
          if curr == Some(i) {
            scbs := scbs[i := scbs[i].(scoIdx := INVALID_INDEX)];
            curr := None;
          }
        case _ =>
      }
    }

    // ----- entry points

    method OpenAudio(i: nat, btm: Btm)
      requires Ok() && TargetKnown(Snap()) && i < NUM_CLIENTS
      modifies this
      ensures Snap() == Open(old(Snap()), i, btm)
    {
      if !allowed {
        return;
      }
      if curr.Some? && curr != Some(i) {
        HandleEvent(i, XferE, btm);
      } else {
        HandleEvent(i, OpenE, btm);
      }
    }

    method CloseAudio(i: nat, btm: Btm)
      requires Ok() && TargetKnown(Snap()) && i < NUM_CLIENTS
      modifies this
      ensures Snap() == Close(old(Snap()), i, btm)
    {
      if scbs[i].scoIdx != INVALID_INDEX || state == CodecSt {
        HandleEvent(i, CloseE, btm);
      }
    }

    method OnConnOpen(i: nat, btm: Btm)
      requires Ok() && TargetKnown(Snap()) && i < NUM_CLIENTS
      modifies this
      ensures Snap() == ConnOpened(old(Snap()), i, btm)
    {
      HandleEvent(i, ConnOpenE, btm);
      scbs := scbs[i := scbs[i].(settings := T2)];
    }

    method OnConnClose(i: nat, btm: Btm)
      requires Ok() && TargetKnown(Snap()) && i < NUM_CLIENTS
      modifies this
      ensures Snap() == ConnClosed(old(Snap()), i, btm)
    {
      curr := None;
      scbs := scbs[i := scbs[i].(scoIdx := INVALID_INDEX)];
      if scbs[i].svcConn && (scbs[i].codecFallback || (scbs[i].scoCodec == MSBC && scbs[i].settings == T1)) {
        HandleEvent(i, ReopenE, btm);
      } else {
        HandleEvent(i, ConnCloseE, btm);
        scbs := scbs[i := scbs[i].(settings := T2)];
      }
    }

    /** The AT+BCS case of bta_ag_at_hfp_cback. */
    method OnAtBcs(i: nat, named: int, btm: Btm)
      requires Ok() && TargetKnown(Snap()) && i < NUM_CLIENTS
      modifies this
      ensures Snap() == AtBcs(old(Snap()), i, named, btm)
    {
      var codecType := 0xFFFF;
      if named == CVSD { codecType := CVSD; } else if named == MSBC { codecType := MSBC; }
      var codecSent := scbs[i].scoCodec;
      if scbs[i].codecFallback { codecSent := CVSD; }
      NegotiationResult(i, codecType == codecSent, btm);
    }

    /** The AT+BAC case of bta_ag_at_hfp_cback. */
    method OnAtBac(i: nat, hasMsbc: bool, btm: Btm)
      requires Ok() && TargetKnown(Snap()) && i < NUM_CLIENTS
      modifies this
      ensures Snap() == AtBac(old(Snap()), i, hasMsbc, btm)
    {
      if scbs[i].peerNegotiates && scbs[i].weNegotiate {
        var codec := CVSD;
        if hasMsbc { codec := MSBC; }
        scbs := scbs[i := scbs[i].(codecUpdated := true, scoCodec := codec)];
        if state == CodecSt && curr == Some(i) {
          NegotiateCodec(i, btm);
        }
      }
    }

    /** The part of bta_ag_sco_disc_cback that prepares the next attempt. */
    method StepDown(c: nat)
      requires Ok() && c < NUM_CLIENTS && curr == Some(c)
      modifies this`scbs
      ensures scbs == old(scbs)[c := AfterFailure(old(scbs[c]), state == OpeningSt)]
    {
      var b := scbs[c];
      if b.inuseCodec == MSBC {
        if state == OpeningSt {
          b := b.(connState := ConnOpenSt);
          if b.settings == T2 {
            b := b.(settings := T1);
          } else {
            b := b.(codecFallback := true);
          }
        }
      }
      b := b.(inuseCodec := CODEC_NONE);
      scbs := scbs[c := b];
    }

    method OnLinkDown(idx: nat)
      requires Ok()
      modifies this
      ensures Snap() == LinkDown(old(Snap()), idx)
    {
      if curr.Some? && scbs[curr.value].inUse {
        var c := curr.value;
        if scbs[c].scoIdx != idx {
          if scbs[c].scoIdx != INVALID_INDEX { return; }
        }
        StepDown(c);
        calls := calls + [PostedClose(c)];
      } else if curr.Some? {
        scbs := scbs[curr.value := scbs[curr.value].(scoIdx := INVALID_INDEX)];
        curr := None;
        state := ShutdownSt;
      }
    }

    method OnLinkUp(idx: nat, addr: Option<nat>)
      requires Ok()
      modifies this
      ensures Snap() == LinkUp(old(Snap()), idx, addr)
    {
      var handle: Option<nat> := None;
      if curr.Some? && scbs[curr.value].inUse {
        handle := curr;
      } else if addr.Some? {
        handle := IndexByAddr(addr.value);
        if handle.Some? && !scbs[handle.value].svcConn { handle := None; }
      }
      if handle.Some? {
        calls := calls + [PostedOpen(handle.value)];
      } else {
        curr := None;
        state := ShutdownSt;
        calls := calls + [Removed(idx)];
      }
    }

    method OnConnRequest(idx: nat, addr: Option<nat>, btm: Btm)
      requires Ok()
      modifies this
      ensures Snap() == ConnRequest(old(Snap()), idx, addr, btm)
    {
      var found: Option<nat> := None;
      if addr.Some? { found := IndexByAddr(addr.value); }
      if addr.Some? && active != 0 && active == addr.value && found.Some? && scbs[found.value].svcConn {
        var i := found.value;
        scbs := scbs[i := scbs[i].(scoIdx := idx)];
        if curr.None? {
          RespondToRequest(i, btm);
          state := OpeningSt;
          curr := Some(i);
          curIdx := scbs[i].scoIdx;
        } else {
          xfer := Some(i);
          state := OpenXferSt;
          var started := RemoveLink(curr.value, true, btm);
          if !started {
            xfer := None;
            state := ListenSt;
            RespondToRequest(i, btm);
          }
        }
      } else {
        calls := calls + [Rejected(idx)];
      }
    }
  }

  lemma {:induction false} FirstByAddr(scbs: seq<Scb>, addr: nat, i: nat)
    requires i < |scbs| && scbs[i].inUse && scbs[i].peerAddr == addr
    requires forall k :: 0 <= k < i ==> !(scbs[k].inUse && scbs[k].peerAddr == addr)
    ensures FindByAddr(scbs, addr) == Some(i)
  {
    if i > 0 { FirstByAddr(scbs[1..], addr, i - 1); }
  }
}
