/** Reports of a lost link that go unheard. The close action asks for a retry when the block wants
    one, and the machine drops that request unless it is opening: a transfer can wait forever for a
    link that is gone, and the machine can stay open without one. */
module ScoSwallowedClose {
  import opened Collections
  import opened ScoFallback
  import opened ScoModel
  import opened ScoRuns

  /** While headset `i` is retried with the safe settings, `j` asks for the link and the retry fails:
      the machine goes on waiting for a link to close, but there is none and none is asked for. */
  lemma TransferIsLost(s: SafeSco, i: Index, j: Index, btm: Btm)
    requires Trying(s, i, ParamsMsbcT1) && i != j && s.scbs[j].inUse
    ensures
      var asked := Step(s, Stimulus(ReqOpen(j), btm));
      var down := Step(asked, Stimulus(BtmDown(asked.scbs[i].scoIdx), btm));
      var r := Step(down, Stimulus(EvClosed(i), btm));
      && LinkReportedDown(down, Stimulus(EvClosed(i), btm))
      && r.state == CloseXferSt && r.curr == None && r.xfer == Some(j)
      && r.scbs[i].scoIdx == INVALID_INDEX && r.scbs[j] == s.scbs[j]
      && asked.calls == s.calls && down.calls == r.calls == s.calls + [PostedClose(i)]
  {
    var asked := Step(s, Stimulus(ReqOpen(j), btm));
    assert asked == s.(xfer := Some(j), state := CloseXferSt);
    DownIsLinkDown(asked, s.scbs[i].scoIdx, btm);
    var down := LinkDown(asked, s.scbs[i].scoIdx);
    assert down == Log(Put(asked, i, s.scbs[i].(inuseCodec := CODEC_NONE)), PostedClose(i));
    ClosedIsConnClosed(down, i, btm);
    ReopenOnlyWhileOpening(Put(down, i, down.scbs[i].(scoIdx := INVALID_INDEX)).(curr := None), i, btm);
  }

  /** The link of a retry with the safe settings comes up and goes down before either is reported: the
      disconnect callback finds the machine still opening and marks the block for CVSD, so that the loss is
      swallowed after the report of the link has opened the machine. It stays open without a link. */
  lemma OpenWithoutLink(s: SafeSco, i: Index, addr: Option<nat>, btm: Btm)
    requires Trying(s, i, ParamsMsbcT1)
    ensures
      var idx := s.scbs[i].scoIdx;
      var up := Step(s, Stimulus(BtmUp(idx, addr), btm));
      var down := Step(up, Stimulus(BtmDown(idx), btm));
      var heard := Step(down, Stimulus(EvOpened(i), btm));
      var r := Step(heard, Stimulus(EvClosed(i), btm));
      && up.calls == s.calls + [PostedOpen(i)] && r.calls == heard.calls == down.calls == up.calls + [PostedClose(i)]
      && heard.state == OpenSt && LinkReportedDown(heard, Stimulus(EvClosed(i), btm))
      && r.state == OpenSt && r.curr == None && r.scbs[i].scoIdx == INVALID_INDEX
  {
    UpThenDown(s, i, addr, btm);
    var down: SafeSco := Log(Log(Put(s, i, AfterFailure(s.scbs[i], true)), PostedOpen(i)), PostedClose(i));
    OpensWhileOpening(down, i, btm);
    var r := SwallowedClose(UseT2(down.(state := OpenSt), i), i, btm);
  }

  lemma UpThenDown(s: SafeSco, i: Index, addr: Option<nat>, btm: Btm)
    requires s.state == OpeningSt && s.curr == Some(i) && s.scbs[i].inUse
    ensures
      var up := Step(s, Stimulus(BtmUp(s.scbs[i].scoIdx, addr), btm));
      && up == Log(s, PostedOpen(i))
      && Step(up, Stimulus(BtmDown(s.scbs[i].scoIdx), btm)) ==
         Log(Log(Put(s, i, AfterFailure(s.scbs[i], true)), PostedOpen(i)), PostedClose(i))
  {
  }

  lemma OpensWhileOpening(s: SafeSco, i: Index, btm: Btm)
    requires s.state == OpeningSt && s.scbs[i].inUse
    ensures Step(s, Stimulus(EvOpened(i), btm)) == UseT2(s.(state := OpenSt), i)
  {
  }

  lemma SwallowedClose(s: SafeSco, i: Index, btm: Btm) returns (r: SafeSco)
    requires s.scbs[i].inUse && WantsRetry(s.scbs[i]) && s.state != OpeningSt
    ensures r == Step(s, Stimulus(EvClosed(i), btm))
    ensures r == Put(s, i, s.scbs[i].(scoIdx := INVALID_INDEX)).(curr := None)
  {
    ClosedIsConnClosed(s, i, btm);
    r := Step(s, Stimulus(EvClosed(i), btm));
    ReopenOnlyWhileOpening(Put(s, i, s.scbs[i].(scoIdx := INVALID_INDEX)).(curr := None), i, btm);
  }
}
