/** What each critical section of an A2DP stream leads to (audio_a2dp_hw/src/audio_a2dp_hw.cc): how each
    state is entered, when each command is issued, and when a socket is connected. */
module A2dpCells {
  import opened A2dpStream
  import opened A2dpSuspension

  /** A write or a read comes to a stream that it would start. */
  predicate TriesToStart(s: Stream, e: Event) { Startable(s) && Begins(e) }

  /** The stack accepts, and there is a data socket, an old one or a new one. */
  predicate StartWorks(s: Stream, e: Event)
    requires Begins(e)
  {
    e.ack == AckSuccess && (s.audioFd.Some? || e.socket.Some?)
  }

  /** A stream starts only by such a write or read. */
  lemma StartedEnteredIff(s: Stream, e: Event)
    requires s.state != Started
    ensures Step(s, e).state == Started <==> TriesToStart(s, e) && StartWorks(s, e)
  {
  }

  /** A stream goes to standby by a standby call that is not refused, unless it is suspended or stopping, or by
      being resumed. */
  lemma StandbyEnteredIff(s: Stream, e: Event)
    requires s.state != Standby
    ensures Step(s, e).state == Standby <==>
              && !s.freed
              && ((e.StandbyCall? && s.state != Suspended && s.state != Stopping && e.ack != AckFailed) ||
                  (e.Parameters? && !e.closing && !e.suspend && s.state == Suspended))
  {
  }

  /** A stream is stopping from the moment "closing" is announced. */
  lemma StoppingEnteredIff(s: Stream, e: Event)
    requires s.state != Stopping
    ensures Step(s, e).state == Stopping <==> !s.freed && e.Parameters? && e.closing
  {
  }

  /** The end of a write or read that failed. */
  predicate FailedEnd(s: Stream, e: Event) {
    (e.WriteEnd? && e.k < |s.sending| && !e.sent) ||
    (e.ReadEnd? && e.k < |s.sending| && s.sending[e.k].frames == 0 && e.got == -1)
  }

  /** A stream stops when a write or read fails on it, unless it is suspended or stopping, or when it is closed
      and the stack does not refuse. */
  lemma StoppedEnteredIff(s: Stream, e: Event)
    requires s.state != Stopped
    ensures Step(s, e).state == Stopped <==>
              && !s.freed
              && ((FailedEnd(s, e) && s.state != Suspended && s.state != Stopping) ||
                  (e.CloseCall? && (s.state == Started || s.state == Stopping) && e.ack != AckFailed))
  {
  }

  /** The command a call issues, if it issues one. */
  predicate Issues(s: Stream, e: Event, c: Command) {
    match c
    case CmdStart => TriesToStart(s, e)
    case CmdStop => !s.freed && e.CloseCall? && (s.state == Started || s.state == Stopping)
    case CmdSuspend =>
      && !s.freed
      && ((e.StandbyCall? && s.state != Suspended && s.state != Stopping) ||
          (e.Parameters? && e.suspend && !e.closing && s.state == Started))
  }

  /** Each command is issued in exactly these situations, one at a time, and no call takes one back. */
  lemma CommandsIssued(s: Stream, e: Event)
    ensures
      var r := Step(s, e);
      && (forall c :: Issues(s, e, c) ==> r.commands == s.commands + [c])
      && ((forall c :: !Issues(s, e, c)) ==> r.commands == s.commands)
  {
    if Issues(s, e, CmdStart) {
    } else if Issues(s, e, CmdStop) {
    } else if Issues(s, e, CmdSuspend) {
    }
  }

  /** A new data socket is connected exactly when a start is accepted and there is none; the stream then has
      the one that was connected. */
  lemma SocketConnectedIff(s: Stream, e: Event)
    ensures
      var r := Step(s, e);
      && (r.epoch != s.epoch <==> TriesToStart(s, e) && e.ack == AckSuccess && s.audioFd.None? && e.socket.Some?)
      && (r.epoch != s.epoch ==> r.epoch == s.epoch + 1 && r.audioFd == e.socket)
  {
  }

  /** A write or read goes on to the socket exactly when the stream is started or it starts it. */
  lemma BlocksIff(s: Stream, e: Event)
    requires !s.freed && Begins(e)
    ensures
      var r := Step(s, e);
      var frames := if e.WriteBegin? then e.frames else 0;
      && r.requested == s.requested + frames
      && r.sending ==
           if s.state == Started || (TriesToStart(s, e) && StartWorks(s, e)) then s.sending + [Blocked(frames, r.epoch)]
           else s.sending
  {
  }

  /** Frames presented are never taken back; frames rendered go back to zero at a standby call and otherwise
      grow with them. */
  lemma RenderedSinceStandby(s: Stream, e: Event)
    ensures
      var r := Step(s, e);
      && r.presented >= s.presented
      && (!s.freed && e.StandbyCall? ==> r.rendered == 0 && r.presented == s.presented)
      && (s.freed || !e.StandbyCall? ==> r.rendered - s.rendered == r.presented - s.presented)
  {
  }
}
