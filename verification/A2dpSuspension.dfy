/** Suspension and standby of an A2DP stream over whole interleavings (audio_a2dp_hw/src/audio_a2dp_hw.cc): a
    suspended stream is not started by a write, a stream on standby is. */
module A2dpSuspension {
  import opened A2dpStream
  import opened Transducers

  predicate Begins(e: Event) { e.WriteBegin? || e.ReadBegin? }

  /** Set-parameters asks a started stream to suspend, without closing, and the stack does not refuse. */
  predicate Suspends(s: Stream, e: Event) {
    !s.freed && s.state == Started && e.Parameters? && e.suspend && !e.closing && e.ack != AckFailed
  }

  /** Set-parameters closes, or resumes. */
  predicate ClosesOrResumes(e: Event) { e.Parameters? && (e.closing || !e.suspend) }

  predicate NoneAfter(es: seq<Event>, k: nat) { forall j :: k < j < |es| ==> !ClosesOrResumes(es[j]) }

  /** A stream becomes suspended by that call and no other. */
  lemma SuspendedEnteredIff(s: Stream, e: Event)
    requires s.state != Suspended
    ensures Step(s, e).state == Suspended <==> Suspends(s, e)
  {
  }

  lemma {:induction false} QuietWhileSuspended(s: Stream, es: seq<Event>)
    requires s.state == Suspended && forall k :: 0 <= k < |es| ==> !ClosesOrResumes(es[k])
    ensures Fold(Stepper(), s, es).state == Suspended
    ensures Starts(Fold(Stepper(), s, es).commands) == Starts(s.commands)
  {
    var starts := Starts(s.commands);
    var quiet := (t: Stream) => t.state == Suspended && Starts(t.commands) == starts;
    var ends := (t: Stream, e: Event) => ClosesOrResumes(e);
    forall t: Stream, e: Event ensures quiet(t) && !ends(t, e) ==> quiet(Stepper()(t, e)) {}
    FoldKeepsUnless(Stepper(), s, es, quiet, ends);
  }

  /** Once a stream has been suspended no start command is issued, whatever is written, read or put on
      standby, before set-parameters closes or resumes it. */
  lemma NoStartWhileSuspended(es: seq<Event>, k: nat)
    requires k < |es| && Suspends(After(es[..k]), es[k]) && NoneAfter(es, k)
    ensures After(es).state == Suspended && Starts(After(es).commands) == Starts(After(es[..k]).commands)
  {
    var s := After(es[..k]);
    var suspended := Step(s, es[k]);
    assert es[..k] + [es[k]] == es[..k + 1] && es[..k + 1] + es[k + 1..] == es;
    FoldConcat(Stepper(), Fresh(), es[..k], [es[k]]);
    FoldConcat(Stepper(), Fresh(), es[..k + 1], es[k + 1..]);
    QuietWhileSuspended(suspended, es[k + 1..]);
  }

  /** A stream that a write or read would start. */
  predicate Startable(s: Stream) { !s.freed && (s.state == Stopped || s.state == Standby) }

  /** Anything but a write, a read, a "closing" and a close. */
  predicate LeavesStartable(e: Event) { !Begins(e) && !e.CloseCall? && !(e.Parameters? && e.closing) }

  lemma StartableStep(s: Stream, e: Event)
    requires Startable(s) && LeavesStartable(e)
    ensures Startable(Step(s, e)) && Starts(Step(s, e).commands) == Starts(s.commands)
  {
  }

  /** Nothing but a write, a read, a "closing" or the close itself makes a stopped or standing-by stream stop
      being one that the next write starts. */
  lemma {:induction false} StartableUntil(s: Stream, es: seq<Event>)
    requires Startable(s)
    requires forall k :: 0 <= k < |es| ==> LeavesStartable(es[k])
    ensures
      var r := Fold(Stepper(), s, es);
      Startable(r) && Starts(r.commands) == Starts(s.commands)
  {
    var starts := Starts(s.commands);
    var ready := (t: Stream) => Startable(t) && Starts(t.commands) == starts;
    var ends := (t: Stream, e: Event) => !LeavesStartable(e);
    forall t: Stream, e: Event | ready(t) && !ends(t, e) ensures ready(Stepper()(t, e)) { StartableStep(t, e); }
    FoldKeepsUnless(Stepper(), s, es, ready, ends);
  }

  lemma WriteStarts(s: Stream, write: Event)
    requires Startable(s) && Begins(write)
    ensures
      var r := Step(s, write);
      && r.commands == s.commands + [CmdStart]
      && (write.ack == AckSuccess && write.socket.Some? ==> r.state == Started)
      && (write.ack != AckSuccess ==> r.state == s.state)
  {
  }

  /** A stream on standby is started by the next write or read, whatever comes in between. */
  lemma NextWriteStarts(s: Stream, es: seq<Event>, write: Event)
    requires !s.freed && s.state == Standby && Begins(write)
    requires forall k :: 0 <= k < |es| ==> LeavesStartable(es[k])
    ensures
      var waiting := Fold(Stepper(), s, es);
      var r := Step(waiting, write);
      && Starts(r.commands) == Starts(s.commands) + 1
      && (write.ack == AckSuccess && write.socket.Some? ==> r.state == Started)
      && (write.ack != AckSuccess ==> r.state == waiting.state)
  {
    StartableUntil(s, es);
    WriteStarts(Fold(Stepper(), s, es), write);
  }

  /** Any interleaving on the stream itself: while the stream is suspended no start command is issued. */
  method PlaySuspended(es: seq<Event>, k: nat) returns (stream: AudioStream)
    requires k < |es| && Suspends(After(es[..k]), es[k]) && NoneAfter(es, k)
    ensures stream.Snap() == After(es)
    ensures stream.state == Suspended && Starts(stream.commands) == Starts(After(es[..k]).commands)
  {
    stream := Play(es);
    NoStartWhileSuspended(es, k);
  }
}
