/** The A2DP streams of the audio HAL (audio_a2dp_hw/src/audio_a2dp_hw.cc). The lock of a stream is
    dropped while a write or a read blocks on the data socket, so either is two steps with anything in
    between. A read is a write of no frames as far as the stream is concerned. */
module A2dpStream {
  import opened Collections
  import opened Transducers

  datatype State = Starting | Started | Stopping | Stopped | Suspended | Standby

  datatype Command = CmdStart | CmdStop | CmdSuspend

  /** What a2dp_command returns: zero, the in-call code, or a negative number. */
  datatype Ack = AckSuccess | AckInCall | AckFailed

  /** A call that is blocked on the socket: its frames, and which of the sockets it began on. */
  datatype Blocked = Blocked(frames: nat, epoch: nat)

  /** The stream as its lock protects it. `epoch` counts the data sockets connected so far, `sending` holds
      the calls that are blocked, and `requested` adds up the frames of all writes begun. */
  datatype Stream = Stream(state: State, audioFd: Option<nat>, epoch: nat, rendered: nat, presented: nat,
                           sending: seq<Blocked>, requested: nat, commands: seq<Command>, freed: bool)

  function Fresh(): Stream { Stream(Stopped, None, 0, 0, 0, [], 0, [], false) }

  // ----- the data path

  /** start_audio_datapath; `socket` is what connecting the data socket gives. */
  function Start(s: Stream, ack: Ack, socket: Option<nat>): (Stream, bool) {
    var s1 := s.(commands := s.commands + [CmdStart]);
    if ack != AckSuccess then (s1, false)
    else if s.audioFd.Some? then (s1.(state := Started), true)
    else if socket.None? then (s1, false)
    else (s1.(audioFd := socket, epoch := s.epoch + 1, state := Started), true)
  }

  /** stop_audio_datapath: only a negative result counts as a failure. */
  function Stop(s: Stream, ack: Ack): Stream {
    var s1 := s.(commands := s.commands + [CmdStop]);
    if ack == AckFailed then s1 else s1.(state := Stopped, audioFd := None)
  }

  /** suspend_audio_datapath. */
  function Suspend(s: Stream, standby: bool, ack: Ack): Stream {
    if s.state == Stopping then s
    else
      var s1 := s.(commands := s.commands + [CmdSuspend]);
      if ack == AckFailed then s1
      else s1.(state := if standby then Standby else Suspended, audioFd := None)
  }

  // ----- the critical sections

  function Finish(s: Stream, frames: nat): Stream {
    s.(rendered := s.rendered + frames, presented := s.presented + frames)
  }

  /** out_write up to the point where the lock is dropped. */
  function WriteBegins(s: Stream, frames: nat, ack: Ack, socket: Option<nat>): Stream {
    var s0 := s.(requested := s.requested + frames);
    match s.state
    case Started => s0.(sending := s.sending + [Blocked(frames, s.epoch)])
    case Stopped | Standby =>
      var (s1, started) := Start(s0, ack, socket);
      if started then s1.(sending := s.sending + [Blocked(frames, s1.epoch)]) else Finish(s1, frames)
    case _ => Finish(s0, frames)
  }

  /** out_write from the point where the lock is taken again, for the k-th blocked write. */
  function WriteEnds(s: Stream, k: nat, sent: bool): Stream
    requires k < |s.sending|
  {
    var s1 := s.(sending := s.sending[..k] + s.sending[k + 1..]);
    var s2 :=
      if sent then s1
      else if s.state == Suspended || s.state == Stopping then s1.(audioFd := None)
      else s1.(audioFd := None, state := Stopped);
    Finish(s2, s.sending[k].frames)
  }

  /** out_standby. */
  function GoStandby(s: Stream, ack: Ack): Stream {
    (if s.state == Suspended then s else Suspend(s, true, ack)).(rendered := 0)
  }

  /** out_set_parameters. */
  function SetParameters(s: Stream, closing: bool, suspend: bool, ack: Ack): Stream {
    var s1 := if closing then s.(state := Stopping) else s;
    if suspend then if s1.state == Started then Suspend(s1, false, ack) else s1
    else if s1.state == Suspended then s1.(state := Standby) else s1
  }

  /** adev_close_output_stream. */
  function Close(s: Stream, ack: Ack): Stream {
    (if s.state == Started || s.state == Stopping then Stop(s, ack) else s).(freed := true)
  }

  datatype Event =
    | WriteBegin(frames: nat, ack: Ack, socket: Option<nat>)
    | WriteEnd(k: nat, sent: bool)
    | ReadBegin(ack: Ack, socket: Option<nat>)
    | ReadEnd(k: nat, got: int)
    | StandbyCall(ack: Ack)
    | Parameters(closing: bool, suspend: bool, ack: Ack)
    | CloseCall(ack: Ack)

  /** One critical section. Nothing touches a stream that has been freed. */
  function Step(s: Stream, e: Event): Stream {
    if s.freed then s
    else match e
      case WriteBegin(frames, ack, socket) => WriteBegins(s, frames, ack, socket)
      case WriteEnd(k, sent) => if k < |s.sending| then WriteEnds(s, k, sent) else s
      case ReadBegin(ack, socket) => WriteBegins(s, 0, ack, socket)
      case ReadEnd(k, got) => if k < |s.sending| && s.sending[k].frames == 0 then WriteEnds(s, k, got != -1) else s
      case StandbyCall(ack) => GoStandby(s, ack)
      case Parameters(closing, suspend, ack) => SetParameters(s, closing, suspend, ack)
      case CloseCall(ack) => Close(s, ack)
  }

  function Stepper(): (Stream, Event) -> Stream { (s: Stream, e: Event) => Step(s, e) }

  /** The stream after any interleaving of its callers. */
  function After(es: seq<Event>): Stream { Fold(Stepper(), Fresh(), es) }

  // ----- the socket and the state

  /** A started stream has its data socket, and a data socket is only open while the stream is
      started or being stopped. */
  predicate Sound(s: Stream) {
    && s.state != Starting
    && (s.state == Started ==> s.audioFd.Some?)
    && (s.audioFd.Some? ==> s.state == Started || s.state == Stopping)
  }

  lemma SocketMatchesState(es: seq<Event>)
    ensures Sound(After(es))
  {
    forall s: Stream, e: Event ensures Sound(s) ==> Sound(Stepper()(s, e)) {}
    FoldKeeps(Stepper(), Fresh(), es, s => Sound(s));
  }

  /** A suspended stream is left in that state by every call except set-parameters, and by that one
      unless it asks for suspension and does not announce closing. */
  lemma SuspendedLeftIff(s: Stream, e: Event)
    requires s.state == Suspended && !s.freed
    ensures Step(s, e).state != Suspended <==> e.Parameters? && (e.closing || !e.suspend)
  {
  }

  // ----- whose socket a failing call closes

  /** The data socket that was connected as number `epoch` is still the stream's. */
  predicate Holds(s: Stream, epoch: nat) { s.audioFd.Some? && s.epoch == epoch }

  /** The calls that close the data socket: a write or read that fails, a standby, suspension or stop that
      the stack does not refuse. */
  predicate Closing(s: Stream, e: Event) {
    !s.freed &&
    match e
    case WriteEnd(k, sent) => k < |s.sending| && !sent
    case ReadEnd(k, got) => k < |s.sending| && s.sending[k].frames == 0 && got == -1
    case StandbyCall(ack) => s.state != Suspended && s.state != Stopping && ack != AckFailed
    case Parameters(closing, suspend, ack) => !closing && suspend && s.state == Started && ack != AckFailed
    case CloseCall(ack) => (s.state == Started || s.state == Stopping) && ack != AckFailed
    case _ => false
  }

  lemma HoldsStep(s: Stream, e: Event, epoch: nat)
    requires Sound(s) && epoch <= s.epoch
    ensures Sound(Step(s, e)) && epoch <= Step(s, e).epoch
    ensures Holds(Step(s, e), epoch) <==> Holds(s, epoch) && !Closing(s, e)
  {
  }

  /** Whatever happens while a call is blocked, the socket it began on is still the stream's when it comes
      back if and only if no call closed it meanwhile. A call that fails closes the stream's socket, so this
      says exactly when it closes its own. */
  lemma ClosesOwnSocketIff(s: Stream, es: seq<Event>)
    requires Sound(s) && s.audioFd.Some?
    ensures Holds(Fold(Stepper(), s, es), s.epoch) <==>
            forall m :: 0 <= m < |es| ==> !Closing(Fold(Stepper(), s, es[..m]), es[m])
  {
    var inv := (t: Stream) => Sound(t) && s.epoch <= t.epoch;
    var held := (t: Stream) => Holds(t, s.epoch);
    var closing := (t: Stream, e: Event) => Closing(t, e);
    forall t: Stream, e: Event
      ensures inv(t) ==> inv(Stepper()(t, e)) && (held(Stepper()(t, e)) <==> held(t) && !closing(t, e))
    {
      if inv(t) { HoldsStep(t, e, s.epoch); }
    }
    FoldHoldsIff(Stepper(), s, es, inv, held, closing);
    assert forall m :: 0 <= m < |es| ==>
      (closing(Fold(Stepper(), s, es[..m]), es[m]) <==> Closing(Fold(Stepper(), s, es[..m]), es[m]));
  }

  /** A write that blocks leaves the stream holding the socket it blocks on. */
  lemma BlocksOnOwnSocket(s: Stream, frames: nat, ack: Ack, socket: Option<nat>)
    requires Sound(s)
    ensures
      var r := WriteBegins(s, frames, ack, socket);
      r.sending != s.sending ==> r.sending == s.sending + [Blocked(frames, r.epoch)] && Holds(r, r.epoch)
  {
  }

  /** It does close another one: a standby and a restart come between, and the first write's failure takes
      the socket from the second, which is still blocked on it. */
  lemma ClosesForeignSocket(frames: nat, fd: nat, fd': nat)
    ensures
      var es := [WriteBegin(frames, AckSuccess, Some(fd))] + [StandbyCall(AckSuccess)] +
                [WriteBegin(frames, AckSuccess, Some(fd'))];
      var before, after := After(es), After(es + [WriteEnd(0, false)]);
      && before.audioFd == Some(fd') && before.sending == [Blocked(frames, 1), Blocked(frames, 2)]
      && after.audioFd == None && after.state == Stopped && after.sending == [Blocked(frames, 2)]
  {
    var e0, e1, e2 := WriteBegin(frames, AckSuccess, Some(fd)), StandbyCall(AckSuccess),
                      WriteBegin(frames, AckSuccess, Some(fd'));
    AfterSnoc([], e0);
    assert [] + [e0] == [e0];
    AfterSnoc([e0], e1);
    AfterSnoc([e0] + [e1], e2);
    AfterSnoc([e0] + [e1] + [e2], WriteEnd(0, false));
  }

  lemma AfterSnoc(es: seq<Event>, e: Event)
    ensures After(es + [e]) == Step(After(es), e)
  {
  }

  // ----- closing

  function Starts(commands: seq<Command>): nat {
    if commands == [] then 0
    else Starts(commands[..|commands| - 1]) + if commands[|commands| - 1] == CmdStart then 1 else 0
  }

  predicate Shut(s: Stream) { s.freed || s.state == Stopping }

  lemma ShutStaysShut(s: Stream, e: Event)
    requires Shut(s)
    ensures Shut(Step(s, e)) && Starts(Step(s, e).commands) == Starts(s.commands)
  {
  }

  lemma {:induction false} ShutForever(s: Stream, es: seq<Event>)
    requires Shut(s)
    ensures
      var r := Fold(Stepper(), s, es);
      Shut(r) && Starts(r.commands) == Starts(s.commands)
    decreases |es|
  {
    if es != [] {
      ShutForever(s, es[..|es| - 1]);
      ShutStaysShut(Fold(Stepper(), s, es[..|es| - 1]), es[|es| - 1]);
    }
  }

  /** Once "closing" has been announced no start command is issued again, whatever writes are under
      way or come later. */
  lemma NoStartAfterClosing(es: seq<Event>, k: nat)
    requires k < |es| && es[k].Parameters? && es[k].closing
    ensures Starts(After(es).commands) == Starts(After(es[..k]).commands)
  {
    var s := After(es[..k]);
    var closed := Step(s, es[k]);
    assert es[..k] + [es[k]] == es[..k + 1] && es[..k + 1] + es[k + 1..] == es;
    FoldConcat(Stepper(), Fresh(), es[..k], [es[k]]);
    FoldConcat(Stepper(), Fresh(), es[..k + 1], es[k + 1..]);
    ShutForever(closed, es[k + 1..]);
  }

  // ----- frames

  function Sum(calls: seq<Blocked>): nat {
    if calls == [] then 0 else Sum(calls[..|calls| - 1]) + calls[|calls| - 1].frames
  }

  lemma {:induction false} SumWithout(calls: seq<Blocked>, k: nat)
    requires k < |calls|
    ensures Sum(calls[..k] + calls[k + 1..]) + calls[k].frames == Sum(calls)
    decreases |calls|
  {
    var n := |calls| - 1;
    if k == n {
      assert calls[..k] + calls[k + 1..] == calls[..n];
    } else {
      SumWithout(calls[..n], k);
      assert (calls[..k] + calls[k + 1..])[..n - 1] == calls[..n][..k] + calls[..n][k + 1..];
    }
  }

  lemma SumSnoc(calls: seq<Blocked>, c: Blocked)
    ensures Sum(calls + [c]) == Sum(calls) + c.frames
  {
    assert (calls + [c])[..|calls|] == calls;
  }

  /** Every frame handed over is either presented or in a write that is still blocked. */
  predicate FramesAddUp(s: Stream) { s.presented + Sum(s.sending) == s.requested }

  lemma BeginFrames(s: Stream, frames: nat, ack: Ack, socket: Option<nat>)
    requires FramesAddUp(s)
    ensures FramesAddUp(WriteBegins(s, frames, ack, socket))
  {
    var r := WriteBegins(s, frames, ack, socket);
    BlockedOrFinished(s, frames, ack, socket);
    if r.sending != s.sending { SumSnoc(s.sending, Blocked(frames, r.epoch)); }
  }

  lemma BlockedOrFinished(s: Stream, frames: nat, ack: Ack, socket: Option<nat>)
    ensures
      var r := WriteBegins(s, frames, ack, socket);
      && r.requested == s.requested + frames
      && ((r.sending == s.sending && r.presented == s.presented + frames) ||
          (r.sending == s.sending + [Blocked(frames, r.epoch)] && r.presented == s.presented))
  {
  }

  lemma EndFrames(s: Stream, k: nat, sent: bool)
    requires FramesAddUp(s) && k < |s.sending|
    ensures FramesAddUp(WriteEnds(s, k, sent))
  {
    SumWithout(s.sending, k);
    var r := WriteEnds(s, k, sent);
    assert r.presented == s.presented + s.sending[k].frames && r.requested == s.requested;
  }

  lemma StepFrames(s: Stream, e: Event)
    requires FramesAddUp(s)
    ensures FramesAddUp(Step(s, e))
  {
    match e
    case WriteBegin(frames, ack, socket) => BeginFrames(s, frames, ack, socket);
    case WriteEnd(k, sent) => if k < |s.sending| { EndFrames(s, k, sent); }
    case ReadBegin(ack, socket) => BeginFrames(s, 0, ack, socket);
    case ReadEnd(k, got) => if k < |s.sending| { EndFrames(s, k, got != -1); }
    case _ =>
      assert Step(s, e).sending == s.sending && Step(s, e).presented == s.presented;
  }

  /** No interleaving loses frames or counts them twice, whether or not the writes succeed. */
  lemma {:induction false} FramesConserved(es: seq<Event>)
    ensures FramesAddUp(After(es))
    decreases |es|
  {
    if es != [] {
      var n := |es| - 1;
      FramesConserved(es[..n]);
      StepFrames(After(es[..n]), es[n]);
      assert After(es) == Step(After(es[..n]), es[n]);
    }
  }

  // ----- the stream itself

  class AudioStream {
    var state: State
    var audioFd: Option<nat>
    var framesRendered: nat
    var framesPresented: nat
    ghost var epoch: nat
    ghost var sending: seq<Blocked>
    ghost var requested: nat
    ghost var commands: seq<Command>
    ghost var freed: bool

    ghost function Snap(): Stream
      reads this
    {
      Stream(state, audioFd, epoch, framesRendered, framesPresented, sending, requested, commands, freed)
    }

    /** a2dp_stream_common_init. */
    constructor ()
      ensures Snap() == Fresh()
    {
      state, audioFd, framesRendered, framesPresented := Stopped, None, 0, 0;
      epoch, sending, requested, commands, freed := 0, [], 0, [], false;
    }

    method StartAudioDatapath(ack: Ack, socket: Option<nat>) returns (ok: bool)
      modifies this
      ensures (Snap(), ok) == Start(old(Snap()), ack, socket)
    {
      var oldstate := state;
      state := Starting;
      commands := commands + [CmdStart];
      if ack != AckSuccess {
        state := oldstate;
        return false;
      }
      if audioFd.None? {
        audioFd := socket;
        if audioFd.None? {
          state := oldstate;
          return false;
        }
        epoch := epoch + 1;
      }
      state := Started;
      return true;
    }

    method StopAudioDatapath(ack: Ack)
      modifies this
      ensures Snap() == Stop(old(Snap()), ack)
    {
      var oldstate := state;
      state := Stopping;
      commands := commands + [CmdStop];
      if ack == AckFailed {
        state := oldstate;
        return;
      }
      state := Stopped;
      audioFd := None;
    }

    method SuspendAudioDatapath(standby: bool, ack: Ack)
      modifies this
      ensures Snap() == Suspend(old(Snap()), standby, ack)
    {
      if state == Stopping { return; }
      commands := commands + [CmdSuspend];
      if ack == AckFailed { return; }
      if standby { state := Standby; } else { state := Suspended; }
      audioFd := None;
    }

    /** out_write before the lock is dropped; `blocked` says the write goes on to the socket. */
    method OutWriteBegin(frames: nat, ack: Ack, socket: Option<nat>) returns (blocked: bool)
      modifies this
      ensures Snap() == WriteBegins(old(Snap()), frames, ack, socket)
      ensures blocked == (sending == old(sending) + [Blocked(frames, epoch)])
    {
      requested := requested + frames;
      blocked := true;
      if state == Suspended || state == Stopping {
        blocked := false;
      } else if state == Stopped || state == Standby {
        blocked := StartAudioDatapath(ack, socket);
      } else if state != Started {
        blocked := false;
      }
      if blocked {
        sending := sending + [Blocked(frames, epoch)];
      } else {
        framesRendered := framesRendered + frames;
        framesPresented := framesPresented + frames;
      }
    }

    /** out_write after the lock has been taken again. */
    method OutWriteEnd(ghost k: nat, frames: nat, sent: bool)
      requires k < |sending| && sending[k].frames == frames
      modifies this
      ensures Snap() == WriteEnds(old(Snap()), k, sent)
    {
      sending := sending[..k] + sending[k + 1..];
      if !sent {
        audioFd := None;
        if state != Suspended && state != Stopping {
          state := Stopped;
        }
      }
      framesRendered := framesRendered + frames;
      framesPresented := framesPresented + frames;
    }

    /** in_read before the lock is dropped; if it does not block it gives zeros, as if all had come. */
    method InReadBegin(ack: Ack, socket: Option<nat>) returns (blocked: bool)
      modifies this
      ensures Snap() == WriteBegins(old(Snap()), 0, ack, socket)
      ensures blocked == (sending == old(sending) + [Blocked(0, epoch)])
    {
      blocked := true;
      if state == Suspended || state == Stopping {
        blocked := false;
      } else if state == Stopped || state == Standby {
        blocked := StartAudioDatapath(ack, socket);
      } else if state != Started {
        blocked := false;
      }
      if blocked {
        sending := sending + [Blocked(0, epoch)];
      }
    }

    /** in_read after the lock has been taken again; `got` is what the socket gave: -1 for a failure,
        zero for a time-out, or a number of octets. */
    method InReadEnd(ghost k: nat, got: int, bytes: nat) returns (n: int)
      requires k < |sending| && sending[k].frames == 0
      modifies this
      ensures Snap() == WriteEnds(old(Snap()), k, got != -1)
      ensures n == if got == -1 || got == 0 then bytes else got
    {
      sending := sending[..k] + sending[k + 1..];
      n := got;
      if got == -1 {
        audioFd := None;
        if state != Suspended && state != Stopping {
          state := Stopped;
        }
        n := bytes;
      } else if got == 0 {
        n := bytes;
      }
    }

    method OutStandby(ack: Ack)
      modifies this
      ensures Snap() == GoStandby(old(Snap()), ack)
    {
      if state != Suspended {
        SuspendAudioDatapath(true, ack);
      }
      framesRendered := 0;
    }

    method OutSetParameters(closing: bool, suspend: bool, ack: Ack)
      modifies this
      ensures Snap() == SetParameters(old(Snap()), closing, suspend, ack)
    {
      if closing {
        state := Stopping;
      }
      if suspend {
        if state == Started { SuspendAudioDatapath(false, ack); }
      } else {
        if state == Suspended { state := Standby; }
      }
    }

    /** adev_close_output_stream, and adev_close_input_stream, which does the same. */
    method CloseStream(ack: Ack)
      modifies this
      ensures Snap() == Close(old(Snap()), ack)
    {
      if state == Started || state == Stopping {
        StopAudioDatapath(ack);
      }
      freed := true;
    }
  }

  ghost predicate Counts(frames: seq<nat>, calls: seq<Blocked>) {
    |frames| == |calls| && forall k :: 0 <= k < |calls| ==> frames[k] == calls[k].frames
  }

  /** One critical section on the stream itself; `waiting` holds the frame counts of the calls that are
      blocked on the socket. */
  method Handle(stream: AudioStream, waiting: seq<nat>, e: Event) returns (left: seq<nat>)
    requires Counts(waiting, stream.sending) && !stream.freed
    modifies stream
    ensures Counts(left, stream.sending) && stream.Snap() == Step(old(stream.Snap()), e)
  {
    left := waiting;
    match e
    case WriteBegin(frames, ack, socket) =>
      var blocked := stream.OutWriteBegin(frames, ack, socket);
      if blocked { left := left + [frames]; }
    case WriteEnd(k, sent) =>
      if k < |waiting| {
        stream.OutWriteEnd(k, waiting[k], sent);
        left := waiting[..k] + waiting[k + 1..];
      }
    case ReadBegin(ack, socket) =>
      var blocked := stream.InReadBegin(ack, socket);
      if blocked { left := left + [0]; }
    case ReadEnd(k, got) =>
      if k < |waiting| && waiting[k] == 0 {
        var _ := stream.InReadEnd(k, got, 0);
        left := waiting[..k] + waiting[k + 1..];
      }
    case StandbyCall(ack) => stream.OutStandby(ack);
    case Parameters(closing, suspend, ack) => stream.OutSetParameters(closing, suspend, ack);
    case CloseCall(ack) => stream.CloseStream(ack);
  }

  /** Any interleaving, on the stream itself: the specification is followed, state and socket agree,
      no frame is lost, and no start command comes after "closing". */
  method Play(es: seq<Event>) returns (stream: AudioStream)
    ensures stream.Snap() == After(es) && Sound(stream.Snap()) && FramesAddUp(stream.Snap())
    ensures forall k :: 0 <= k < |es| && es[k].Parameters? && es[k].closing ==>
              Starts(stream.commands) == Starts(After(es[..k]).commands)
  {
    stream := new AudioStream();
    var waiting: seq<nat> := [];
    var freed := false;
    for n := 0 to |es|
      invariant stream.Snap() == After(es[..n]) && Counts(waiting, stream.sending) && freed == stream.freed
    {
      if !freed {
        waiting := Handle(stream, waiting, es[n]);
        freed := es[n].CloseCall?;
      }
      assert es[..n + 1][..n] == es[..n];
    }
    assert es[..|es|] == es;
    SocketMatchesState(es);
    FramesConserved(es);
    forall k | 0 <= k < |es| && es[k].Parameters? && es[k].closing
      ensures Starts(After(es).commands) == Starts(After(es[..k]).commands)
    {
      NoStartAfterClosing(es, k);
    }
  }
}
