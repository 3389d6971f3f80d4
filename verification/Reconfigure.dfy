/** Retries after a reconfigure request: bta_av_reconfig and the three handlers bta_av_rcfg_failed,
    bta_av_rcfg_connect and bta_av_rcfg_discntd (bta/av/bta_av_aact.cc). */
module Reconfigure {
  import opened Transducers

  const RECONFIG_RETRY: nat := 6

  datatype Call =
    | ConnectReq
    | DisconnectReq
    | ConnectDeferred      // an incoming connection is being waited for
    | ReportFailure

  /** The retry counter, eight bits wide, and what has been requested since the reconfigure request. */
  datatype Retry = Retry(numRecfg: nat, calls: seq<Call>)

  /** Which handler runs, and what it finds: whether the signalling link is up, and whether an
      incoming connection is being waited for. */
  datatype Event =
    | OpenFailed(linkUp: bool, colliding: bool)
    | StreamClosed
    | Disconnected

  function Increment(n: nat): nat { (n + 1) % 256 }

  function HandleFailed(r: Retry, linkUp: bool, colliding: bool): Retry {
    if r.numRecfg > RECONFIG_RETRY then r.(calls := r.calls + [ReportFailure])
    else
      var call := if linkUp then DisconnectReq else if colliding then ConnectDeferred else ConnectReq;
      Retry(Increment(r.numRecfg), r.calls + [call])
  }

  function HandleClosed(r: Retry): Retry {
    var r1 := r.(numRecfg := Increment(r.numRecfg));
    if r1.numRecfg > RECONFIG_RETRY then HandleFailed(r1, false, false)
    else r1.(calls := r.calls + [ConnectReq])
  }

  function HandleDisconnected(r: Retry): Retry {
    var n := Increment(r.numRecfg);
    Retry(n, r.calls + [if n > RECONFIG_RETRY then ReportFailure else ConnectReq])
  }

  function Step(r: Retry, e: Event): Retry {
    match e
    case OpenFailed(linkUp, colliding) => HandleFailed(r, linkUp, colliding)
    case StreamClosed => HandleClosed(r)
    case Disconnected => HandleDisconnected(r)
  }

  /** A reconfigure request, then any interleaving of the handlers. */
  function After(events: seq<Event>): Retry {
    Fold((r: Retry, e: Event) => Step(r, e), Retry(0, []), events)
  }

  /** As long as no failure is reported, the counter has counted every retry, and there are at most seven. */
  predicate Counted(r: Retry) {
    ReportFailure !in r.calls ==> r.numRecfg == |r.calls| <= RECONFIG_RETRY + 1
  }

  lemma StepCounted(r: Retry, e: Event)
    requires Counted(r)
    ensures Counted(Step(r, e)) && |Step(r, e).calls| == |r.calls| + 1 && r.calls <= Step(r, e).calls
  {
  }

  lemma {:induction false} AfterCounted(events: seq<Event>)
    ensures Counted(After(events)) && |After(events).calls| == |events|
    decreases |events|
  {
    if events != [] {
      AfterCounted(events[..|events| - 1]);
      StepCounted(After(events[..|events| - 1]), events[|events| - 1]);
    }
  }

  lemma {:induction false} EarlierCalls(events: seq<Event>, k: nat)
    requires k <= |events|
    ensures After(events[..k]).calls <= After(events).calls
    decreases |events|
  {
    if k == |events| {
      assert events[..k] == events;
    } else {
      var init := events[..|events| - 1];
      EarlierCalls(init, k);
      assert init[..k] == events[..k];
      AfterCounted(init);
      StepCounted(After(init), events[|events| - 1]);
    }
  }

  /** However the handlers interleave, the eighth event at the latest reports failure, so at most
      seven retries are requested before the report. */
  lemma AtMostSevenRetries(events: seq<Event>)
    requires |events| >= RECONFIG_RETRY + 2
    ensures |After(events).calls| == |events|
    ensures ReportFailure in After(events).calls[..RECONFIG_RETRY + 2]
  {
    var first := events[..RECONFIG_RETRY + 2];
    AfterCounted(first);
    AfterCounted(events);
    EarlierCalls(events, RECONFIG_RETRY + 2);
    assert After(first).calls == After(events).calls[..RECONFIG_RETRY + 2];
  }

  /** What the handlers ask for, as long as no failure has been reported, goes by the number of events alone and
      what is found: the eighth failed attempt to open, or the seventh close or disconnect, is reported, and
      anything earlier is tried again. */
  predicate Expected(k: nat, e: Event, call: Call) {
    match e
    case OpenFailed(linkUp, colliding) =>
      && (call == ReportFailure <==> k > RECONFIG_RETRY)
      && (call == DisconnectReq <==> k <= RECONFIG_RETRY && linkUp)
      && (call == ConnectDeferred <==> k <= RECONFIG_RETRY && !linkUp && colliding)
      && (call == ConnectReq <==> k <= RECONFIG_RETRY && !linkUp && !colliding)
    case _ =>
      (call == ReportFailure <==> k >= RECONFIG_RETRY) && (call == ConnectReq <==> k < RECONFIG_RETRY)
  }

  lemma CallIsExpected(events: seq<Event>, k: nat)
    requires k < |events| && ReportFailure !in After(events[..k]).calls
    ensures k < |After(events).calls| && Expected(k, events[k], After(events).calls[k])
  {
    var before, next := events[..k], events[..k + 1];
    AfterCounted(before);
    AfterCounted(next);
    assert next[..k] == before;
    EarlierCalls(events, k + 1);
    assert After(next) == Step(After(before), events[k]);
  }

  function Failures(n: nat): seq<Event> { seq(n, k => OpenFailed(false, false)) }

  /** Seven retries do happen: when every attempt to open fails. */
  lemma {:induction false} SevenRetriesHappen(n: nat)
    requires n <= RECONFIG_RETRY + 1
    ensures After(Failures(n)) == Retry(n, seq(n, k => ConnectReq))
  {
    if n > 0 {
      SevenRetriesHappen(n - 1);
      assert Failures(n)[..n - 1] == Failures(n - 1);
    }
  }

  class ReconfigControl {
    var numRecfg: nat
    ghost var calls: seq<Call>

    ghost function Snap(): Retry
      reads this
    {
      Retry(numRecfg, calls)
    }

    /** The start of bta_av_reconfig. */
    method Reconfig()
      modifies this
      ensures Snap() == After([])
    {
      numRecfg := 0;
      calls := [];
    }

    method RcfgFailed(linkUp: bool, colliding: bool)
      modifies this
      ensures Snap() == HandleFailed(old(Snap()), linkUp, colliding)
    {
      if numRecfg > RECONFIG_RETRY {
        calls := calls + [ReportFailure];
      } else {
        numRecfg := (numRecfg + 1) % 256;
        if linkUp {
          calls := calls + [DisconnectReq];
        } else if colliding {
          calls := calls + [ConnectDeferred];
        } else {
          calls := calls + [ConnectReq];
        }
      }
    }

    method RcfgConnect()
      modifies this
      ensures Snap() == HandleClosed(old(Snap()))
    {
      numRecfg := (numRecfg + 1) % 256;
      if numRecfg > RECONFIG_RETRY {
        RcfgFailed(false, false);
      } else {
        calls := calls + [ConnectReq];
      }
    }

    method RcfgDisconnected()
      modifies this
      ensures Snap() == HandleDisconnected(old(Snap()))
    {
      numRecfg := (numRecfg + 1) % 256;
      if numRecfg > RECONFIG_RETRY {
        calls := calls + [ReportFailure];
      } else {
        calls := calls + [ConnectReq];
      }
    }
  }

  /** Any interleaving of the handlers after a request, on the control block itself: the specification
      is followed, and of eight or more events one of the first eight reported the failure. */
  method Play(events: seq<Event>) returns (r: ReconfigControl)
    ensures r.Snap() == After(events)
    ensures |events| >= RECONFIG_RETRY + 2 ==>
              |r.calls| == |events| && ReportFailure in r.calls[..RECONFIG_RETRY + 2]
  {
    r := new ReconfigControl;
    r.Reconfig();
    for n := 0 to |events|
      invariant r.Snap() == After(events[..n])
    {
      match events[n] {
        case OpenFailed(linkUp, colliding) => r.RcfgFailed(linkUp, colliding);
        case StreamClosed => r.RcfgConnect();
        case Disconnected => r.RcfgDisconnected();
      }
      assert events[..n + 1][..n] == events[..n];
    }
    assert events[..|events|] == events;
    if |events| >= RECONFIG_RETRY + 2 { AtMostSevenRetries(events); }
  }
}
