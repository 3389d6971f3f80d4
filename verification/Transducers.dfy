/** Runs of a machine that reads one input at a time and may emit outputs at every step. */
module Transducers {

  datatype Outcome<S, O> = Outcome(state: S, out: seq<O>)

  /** The state after all of `inputs`, and everything emitted on the way. */
  function Run<S, I, O>(step: (S, I) -> Outcome<S, O>, s: S, inputs: seq<I>): Outcome<S, O> {
    if inputs == [] then Outcome(s, [])
    else
      var n := |inputs| - 1;
      var before := Run(step, s, inputs[..n]);
      var last := step(before.state, inputs[n]);
      Outcome(last.state, before.out + last.out)
  }

  lemma RunSnoc<S, I, O>(step: (S, I) -> Outcome<S, O>, s: S, inputs: seq<I>, i: nat)
    requires i < |inputs|
    ensures
      var before := Run(step, s, inputs[..i]);
      var last := step(before.state, inputs[i]);
      Run(step, s, inputs[..i + 1]) == Outcome(last.state, before.out + last.out)
  {
    assert inputs[..i + 1][..i] == inputs[..i];
  }

  /** A run over A ++ B is a run over A followed by a run over B from where it ended. */
  lemma {:induction false} RunConcat<S, I, O>(step: (S, I) -> Outcome<S, O>, s: S, a: seq<I>, b: seq<I>)
    ensures
      var first := Run(step, s, a);
      var second := Run(step, first.state, b);
      Run(step, s, a + b) == Outcome(second.state, first.out + second.out)
    decreases |b|
  {
    if b == [] {
      assert a + b == a;
    } else {
      RunConcat(step, s, a, b[..|b| - 1]);
      assert (a + b)[..|a + b| - 1] == a + b[..|b| - 1];
    }
  }

  /** A run that passes through `states` without emitting anything. */
  lemma {:induction false} SilentRun<S, I, O>(step: (S, I) -> Outcome<S, O>, states: seq<S>, inputs: seq<I>)
    requires |states| == |inputs| + 1
    requires forall k :: 0 <= k < |inputs| ==> step(states[k], inputs[k]) == Outcome(states[k + 1], [])
    ensures Run(step, states[0], inputs) == Outcome(states[|inputs|], [])
    decreases |inputs|
  {
    if inputs != [] {
      var n := |inputs| - 1;
      SilentRun(step, states[..n + 1], inputs[..n]);
      assert step(states[n], inputs[n]) == Outcome(states[n + 1], []);
    }
  }

  // ----- runs without outputs

  /** The state after all of `inputs`. */
  function Fold<S, I>(step: (S, I) -> S, s: S, inputs: seq<I>): S {
    if inputs == [] then s
    else step(Fold(step, s, inputs[..|inputs| - 1]), inputs[|inputs| - 1])
  }

  /** What holds at the start and is kept by every step holds after every run. */
  lemma {:induction false} FoldKeeps<S(!new), I(!new)>(step: (S, I) -> S, s: S, inputs: seq<I>, inv: S -> bool)
    requires inv(s)
    requires forall t, x :: inv(t) ==> inv(step(t, x))
    ensures inv(Fold(step, s, inputs))
    decreases |inputs|
  {
    if inputs != [] {
      FoldKeeps(step, s, inputs[..|inputs| - 1], inv);
    }
  }

  /** What only `bad` steps can end holds after every run without one. */
  lemma {:induction false} FoldKeepsUnless<S(!new), I(!new)>(step: (S, I) -> S, s: S, inputs: seq<I>, p: S -> bool,
                                         bad: (S, I) -> bool)
    requires p(s) && forall t, x :: p(t) && !bad(t, x) ==> p(step(t, x))
    requires forall m :: 0 <= m < |inputs| ==> !bad(Fold(step, s, inputs[..m]), inputs[m])
    ensures p(Fold(step, s, inputs))
    decreases |inputs|
  {
    if inputs != [] {
      var n := |inputs| - 1;
      assert forall m :: 0 <= m <= n ==> inputs[..n][..m] == inputs[..m];
      FoldKeepsUnless(step, s, inputs[..n], p, bad);
    }
  }

  /** If `bad` steps, and only those, end `p` for good, `p` holds after a run exactly when it held before it
      and no step was bad. */
  lemma {:induction false} FoldHoldsIff<S(!new), I(!new)>(step: (S, I) -> S, s: S, inputs: seq<I>, inv: S -> bool,
                                      p: S -> bool, bad: (S, I) -> bool)
    requires inv(s)
    requires forall t, x :: inv(t) ==> inv(step(t, x)) && (p(step(t, x)) <==> p(t) && !bad(t, x))
    ensures inv(Fold(step, s, inputs))
    ensures p(Fold(step, s, inputs)) <==>
            p(s) && forall m :: 0 <= m < |inputs| ==> !bad(Fold(step, s, inputs[..m]), inputs[m])
    decreases |inputs|
  {
    if inputs != [] {
      var n := |inputs| - 1;
      assert forall m :: 0 <= m <= n ==> inputs[..n][..m] == inputs[..m];
      FoldHoldsIff(step, s, inputs[..n], inv, p, bad);
    }
  }

  /** A run can be cut anywhere. */
  lemma {:induction false} FoldConcat<S, I>(step: (S, I) -> S, s: S, a: seq<I>, b: seq<I>)
    ensures Fold(step, s, a + b) == Fold(step, Fold(step, s, a), b)
    decreases |b|
  {
    if b == [] {
      assert a + b == a;
    } else {
      FoldConcat(step, s, a, b[..|b| - 1]);
      assert (a + b)[..|a + b| - 1] == a + b[..|b| - 1];
    }
  }

  /** If a run ends inside `p` and starts outside, it entered `p` at some step `k`, by an `entry`,
      and every later step was one that may happen inside `p`. */
  lemma {:induction false} LastEntry<S(!new), I(!new)>(step: (S, I) -> S, s: S, inputs: seq<I>, p: S -> bool,
                                   entry: (S, I) -> bool, within: (S, I) -> bool) returns (k: nat)
    requires !p(s) && p(Fold(step, s, inputs))
    requires forall t, x :: !p(t) && p(step(t, x)) ==> entry(t, x)
    requires forall t, x :: p(t) && p(step(t, x)) ==> within(t, x)
    ensures k < |inputs| && entry(Fold(step, s, inputs[..k]), inputs[k])
    ensures forall m :: k < m < |inputs| ==> within(Fold(step, s, inputs[..m]), inputs[m])
    decreases |inputs|
  {
    var n := |inputs| - 1;
    assert forall m :: 0 <= m <= n ==> inputs[..n][..m] == inputs[..m];
    if p(Fold(step, s, inputs[..n])) {
      k := LastEntry(step, s, inputs[..n], p, entry, within);
    } else {
      k := n;
    }
  }
}
