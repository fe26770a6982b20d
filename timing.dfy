/**
  The timing rules of an animation, as pure functions over real numbers:
  the staggered per-node progress ("sub-alpha"), the squish of a rate function
  onto a time span, and the run time reported before and after `begin`.
 */
module Timing {
  import opened Wrappers

  /** A rate function maps linear progress to eased progress. */
  type RateFunc = real -> real

  /** The (start, end) times, in seconds, between which an animation runs. */
  datatype TimeSpan = TimeSpan(start: real, end: real)

  function Max(a: real, b: real): (r: real)
  {
    if a >= b then a else b
  }

  /** For a positive divisor, comparing a quotient with y is comparing the dividend with y times the divisor. */
  lemma DivCompare(x: real, d: real, y: real)
    requires d > 0.0
    ensures x / d <= y <==> x <= y * d
    ensures x / d >= y <==> x >= y * d
  {
  }

  lemma MulNonNegative(x: real, y: real)
    requires x >= 0.0 && y >= 0.0
    ensures x * y >= 0.0
  {
  }

  /** Clamps `a` into [lo, hi]; values already inside are kept. */
  function Clip(a: real, lo: real, hi: real): (r: real)
    ensures lo <= hi ==> lo <= r <= hi
    ensures lo <= a <= hi ==> r == a
    ensures a < lo ==> r == lo
    ensures lo <= hi && a > hi ==> r == hi
  {
    if a < lo then lo else if a > hi then hi else a
  }

  // ---------------------------------------------------------------------
  // Staggered per-node progress

  /**
    The linear progress of node `index` out of `count` at global progress
    `alpha`: the global timeline is stretched to `(count - 1) * lag + 1`
    node-widths and node `index` starts `index * lag` node-widths in.
   */
  function RawSubAlpha(lag: real, alpha: real, index: nat, count: nat): (r: real)
    ensures 0.0 <= r <= 1.0
  {
    var fullLength := (count as real - 1.0) * lag + 1.0;
    var value := alpha * fullLength;
    var lower := index as real * lag;
    Clip(value - lower, 0.0, 1.0)
  }

  /** The eased progress of one node: the rate function applied to its own clamped progress. */
  function SubAlpha(rate: RateFunc, lag: real, alpha: real, index: nat, count: nat): (r: real)
    ensures lag == 0.0 && 0.0 <= alpha <= 1.0 ==> r == rate(alpha)
    ensures lag >= 0.0 && index < count && alpha == 0.0 ==> r == rate(0.0)
    ensures lag >= 0.0 && index < count && alpha == 1.0 ==> r == rate(1.0)
  {
    // Both branches compute the same value; the first only brings in the endpoint facts.
    if lag >= 0.0 && index < count then
      SubAlphaEndpoints(lag, index, count);
      rate(RawSubAlpha(lag, alpha, index, count))
    else
      rate(RawSubAlpha(lag, alpha, index, count))
  }

  /** Later global progress never moves a node backwards. */
  lemma RawSubAlphaMonotoneInAlpha(lag: real, a1: real, a2: real, index: nat, count: nat)
    requires lag >= 0.0 && index < count
    requires a1 <= a2
    ensures RawSubAlpha(lag, a1, index, count) <= RawSubAlpha(lag, a2, index, count)
  {
    var fullLength := (count as real - 1.0) * lag + 1.0;
    var lower := index as real * lag;
    MulNonNegative(count as real - 1.0, lag);
    MulNonNegative(a2 - a1, fullLength);
    assert (a2 - a1) * fullLength == a2 * fullLength - a1 * fullLength;
    assert RawSubAlpha(lag, a1, index, count) == Clip(a1 * fullLength - lower, 0.0, 1.0);
    assert RawSubAlpha(lag, a2, index, count) == Clip(a2 * fullLength - lower, 0.0, 1.0);
  }

  /** A later node never leads an earlier one. */
  lemma RawSubAlphaAntitoneInIndex(lag: real, alpha: real, i: nat, j: nat, count: nat)
    requires lag >= 0.0 && i <= j
    ensures RawSubAlpha(lag, alpha, j, count) <= RawSubAlpha(lag, alpha, i, count)
  {
    var value := alpha * ((count as real - 1.0) * lag + 1.0);
    MulNonNegative((j - i) as real, lag);
    assert (j - i) as real * lag == j as real * lag - i as real * lag;
    assert value - j as real * lag <= value - i as real * lag;
    assert RawSubAlpha(lag, alpha, i, count) == Clip(value - i as real * lag, 0.0, 1.0);
    assert RawSubAlpha(lag, alpha, j, count) == Clip(value - j as real * lag, 0.0, 1.0);
  }

  /** With no lag, every node follows the rate function of the global progress. */
  lemma LagZeroIsSynchronous(rate: RateFunc, alpha: real, index: nat, count: nat)
    requires 0.0 <= alpha <= 1.0
    ensures SubAlpha(rate, 0.0, alpha, index, count) == rate(alpha)
  {
  }

  /** A lone node follows the rate function of the clamped global progress, whatever the lag. */
  lemma SingleNodeIgnoresLag(rate: RateFunc, lag: real, alpha: real)
    ensures SubAlpha(rate, lag, alpha, 0, 1) == rate(Clip(alpha, 0.0, 1.0))
  {
    assert RawSubAlpha(lag, alpha, 0, 1) == Clip(alpha, 0.0, 1.0);
  }

  /** Every node is at its start when the global progress is 0, and at its end when it is 1. */
  lemma SubAlphaEndpoints(lag: real, index: nat, count: nat)
    requires lag >= 0.0 && index < count
    ensures RawSubAlpha(lag, 0.0, index, count) == 0.0
    ensures RawSubAlpha(lag, 1.0, index, count) == 1.0
  {
    var fullLength := (count as real - 1.0) * lag + 1.0;
    var lower := index as real * lag;
    var rest := (count - 1 - index) as real;
    assert rest >= 0.0;
    assert lower >= 0.0;
    assert fullLength - lower == rest * lag + 1.0;
    MulNonNegative(rest, lag);
  }

  /** Three nodes, lag 0.5, halfway through: the first is done, the second halfway, the third not started. */
  lemma ThreeNodesHalfLagHalfway()
    ensures RawSubAlpha(0.5, 0.5, 0, 3) == 1.0
    ensures RawSubAlpha(0.5, 0.5, 1, 3) == 0.5
    ensures RawSubAlpha(0.5, 0.5, 2, 3) == 0.0
    ensures RawSubAlpha(0.5, 0.0, 0, 3) == 0.0 && RawSubAlpha(0.5, 0.0, 1, 3) == 0.0 && RawSubAlpha(0.5, 0.0, 2, 3) == 0.0
    ensures RawSubAlpha(0.5, 1.0, 0, 3) == 1.0 && RawSubAlpha(0.5, 1.0, 1, 3) == 1.0 && RawSubAlpha(0.5, 1.0, 2, 3) == 1.0
  {
  }

  /** With lag 1 the nodes run back to back: once a node has started, every earlier node has finished. */
  lemma LagOneIsSequential(alpha: real, i: nat, j: nat, count: nat)
    requires j < i
    requires RawSubAlpha(1.0, alpha, i, count) > 0.0
    ensures RawSubAlpha(1.0, alpha, j, count) == 1.0
  {
  }

  // ---------------------------------------------------------------------
  // Squish onto a time span

  /**
    The rate function `f` squeezed onto the window [a, b] of the timeline:
    `f(0)` up to `a`, `f(1)` from `b` on, `f` of the rescaled progress between.
   */
  function Squish(f: RateFunc, a: real, b: real): (g: RateFunc)
    ensures forall t :: t <= a ==> g(t) == f(0.0)
    ensures forall t :: t >= b && t > a ==> g(t) == f(1.0)
    ensures forall t :: a < t < b ==> g(t) == f((t - a) / (b - a))
  {
    t => if t <= a then f(0.0) else if t >= b then f(1.0) else f((t - a) / (b - a))
  }

  /** For a proper window, squish is the rate function of the clamped, rescaled progress. */
  lemma SquishIsClampedRescale(f: RateFunc, a: real, b: real, t: real)
    requires a < b
    ensures Squish(f, a, b)(t) == f(Clip((t - a) / (b - a), 0.0, 1.0))
  {
    var u := (t - a) / (b - a);
    DivCompare(t - a, b - a, 0.0);
    DivCompare(t - a, b - a, 1.0);
    if t <= a {
      assert u <= 0.0;
    } else if t >= b {
      assert u >= 1.0;
    } else {
      assert 0.0 < u < 1.0;
    }
  }

  /** The run time after `begin`: widened to reach the end of the span. */
  function BegunRunTime(runTime: real, span: Option<TimeSpan>): (r: real)
    ensures r >= runTime
    ensures span.Some? ==> r >= span.value.end
    ensures span.None? ==> r == runTime
  {
    if span.Some? then Max(span.value.end, runTime) else runTime
  }

  /** The rate function after `begin`: squished onto the span, normalised by the widened run time. */
  function BegunRate(rate: RateFunc, runTime: real, span: Option<TimeSpan>): (g: RateFunc)
    requires span.Some? ==> BegunRunTime(runTime, span) != 0.0
    ensures span.None? ==> g == rate
    ensures span.Some? ==> forall t :: t <= span.value.start / BegunRunTime(runTime, span) ==> g(t) == rate(0.0)
    ensures span.Some? ==>
              forall t :: (t >= span.value.end / BegunRunTime(runTime, span) &&
                           t > span.value.start / BegunRunTime(runTime, span)) ==> g(t) == rate(1.0)
  {
    if span.Some? then
      var rt := BegunRunTime(runTime, span);
      Squish(rate, span.value.start / rt, span.value.end / rt)
    else rate
  }

  /** A span (start, end) with 0 <= start <= end and a positive run time squishes onto a window inside [0, 1]. */
  lemma SpanWindowInUnit(start: real, end: real, runTime: real)
    requires 0.0 <= start <= end && runTime > 0.0
    ensures var rt := BegunRunTime(runTime, Some(TimeSpan(start, end)));
            0.0 <= start / rt <= end / rt <= 1.0
  {
  }

  /**
    With a span and no lag, every node holds the rate function's start value
    while the time alpha * runTime is at or before the span's start.
   */
  lemma SpanHoldsBeforeStart(rate: RateFunc, start: real, end: real, runTime: real,
                             alpha: real, index: nat, count: nat)
    requires 0.0 <= start <= end && runTime > 0.0
    requires 0.0 <= alpha <= 1.0
    requires alpha * BegunRunTime(runTime, Some(TimeSpan(start, end))) <= start
    ensures SubAlpha(BegunRate(rate, runTime, Some(TimeSpan(start, end))), 0.0, alpha, index, count) == rate(0.0)
  {
    var rt := BegunRunTime(runTime, Some(TimeSpan(start, end)));
    LagZeroIsSynchronous(BegunRate(rate, runTime, Some(TimeSpan(start, end))), alpha, index, count);
    DivCompare(start, rt, alpha);
  }

  /**
    With a span and no lag, every node holds the rate function's end value
    once the time alpha * runTime is past the span's start and at or after its end.
   */
  lemma SpanHoldsAfterEnd(rate: RateFunc, start: real, end: real, runTime: real,
                          alpha: real, index: nat, count: nat)
    requires 0.0 <= start <= end && runTime > 0.0
    requires 0.0 <= alpha <= 1.0
    requires var rt := BegunRunTime(runTime, Some(TimeSpan(start, end)));
             alpha * rt >= end && alpha * rt > start
    ensures SubAlpha(BegunRate(rate, runTime, Some(TimeSpan(start, end))), 0.0, alpha, index, count) == rate(1.0)
  {
    var rt := BegunRunTime(runTime, Some(TimeSpan(start, end)));
    LagZeroIsSynchronous(BegunRate(rate, runTime, Some(TimeSpan(start, end))), alpha, index, count);
    DivCompare(start, rt, alpha);
    DivCompare(end, rt, alpha);
  }

  /**
    The two lemmas above need lag 0: with a lag the squish acts on each
    node's own progress, not on the time. Lag 1, two nodes, span (0.5, 1),
    run time 1: at alpha 0.4 the time is before the span's start, yet node 0
    is at progress 0.8 and gets rate(0.6), not rate(0).
   */
  lemma SpanWithLagMovesBeforeStart(rate: RateFunc)
    ensures 0.4 * BegunRunTime(1.0, Some(TimeSpan(0.5, 1.0))) < 0.5
    ensures RawSubAlpha(1.0, 0.4, 0, 2) == 0.8
    ensures SubAlpha(BegunRate(rate, 1.0, Some(TimeSpan(0.5, 1.0))), 1.0, 0.4, 0, 2) == rate(0.6)
  {
    assert BegunRunTime(1.0, Some(TimeSpan(0.5, 1.0))) == 1.0;
    assert (0.8 - 0.5) / (1.0 - 0.5) == 0.6;
  }

  // ---------------------------------------------------------------------
  // Run time

  /** The run time reported by `get_run_time`: at least the end of the span, when one is set. */
  function EffectiveRunTime(runTime: real, span: Option<TimeSpan>): (r: real)
    ensures r >= runTime
    ensures span.Some? ==> r >= span.value.end && (r == runTime || r == span.value.end)
    ensures span.None? ==> r == runTime
  {
    if span.Some? then Max(runTime, span.value.end) else runTime
  }

  /** The run time reported before `begin` is the run time `begin` installs, and reporting it afterwards changes nothing. */
  lemma EffectiveRunTimeStableAcrossBegin(runTime: real, span: Option<TimeSpan>)
    ensures EffectiveRunTime(runTime, span) == BegunRunTime(runTime, span)
    ensures EffectiveRunTime(BegunRunTime(runTime, span), span) == BegunRunTime(runTime, span)
  {
  }
}
