/**
  The closed loop of correction pulses: how long a pulse is, what its yield says about the flow, and
  what becomes of the weight.

  Weights and flows are reals.  The plant yields `flow * (executed - latency) / 1000` grams, where
  the motor executes whole milliseconds.
*/
module PulseLoop {
  import opened Wrappers

  const TOLERANCE_G := 0.03
  const MAX_ATTEMPTS := 10
  const FLOW_MIN := 1.0
  const FLOW_FALLBACK := 1.5
  const PULSE_FLOW_MAX := 4.0
  const MAX_PRODUCTIVE_MS := 250.0
  const GAIN_ALPHA := 0.2
  const GAIN_MIN := 0.5
  const GAIN_MAX := 2.0
  const LATENCY_MIN := 30.0
  const LATENCY_MAX := 300.0

  // ---------------------------------------------------------------- the functions of the source

  /** `get_clamped_pulse_flow_rate` */
  function ClampedFlow(flow: real): (r: real)
    ensures 1.0 <= r <= 4.0 && (1.0 <= flow <= 4.0 ==> r == flow)
  {
    if flow < FLOW_MIN then FLOW_FALLBACK else if flow > PULSE_FLOW_MAX then PULSE_FLOW_MAX else flow
  }

  function Productive(flow: real, error: real): real {
    var wanted := error / ClampedFlow(flow) * 1000.0;
    var atMost := if wanted < MAX_PRODUCTIVE_MS then wanted else MAX_PRODUCTIVE_MS;
    if atMost > 0.0 then atMost else 0.0
  }

  /** `calculate_pulse_duration_ms` */
  function Duration(flow: real, latency: real, error: real): real {
    latency + Productive(flow, error)
  }

  /** `measured_flow_from_pulse`, with the range the strategy passes. */
  function MeasuredFlow(delivered: real, duration: real, latency: real): Option<real> {
    var productive := duration - latency;
    if productive <= 0.0 then None else
      var flow := delivered / productive * 1000.0;
      if flow < FLOW_MIN || flow > PULSE_FLOW_MAX then None else Some(flow)
  }

  function ClampGain(sample: real): real {
    if sample < GAIN_MIN then GAIN_MIN else if sample > GAIN_MAX then GAIN_MAX else sample
  }

  /** `updated_gain_ewma`, with the weights the controller passes. */
  function UpdatedGain(gain: real, measured: real, base: real): real {
    if base <= 0.0 then gain else gain + GAIN_ALPHA * (ClampGain(measured / base) - gain)
  }

  /** The strategy stops correcting. */
  predicate Reached(target: real, settled: real) {
    target - settled < TOLERANCE_G
  }

  // ---------------------------------------------------------------- single pulses

  /** A pulse is never too short or too long for the driver, whatever the flow and the error. */
  lemma DurationBounds(flow: real, latency: real, error: real)
    requires LATENCY_MIN <= latency <= LATENCY_MAX
    ensures latency <= Duration(flow, latency, error) <= latency + MAX_PRODUCTIVE_MS
    ensures 30 <= Duration(flow, latency, error).Floor <= 550
  {
  }

  /** What a pulse of `ms` executed milliseconds delivers. */
  function Yield(flow: real, ms: real, latency: real): real {
    if ms <= latency then 0.0 else flow * (ms - latency) / 1000.0
  }

  lemma NonNegative(a: real, b: real)
    requires a >= 0.0 && b >= 0.0
    ensures a * b >= 0.0
  {
  }

  lemma Positive(a: real, b: real)
    requires a > 0.0 && b > 0.0
    ensures a * b > 0.0
  {
  }

  lemma Minus(a: real, b: real, c: real)
    ensures (a - b) * c == a * c - b * c
  {
  }

  lemma ScaleDown(a: real, b: real, c: real)
    requires 0.0 <= a <= b && c >= 0.0
    ensures 0.0 <= a * c <= b * c
  {
    NonNegative(a, c);
    NonNegative(b - a, c);
    Minus(b, a, c);
  }

  lemma Product(a: real, b: real, p: real, q: real, most: real)
    requires 0.0 <= a <= b && 0.0 <= p <= q && q * b <= most
    ensures 0.0 <= a * p <= most
  {
    ScaleDown(a, b, p);
    ScaleDown(p, q, b);
    var bp, pb := b * p, p * b;
    assert bp == pb by { Commutes(b, p); }
    assert 0.0 <= a * p <= bp;
    assert pb <= q * b;
  }

  lemma Commutes(a: real, b: real)
    ensures a * b == b * a
  {
  }

  lemma Quotient(error: real, flow: real)
    requires flow > 0.0
    ensures error / flow * flow == error
    ensures error / flow < 0.25 <==> error < 0.25 * flow
    ensures error / flow > 0.0 <==> error > 0.0
  {
    var q := error / flow;
    assert q * flow == error;
    Compare(q, 0.25, flow);
    Compare(0.0, q, flow);
  }

  lemma Compare(a: real, b: real, c: real)
    requires c > 0.0
    ensures a < b <==> a * c < b * c
  {
    Minus(b, a, c);
    if a < b {
      Positive(b - a, c);
    } else {
      Minus(a, b, c);
      NonNegative(a - b, c);
    }
  }

  /** The productive part of a pulse stands for the error, as far as the longest pulse reaches. */
  lemma ProductiveMass(flow: real, error: real)
    requires error >= 0.0
    ensures var used := ClampedFlow(flow);
      Productive(flow, error) * used == if error < 0.25 * used then error * 1000.0 else 250.0 * used
    ensures Productive(flow, error) >= 0.0
    ensures Productive(flow, error) > 0.0 <==> error > 0.0
  {
    var used := ClampedFlow(flow);
    hide ClampedFlow;
    Quotient(error, used);
    var q := error / used;
    assert q * 1000.0 * used == q * used * 1000.0;
  }

  lemma LongestPulse(flow: real, error: real)
    requires error >= 0.25 * ClampedFlow(flow)
    ensures Productive(flow, error) == MAX_PRODUCTIVE_MS
  {
    Quotient(error, ClampedFlow(flow));
    hide ClampedFlow;
  }

  /** With a plant no faster than assumed, a pulse does not deliver more than the error. */
  lemma YieldBelowError(actual: real, flow: real, latency: real, error: real, executed: real)
    requires 0.0 <= actual <= ClampedFlow(flow) && error >= 0.0
    requires executed <= Duration(flow, latency, error)
    ensures 0.0 <= Yield(actual, executed, latency) <= error
  {
    ProductiveMass(flow, error);
    hide ClampedFlow, Productive;
    if executed > latency {
      var p := executed - latency;
      Product(actual, ClampedFlow(flow), p, Productive(flow, error), error * 1000.0);
    }
  }

  /** With the flow known exactly, a pulse removes the error, or as much as its longest run can. */
  lemma YieldAtFlow(flow: real, latency: real, error: real)
    requires FLOW_MIN <= flow <= PULSE_FLOW_MAX && error >= 0.0
    ensures Yield(flow, Duration(flow, latency, error), latency) ==
      if error < 0.25 * flow then error else 0.25 * flow
  {
    ProductiveMass(flow, error);
    assert ClampedFlow(flow) == flow;
    hide ClampedFlow, Productive;
    var p := Productive(flow, error);
    assert flow * p == p * flow;
  }

  /** A pulse with a productive part measures the flow of the plant. */
  lemma MeasurementRecovers(flow: real, duration: real, latency: real)
    requires FLOW_MIN <= flow <= PULSE_FLOW_MAX && duration > latency
    ensures MeasuredFlow(Yield(flow, duration, latency), duration, latency) == Some(flow)
  {
    var p := duration - latency;
    assert Yield(flow, duration, latency) == flow * p / 1000.0;
    assert flow * p / 1000.0 / p == flow / 1000.0;
  }

  /** Any measurement that is accepted is in range, and an unproductive pulse is never accepted. */
  lemma MeasurementInRange(delivered: real, duration: real, latency: real)
    ensures match MeasuredFlow(delivered, duration, latency)
      case Some(flow) => duration > latency && FLOW_MIN <= flow <= PULSE_FLOW_MAX &&
        Yield(flow, duration, latency) == delivered
      case None => true
  {
    if duration > latency {
      var p := duration - latency;
      var flow := delivered / p * 1000.0;
      assert flow * p / 1000.0 == delivered / p * p;
    }
  }

  // ---------------------------------------------------------------- the loop

  /** What the strategy knows between two pulses. */
  datatype Loop = Loop(settled: real, flow: real, attempts: nat)

  predicate Stops(target: real, s: Loop) {
    Reached(target, s.settled) || s.attempts >= MAX_ATTEMPTS
  }

  function Error(target: real, s: Loop): real {
    target - TOLERANCE_G - s.settled
  }

  /** The pulse that is decided on in `s`, as the motor executes it when `whole`. */
  function Executed(target: real, latency: real, s: Loop, whole: bool): real {
    var d := Duration(s.flow, latency, Error(target, s));
    if whole then d.Floor as real else d
  }

  /** One pulse on a plant with flow `actual`: decision, pulse, and the measurement of its yield. */
  function Pulse(target: real, latency: real, actual: real, whole: bool, s: Loop): Loop {
    var yielded := Yield(actual, Executed(target, latency, s, whole), latency);
    var duration := Duration(s.flow, latency, Error(target, s));
    var flow := match MeasuredFlow(yielded, duration, latency)
      case Some(measured) => measured
      case None => s.flow;
    Loop(s.settled + yielded, flow, s.attempts + 1)
  }

  /** The loop on a plant whose flow may be different for every pulse. */
  function Run(target: real, latency: real, actual: seq<real>, whole: bool, s: Loop): Loop {
    if actual == [] || Stops(target, s) then s else
      Run(target, latency, actual[1..], whole, Pulse(target, latency, actual[0], whole, s))
  }

  /** No pulse of the run meets a plant faster than the loop assumes at that moment. */
  predicate NeverFaster(target: real, latency: real, actual: seq<real>, whole: bool, s: Loop)
    decreases |actual|
  {
    actual == [] || Stops(target, s) ||
    (0.0 <= actual[0] <= ClampedFlow(s.flow) &&
     NeverFaster(target, latency, actual[1..], whole, Pulse(target, latency, actual[0], whole, s)))
  }

  /** The settled weight never passes the conservative target, and never falls. */
  lemma {:induction false} NoOvershoot(target: real, latency: real, actual: seq<real>, whole: bool, s: Loop)
    requires s.settled <= target - TOLERANCE_G
    requires NeverFaster(target, latency, actual, whole, s)
    ensures s.settled <= Run(target, latency, actual, whole, s).settled <= target - 0.03
    ensures Run(target, latency, actual, whole, s).attempts <=
      if s.attempts < MAX_ATTEMPTS then MAX_ATTEMPTS else s.attempts
    decreases |actual|
  {
    hide Yield, Duration, ClampedFlow, MeasuredFlow;
    if actual != [] && !Stops(target, s) {
      var executed := Executed(target, latency, s, whole);
      YieldBelowError(actual[0], s.flow, latency, Error(target, s), executed);
      NoOvershoot(target, latency, actual[1..], whole, Pulse(target, latency, actual[0], whole, s));
    }
  }

  /** The error after `n` pulses that each remove at most a quarter second of flow. */
  function Remaining(error: real, flow: real, n: nat): (r: real)
    ensures r >= 0.0
  {
    var rest := error - 0.25 * flow * n as real;
    if rest > 0.0 then rest else 0.0
  }

  lemma RemainingStep(error: real, flow: real, n: nat)
    requires n > 0 && error >= 0.0 && flow > 0.0
    ensures Remaining(Remaining(error, flow, 1), flow, n - 1) == Remaining(error, flow, n)
  {
    var m := (n - 1) as real;
    assert n as real == m + 1.0;
    assert 0.25 * flow * (m + 1.0) == 0.25 * flow * m + 0.25 * flow;
    ScaleDown(0.0, m, 0.25 * flow);
    assert m * (0.25 * flow) == 0.25 * flow * m;
  }

  lemma RemainingNone(error: real, flow: real)
    requires error >= 0.0
    ensures Remaining(error, flow, 0) == error
  {
  }

  /** A plant with a constant flow. */
  function Constant(flow: real, n: nat): seq<real> {
    seq(n, i => flow)
  }

  lemma PulseAtFlow(target: real, latency: real, f: real, s: Loop)
    requires FLOW_MIN <= f <= PULSE_FLOW_MAX && s.flow == f && Error(target, s) >= 0.0
    ensures var t := Pulse(target, latency, f, false, s);
      t.flow == f && Error(target, t) == Remaining(Error(target, s), f, 1) && t.attempts == s.attempts + 1
  {
    YieldAtFlow(f, latency, Error(target, s));
    var d := Duration(s.flow, latency, Error(target, s));
    if d > latency {
      MeasurementRecovers(f, d, latency);
    }
  }

  /**
    Once the flow is known, `n` pulses leave what they cannot reach, and then nothing: the weight
    comes to rest exactly at the conservative target.
  */
  lemma {:induction false} Converges(target: real, latency: real, f: real, n: nat, s: Loop)
    requires FLOW_MIN <= f <= PULSE_FLOW_MAX && s.flow == f && Error(target, s) >= 0.0
    requires s.attempts + n <= MAX_ATTEMPTS
    ensures var t := Run(target, latency, Constant(f, n), false, s);
      t.flow == f && Error(target, t) == Remaining(Error(target, s), f, n) && t.attempts == s.attempts + n
    decreases n
  {
    hide Pulse, Remaining;
    if n > 0 {
      assert Constant(f, n)[1..] == Constant(f, n - 1);
      PulseAtFlow(target, latency, f, s);
      var t := Pulse(target, latency, f, false, s);
      Converges(target, latency, f, n - 1, t);
      RemainingStep(Error(target, s), f, n);
    } else {
      RemainingNone(Error(target, s), f);
    }
  }

  /** On a plant with a constant flow the first pulse measures it, however wrong the estimate was. */
  lemma FirstPulseMeasures(target: real, latency: real, f: real, s: Loop)
    requires FLOW_MIN <= f <= PULSE_FLOW_MAX && Error(target, s) > 0.0
    ensures var t := Pulse(target, latency, f, false, s);
      && t.flow == f && t.attempts == s.attempts + 1
      && Error(target, t) == Error(target, s) - f * Productive(s.flow, Error(target, s)) / 1000.0 < Error(target, s)
  {
    var p := Productive(s.flow, Error(target, s));
    ProductiveMass(s.flow, Error(target, s));
    MeasurementRecovers(f, latency + p, latency);
    Positive(f, p);
  }

  /** The estimate is not too low for the first pulse: it is right, or the pulse is capped early enough. */
  predicate Cautious(f: real, flow: real, error: real) {
    f <= ClampedFlow(flow) || 0.25 * f <= error
  }

  /** Exactly then the first pulse stays below the conservative target. */
  lemma FirstPulseStaysBelow(target: real, latency: real, f: real, s: Loop)
    requires FLOW_MIN <= f <= PULSE_FLOW_MAX && Error(target, s) > 0.0
    ensures Error(target, Pulse(target, latency, f, false, s)) >= 0.0 <==> Cautious(f, s.flow, Error(target, s))
  {
    var e := Error(target, s);
    var p, used := Productive(s.flow, e), ClampedFlow(s.flow);
    FirstPulseMeasures(target, latency, f, s);
    ProductiveMass(s.flow, e);
    hide Pulse, Productive, ClampedFlow;
    if e < 0.25 * used {
      LeftAfterUncapped(f, used, p, e);
    } else {
      LongestPulse(s.flow, e);
    }
  }

  lemma LeftAfterUncapped(f: real, used: real, p: real, e: real)
    requires p > 0.0 && p * used == e * 1000.0
    ensures e - f * p / 1000.0 >= 0.0 <==> f <= used
  {
    Compare(used, f, p);
    Commutes(used, p);
    var fp, up := f * p, used * p;
    assert up == e * 1000.0;
    assert used < f <==> up < fp;
  }

  /**
    A start with any estimate.  If it is cautious, the flow is measured once and the weight is then
    driven to the conservative target; if not, the loop stops right after the first pulse.
  */
  lemma ConvergesFromEstimate(target: real, latency: real, f: real, n: nat, s: Loop)
    requires FLOW_MIN <= f <= PULSE_FLOW_MAX && Error(target, s) > 0.0
    requires s.attempts + 1 + n <= MAX_ATTEMPTS
    ensures var first := Pulse(target, latency, f, false, s);
      var t := Run(target, latency, Constant(f, n + 1), false, s);
      && first.flow == t.flow == f && Error(target, first) < Error(target, s)
      && (if Cautious(f, s.flow, Error(target, s)) then Error(target, t) == Remaining(Error(target, first), f, n)
          else t == first && Error(target, t) < 0.0)
  {
    hide Pulse, Remaining, Cautious;
    FirstPulseMeasures(target, latency, f, s);
    FirstPulseStaysBelow(target, latency, f, s);
    var first := Pulse(target, latency, f, false, s);
    assert Constant(f, n + 1)[1..] == Constant(f, n);
    if Error(target, first) >= 0.0 {
      Converges(target, latency, f, n, first);
    } else {
      assert Stops(target, first);
    }
  }

  /**
    The loop does not notice that it has arrived: exactly at the conservative target it neither
    stops nor delivers anything, and goes on until the attempts are used up.
  */
  lemma {:induction false} ArrivalIsNotNoticed(target: real, latency: real, f: real, n: nat, s: Loop)
    requires Error(target, s) == 0.0 && s.attempts + n <= MAX_ATTEMPTS
    ensures Run(target, latency, Constant(f, n), false, s) == s.(attempts := s.attempts + n)
    ensures Stops(target, s) <==> s.attempts >= MAX_ATTEMPTS
    decreases n
  {
    if n > 0 {
      assert Constant(f, n)[1..] == Constant(f, n - 1);
      ProductiveMass(s.flow, 0.0);
      ArrivalIsNotNoticed(target, latency, f, n - 1, s.(attempts := s.attempts + 1));
    }
  }

  /** Nowhere else does the loop go on without delivering anything. */
  lemma IdlesOnlyThere(target: real, latency: real, f: real, s: Loop)
    requires f > 0.0 && !Reached(target, s.settled)
    ensures Pulse(target, latency, f, false, s).settled == s.settled <==> Error(target, s) == 0.0
  {
    var p := Productive(s.flow, Error(target, s));
    ProductiveMass(s.flow, Error(target, s));
    hide Productive, ClampedFlow;
    if p > 0.0 {
      Positive(f, p);
    }
  }

  // ---------------------------------------------------------------- whole milliseconds

  /**
    A flow measured from a pulse that was cut to whole milliseconds comes out too small.  It is never
    so far off that the next pulse delivers 12 mg more than the error.
  */
  predicate NearlyRight(f: real, flow: real, error: real) {
    (f - ClampedFlow(flow)) * Productive(flow, error) <= 12.0
  }

  lemma ProductiveFalls(flow: real, error: real, less: real)
    requires less <= error
    ensures 0.0 <= Productive(flow, less) <= Productive(flow, error) <= 250.0
  {
    var used := ClampedFlow(flow);
    assert (error - less) / used >= 0.0;
    assert error / used == less / used + (error - less) / used;
  }

  lemma NearlyRightFalls(f: real, flow: real, error: real, less: real)
    requires NearlyRight(f, flow, error) && less <= error
    ensures NearlyRight(f, flow, less)
  {
    ProductiveFalls(flow, error, less);
    hide Productive, ClampedFlow;
    SmallerGap(f - ClampedFlow(flow), Productive(flow, error), Productive(flow, less));
  }

  lemma SmallerGap(gap: real, p: real, q: real)
    requires 0.0 <= q <= p && gap * p <= 12.0
    ensures gap * q <= 12.0
  {
    if gap >= 0.0 {
      ScaleDown(q, p, gap);
      assert p * gap == gap * p && q * gap == gap * q;
    } else {
      ScaleDown(0.0, q, -gap);
      assert q * -gap == -(gap * q);
    }
  }

  lemma Cancel(a: real, b: real, c: real)
    requires c > 0.0 && a * c <= b * c
    ensures a <= b
  {
    Compare(b, a, c);
  }

  lemma Triple(next: real, m: real, used: real, p: real)
    requires FLOW_MIN <= m && used <= PULSE_FLOW_MAX && p > 0.0 && next * m <= (used - m) * p
    ensures next <= 3.0 * p
  {
    ScaleDown(1.0, m, p);
    assert (3.0 - (used - m)) * p >= 0.0;
    assert 3.0 * p <= 3.0 * p * m;
    Cancel(next, 3.0 * p, m);
  }

  lemma GapOfCut(f: real, p: real, x: real, m: real)
    requires 0.0 <= f && p - 1.0 < x && m * p == f * x
    ensures (f - m) * p <= f
  {
    assert (f - m) * p == f * p - f * x == f * (p - x);
    ScaleDown(0.0, 1.0 - (p - x), f);
    assert (1.0 - (p - x)) * f == f - f * (p - x);
  }

  lemma RestOfCut(error: real, f: real, x: real, used: real, p: real, m: real)
    requires p * used == error * 1000.0 && m * p == f * x
    ensures (error - f * x / 1000.0) * 1000.0 == (used - m) * p
  {
    assert f * x / 1000.0 * 1000.0 == f * x;
    assert (used - m) * p == used * p - m * p;
  }

  /** A measurement `m` from `x` of `p` productive milliseconds, when `used` had been assumed. */
  lemma CutMeasurement(f: real, used: real, p: real, x: real, error: real, m: real)
    requires FLOW_MIN <= f <= PULSE_FLOW_MAX && FLOW_MIN <= used <= PULSE_FLOW_MAX
    requires 0.0 < p && p - 1.0 < x && m * p == f * x && FLOW_MIN <= m <= PULSE_FLOW_MAX
    requires p * used == error * 1000.0 || p == 250.0
    ensures NearlyRight(f, m, error - f * x / 1000.0)
  {
    var rest := error - f * x / 1000.0;
    var next := Productive(m, rest);
    GapOfCut(f, p, x, m);
    ProductiveFalls(m, rest, rest);
    if rest < 0.0 {
      NothingProductive(m, rest);
    } else {
      ProductiveMass(m, rest);
      if p != 250.0 {
        RestOfCut(error, f, x, used, p, m);
        hide Productive, ClampedFlow;
        assert next * m <= rest * 1000.0;
        Triple(next, m, used, p);
      }
    }
    hide Productive, ClampedFlow;
    GapBound(f, m, p, next);
  }

  lemma NothingProductive(flow: real, error: real)
    requires error < 0.0
    ensures Productive(flow, error) == 0.0
  {
    var used := ClampedFlow(flow);
    assert error / used * used == error;
    if error / used >= 0.0 {
      ScaleDown(0.0, error / used, used);
    }
  }

  lemma GapBound(f: real, m: real, p: real, next: real)
    requires f <= PULSE_FLOW_MAX && 0.0 <= next <= 3.0 * p && (f - m) * p <= f
    ensures (f - m) * next <= 12.0
  {
    var gap := f - m;
    if gap >= 0.0 {
      ScaleDown(next, 3.0 * p, gap);
      assert 3.0 * p * gap == 3.0 * (gap * p);
    } else {
      ScaleDown(0.0, next, -gap);
    }
  }

  lemma ProductiveCases(flow: real, error: real)
    requires error >= 0.0
    ensures var p, used := Productive(flow, error), ClampedFlow(flow);
      p * used <= error * 1000.0 && (p * used == error * 1000.0 || p == 250.0)
  {
    ProductiveMass(flow, error);
    if error >= 0.25 * ClampedFlow(flow) {
      LongestPulse(flow, error);
    }
    hide Productive, ClampedFlow;
  }

  /** What a pulse does, in terms of its `x` productive milliseconds out of `p` wanted ones. */
  lemma WholePulseResult(target: real, latency: real, f: real, s: Loop) returns (x: real)
    requires Error(target, s) >= 0.0
    ensures var p, t := Productive(s.flow, Error(target, s)), Pulse(target, latency, f, true, s);
      && p - 1.0 < x <= p
      && (x <= 0.0 ==> t.settled == s.settled && t.flow == s.flow)
      && (x > 0.0 ==> t.settled == s.settled + f * x / 1000.0)
      && (x > 0.0 ==>
        var m := f * x / 1000.0 / p * 1000.0;
        t.flow == if m < FLOW_MIN || m > PULSE_FLOW_MAX then s.flow else m)
  {
    var p := Productive(s.flow, Error(target, s));
    hide Productive;
    x := (latency + p).Floor as real - latency;
  }

  lemma Percentage(y: real, p: real, m: real, f: real, x: real)
    requires p > 0.0 && y == f * x / 1000.0 && m == y / p * 1000.0
    ensures m * p == f * x
  {
    assert y / p * p == y;
  }

  /** A pulse of whole milliseconds passes the conservative target by 12 mg at most. */
  lemma WholePulse(target: real, latency: real, f: real, s: Loop)
    requires FLOW_MIN <= f <= PULSE_FLOW_MAX && Error(target, s) >= 0.0
    requires NearlyRight(f, s.flow, Error(target, s))
    ensures var t := Pulse(target, latency, f, true, s);
      && -0.012 <= Error(target, t) <= Error(target, s)
      && NearlyRight(f, t.flow, Error(target, t))
  {
    var e := Error(target, s);
    var p, used := Productive(s.flow, e), ClampedFlow(s.flow);
    ProductiveCases(s.flow, e);
    var x := WholePulseResult(target, latency, f, s);
    assert (f - used) * p <= 12.0;
    hide Pulse, ClampedFlow, Productive, NearlyRight;
    if x > 0.0 {
      var y := f * x / 1000.0;
      PassedBy(f, used, p, x, e);
      NearlyRightFalls(f, s.flow, e, e - y);
      var m := y / p * 1000.0;
      if FLOW_MIN <= m <= PULSE_FLOW_MAX {
        Percentage(y, p, m, f, x);
        CutMeasurement(f, used, p, x, e, m);
      }
    }
  }

  lemma PassedBy(f: real, used: real, p: real, x: real, error: real)
    requires 0.0 < x <= p && 0.0 <= f && (f - used) * p <= 12.0 && p * used <= error * 1000.0
    ensures 0.0 <= f * x / 1000.0 <= error + 0.012
  {
    ScaleDown(x, p, f);
    assert x * f == f * x && p * f == (f - used) * p + p * used;
  }

  /**
    With whole milliseconds and a plant of constant flow, the run ends at most 12 mg above the
    conservative target, so never above the target itself.
  */
  lemma {:induction false} WholeMillisecondsStayBelow(target: real, latency: real, f: real, n: nat, s: Loop)
    requires FLOW_MIN <= f <= PULSE_FLOW_MAX && Error(target, s) >= -0.012
    requires NearlyRight(f, s.flow, Error(target, s))
    ensures var t := Run(target, latency, Constant(f, n), true, s);
      s.settled <= t.settled <= target - TOLERANCE_G + 0.012 < target
    decreases n
  {
    hide Pulse, NearlyRight;
    if n > 0 && !Stops(target, s) {
      assert Constant(f, n)[1..] == Constant(f, n - 1);
      WholePulse(target, latency, f, s);
      WholeMillisecondsStayBelow(target, latency, f, n - 1, Pulse(target, latency, f, true, s));
    }
  }

  /** In particular when the first estimate is not too low. */
  lemma StaysBelowFromEstimate(target: real, latency: real, f: real, n: nat, s: Loop)
    requires FLOW_MIN <= f <= ClampedFlow(s.flow) && Error(target, s) >= 0.0
    ensures Run(target, latency, Constant(f, n), true, s).settled < target
  {
    ProductiveFalls(s.flow, Error(target, s), Error(target, s));
    ScaleDown(0.0, Productive(s.flow, Error(target, s)), ClampedFlow(s.flow) - f);
    WholeMillisecondsStayBelow(target, latency, f, n, s);
  }

  // ---------------------------------------------------------------- the gain

  lemma GainStaysInRange(gain: real, measured: real, base: real)
    requires 0.5 <= gain <= 2.0
    ensures 0.5 <= UpdatedGain(gain, measured, base) <= 2.0
  {
    hide ClampGain;
    if base > 0.0 {
      ClampGainRange(measured / base);
    }
  }

  lemma ClampGainRange(sample: real)
    ensures GAIN_MIN <= ClampGain(sample) <= GAIN_MAX
  {
  }

  /** The gain after `n` equal samples. */
  function Blended(gain: real, measured: real, base: real, n: nat): real
    decreases n
  {
    if n == 0 then gain else Blended(UpdatedGain(gain, measured, base), measured, base, n - 1)
  }

  function Power(x: real, n: nat): real {
    if n == 0 then 1.0 else x * Power(x, n - 1)
  }

  lemma Fraction(p: real, q: real, d: real, e: real)
    requires e == 0.8 * d && q == 0.8 * p
    ensures p * e == q * d
  {
    assert p * (0.8 * d) == 0.8 * (p * d) == (0.8 * p) * d;
  }

  /**
    With equal samples the gain goes to the ratio of the measured flow to the one the scale has shown, or
    to the nearer end of the range if that is outside; each sample leaves four fifths of the way.
  */
  lemma GainApproaches(gain: real, measured: real, base: real, n: nat)
    requires base > 0.0
    ensures var ratio := measured / base;
      var goal := if ratio < 0.5 then 0.5 else if ratio > 2.0 then 2.0 else ratio;
      Blended(gain, measured, base, n) == goal + Power(0.8, n) * (gain - goal)
  {
    hide Blended, Power;
    GainContracts(gain, measured, base, n, gain - ClampGain(measured / base));
  }

  /** Each equal sample leaves four fifths of the distance `d` to the clamped ratio. */
  lemma {:induction false} GainContracts(gain: real, measured: real, base: real, n: nat, d: real)
    requires base > 0.0 && d == gain - ClampGain(measured / base)
    ensures Blended(gain, measured, base, n) == ClampGain(measured / base) + Power(0.8, n) * d
    decreases n
  {
    hide ClampGain;
    if n > 0 {
      var next := UpdatedGain(gain, measured, base);
      var e := next - ClampGain(measured / base);
      assert e == 0.8 * d;
      GainContracts(next, measured, base, n - 1, e);
      Fraction(Power(0.8, n - 1), Power(0.8, n), d, e);
    }
  }
}
