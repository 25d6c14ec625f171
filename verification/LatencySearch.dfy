/**
  The search for the shortest pulse that makes the grinder deliver: what one test changes, and where
  the search ends on a motor with a threshold.

  Every length tried is 300 less a multiple of 270 over a power of two, so `real` is exact here.
*/
module LatencySearch {
  const MIN_MS := 30.0
  const MAX_MS := 300.0
  const ACCURACY_MS := 5.0
  const MAX_ITERATIONS := 50

  datatype Search = Search(
    pulse: real, step: real, last: real, up: bool, foundLower: bool, iteration: nat)

  datatype Next =
    | Again(s: Search)
    | Found(last: real)
    | NoSuccess   // "No successful pulse found"
    | HitBound    // "Hit lower bound - no successful pulse"

  function Start(): Search {
    Search(MAX_MS, MAX_MS - MIN_MS, 0.0, false, false, 0)
  }

  function Clamp(x: real): real {
    if x < MIN_MS then MIN_MS else if x > MAX_MS then MAX_MS else x
  }

  predicate StopsAtBound(s: Search) {
    var minConfirmed := s.last > 0.0 && s.last <= MIN_MS + 0.0001;
    var needsResolution := s.foundLower && s.step > ACCURACY_MS;
    var needsConfirmation := !s.foundLower && !minConfirmed;
    s.pulse <= MIN_MS && !needsResolution && !needsConfirmation
  }

  /** The end of a test: the new length is clamped, and at the lower bound the search may be over. */
  function Settle(s: Search): Next {
    var c := s.(pulse := Clamp(s.pulse));
    if StopsAtBound(c) then
      if c.last == 0.0 then HitBound else Found(c.last)
    else
      Again(c.(iteration := c.iteration + 1))
  }

  /** What the result of the test of `s.pulse` leads to. */
  function AfterTest(s: Search, grounds: bool): Next {
    if grounds then
      if s.foundLower && s.step <= ACCURACY_MS then Found(s.pulse) else
        var turned := if s.up then s.(step := s.step / 2.0, up := false) else s;
        Settle(turned.(last := s.pulse, pulse := s.pulse - turned.step))
    else if s.step <= ACCURACY_MS then
      if s.last == 0.0 then NoSuccess else Found(s.last)
    else
      var turned := if s.up then s else s.(step := s.step / 2.0, up := true);
      Settle(turned.(foundLower := true, pulse := s.pulse + turned.step))
  }

  /** The candidate that is verified: rounded up to a multiple of ten. */
  function CeilTen(x: real): real {
    -((-x / 10.0).Floor as real) * 10.0
  }

  lemma CeilTenBounds(x: real)
    ensures x <= CeilTen(x) < x + 10.0
    ensures x <= MAX_MS ==> CeilTen(x) <= MAX_MS
    ensures CeilTen(x) / 10.0 == (CeilTen(x) / 10.0).Floor as real
  {
    var tens := -((-x / 10.0).Floor);
    assert CeilTen(x) == tens as real * 10.0;
    assert CeilTen(x) / 10.0 == tens as real;
  }

  // ---------------------------------------------------------------- any motor

  predicate Bounds(s: Search) {
    && MIN_MS <= s.pulse <= MAX_MS
    && (s.last == 0.0 || MIN_MS <= s.last <= MAX_MS)
  }

  /** What holds whatever the tests say. */
  predicate InRange(s: Search) {
    Bounds(s) && (s.last == 0.0 ==> s.pulse == MAX_MS && s.step == if s.up then 135.0 else 270.0)
  }

  /** Noise or not, the search stays in range, and it never runs out of steps without a success. */
  lemma TestStaysInRange(s: Search, grounds: bool)
    requires InRange(s)
    ensures var n := AfterTest(s, grounds);
      match n
      case Again(t) => InRange(t) && t.iteration == s.iteration + 1
      case Found(last) => MIN_MS <= last <= MAX_MS
      case NoSuccess => false
      case HitBound => false
  {
  }

  // ---------------------------------------------------------------- a motor with a threshold

  /** The step after `k` halvings. */
  function Step(k: nat): real {
    if k == 0 then 270.0 else Step(k - 1) / 2.0
  }

  lemma Steps()
    ensures Step(1) == 135.0 && Step(2) == 67.5 && Step(3) == 33.75 && Step(4) == 16.875
    ensures Step(5) == 8.4375 && Step(6) == 4.21875
  {
    assert Step(2) == Step(1) / 2.0;
    assert Step(3) == Step(2) / 2.0;
    assert Step(4) == Step(3) / 2.0;
    assert Step(5) == Step(4) / 2.0;
  }

  lemma StepHalves(k: nat)
    ensures Step(k + 1) == Step(k) / 2.0
  {
  }

  /** A fresh length in the middle of an interval whose lower end fails and whose upper end works. */
  predicate Halfway(k: nat, t: real, s: Search) {
    && s.pulse == s.last - s.step
    && MIN_MS <= s.last - 2.0 * s.step < t <= s.last
    && s.iteration <= 2 * k
  }

  /** One end of such an interval is tried again, which tells nothing new. */
  predicate Retest(k: nat, t: real, s: Search) {
    && s.pulse == (if s.up then s.last else s.last - s.step)
    && MIN_MS <= s.last - s.step < t <= s.last
    && s.iteration <= 2 * k + 1
    && k < 6
  }

  predicate BracketedAt(k: nat, t: real, s: Search) {
    && 1 <= k <= 6
    && s.step == Step(k)
    && s.foundLower
    && s.last <= MAX_MS
    && (Halfway(k, t, s) || Retest(k, t, s))
  }

  /** The search on a motor that delivers from `t` on. */
  ghost predicate Bracketed(t: real, s: Search) {
    || s == Start()
    || s == Search(MIN_MS, 270.0, MAX_MS, false, false, 1)
    || exists k :: BracketedAt(k, t, s)
  }

  /** A result that is at most the last step too long. */
  predicate Near(t: real, last: real) {
    || (t <= MIN_MS && last == MIN_MS)
    || (t <= last < t + 270.0 / 64.0 && MIN_MS < last <= MAX_MS)
  }

  lemma {:induction false} BracketKeptAt(k: nat, t: real, s: Search)
    requires BracketedAt(k, t, s)
    ensures match AfterTest(s, s.pulse >= t)
      case Again(n) => BracketedAt(k, t, n) || BracketedAt(k + 1, t, n)
      case Found(last) => Near(t, last)
      case NoSuccess => false
      case HitBound => false
  {
    Steps();
    StepHalves(k);
    hide Step;
  }

  lemma BracketKept(t: real, s: Search)
    requires t <= MAX_MS && Bracketed(t, s)
    ensures s.iteration <= 12
    ensures match AfterTest(s, s.pulse >= t)
      case Again(n) => Bracketed(t, n)
      case Found(last) => Near(t, last)
      case NoSuccess => false
      case HitBound => false
  {
    Steps();
    hide Step;
    if k :| BracketedAt(k, t, s) {
      BracketKeptAt(k, t, s);
    } else if s.iteration == 1 && t > MIN_MS {
      assert BracketedAt(1, t, Search(165.0, 135.0, 300.0, true, true, 2));
    }
  }

  // ---------------------------------------------------------------- the whole search

  datatype Outcome = Candidate(ms: real) | Exhausted

  /** The search from `s` on, on a motor that delivers from `t` on. */
  ghost function Outcomes(t: real, s: Search): Outcome
    requires InRange(s)
    decreases MAX_ITERATIONS - s.iteration
  {
    if s.iteration >= MAX_ITERATIONS then Exhausted else
      TestStaysInRange(s, s.pulse >= t);
      match AfterTest(s, s.pulse >= t)
      case Again(n) => Outcomes(t, n)
      case Found(last) => Candidate(CeilTen(last))
  }

  lemma {:induction false} BracketedFinds(t: real, s: Search)
    requires t <= MAX_MS && Bracketed(t, s) && InRange(s)
    ensures Outcomes(t, s).Candidate?
    ensures t <= Outcomes(t, s).ms <= MAX_MS
    ensures Outcomes(t, s).ms < (if t < MIN_MS then MIN_MS else t) + 270.0 / 64.0 + 10.0
    decreases MAX_ITERATIONS - s.iteration
  {
    BracketKept(t, s);
    TestStaysInRange(s, s.pulse >= t);
    hide Bracketed;
    match AfterTest(s, s.pulse >= t)
    case Again(n) => BracketedFinds(t, n);
    case Found(last) => CeilTenBounds(last);
  }

  /** The longest pulse is tried again and again. */
  lemma {:induction false} DeadMotorExhausts(t: real, s: Search)
    requires t > MAX_MS && InRange(s) && s.last == 0.0
    ensures Outcomes(t, s) == Exhausted
    decreases MAX_ITERATIONS - s.iteration
  {
    if s.iteration < MAX_ITERATIONS {
      TestStaysInRange(s, s.pulse >= t);
      DeadMotorExhausts(t, AfterTest(s, false).s);
    }
  }

  /** The search ends with a candidate exactly if the longest pulse works, and then close above the threshold. */
  lemma SearchConverges(t: real)
    ensures Outcomes(t, Start()).Candidate? <==> t <= MAX_MS
    ensures t <= MAX_MS ==> t <= Outcomes(t, Start()).ms <= MAX_MS
    ensures t <= MAX_MS ==>
      Outcomes(t, Start()).ms < (if t < MIN_MS then MIN_MS else t) + 270.0 / 64.0 + 10.0
  {
    if t <= MAX_MS {
      BracketedFinds(t, Start());
    } else {
      DeadMotorExhausts(t, Start());
    }
  }

  // ---------------------------------------------------------------- whole milliseconds

  /** The motor runs for whole milliseconds, so a pulse works from the next whole one above the limit on. */
  function Threshold(limit: real): real {
    -((-limit).Floor as real)
  }

  lemma IntBelow(i: int, x: real)
    ensures i as real <= x <==> i <= x.Floor
  {
  }

  lemma WholeMilliseconds(limit: real, pulse: real)
    ensures pulse.Floor as real >= limit <==> pulse >= Threshold(limit)
    ensures limit <= MAX_MS <==> Threshold(limit) <= MAX_MS
  {
    var n, m := pulse.Floor, -(-limit).Floor;
    IntBelow(-n, -limit);
    assert (-n) as real == -(n as real);
    assert n as real >= limit <==> n >= m;
    IntBelow(m, pulse);
    IntBelow(-300, -limit);
  }
}
