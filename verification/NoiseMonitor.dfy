/**
  Noise statistics over a ring of the last samples.

  The source sums differences from the newest sample, so that the sums stay small, and turns them
  into a variance at the end.  This is the textbook variance of the samples in the ring.
*/
module NoiseMonitor {
  const CAPACITY := 300     // 30 seconds at 10 samples per second
  const MIN_SAMPLES := 20
  const INT64_MAX := 0x7FFF_FFFF_FFFF_FFFF

  /** A sample of 24 bits, in the offset binary form of the converter. */
  type sample = x: int | 0 <= x < 0x100_0000

  // ---------------------------------------------------------------- the textbook

  function Sum(w: seq<sample>): int {
    if w == [] then 0 else w[0] + Sum(w[1..])
  }

  /** The sum of the squared differences from `m`. */
  function Squares(w: seq<sample>, m: real): (r: real)
    ensures r >= 0.0
  {
    if w == [] then 0.0 else
      var d := w[0] as real - m;
      SquareIsPositive(d);
      d * d + Squares(w[1..], m)
  }

  lemma SquareIsPositive(d: real)
    ensures d * d >= 0.0
  {
    if d < 0.0 {
      assert -d * -d > 0.0;
    }
  }

  function Mean(w: seq<sample>): real
    requires w != []
  {
    Sum(w) as real / |w| as real
  }

  function Variance(w: seq<sample>): (r: real)
    requires |w| >= 2
    ensures r >= 0.0
  {
    Squares(w, Mean(w)) / (|w| - 1) as real
  }

  function Max(w: seq<sample>): (m: sample)
    requires w != []
    ensures m in w && forall x :: x in w ==> x <= m
  {
    if |w| == 1 then w[0] else
      var rest := Max(w[1..]);
      assert w == [w[0]] + w[1..];
      if w[0] > rest then w[0] else rest
  }

  function Min(w: seq<sample>): (m: sample)
    requires w != []
    ensures m in w && forall x :: x in w ==> m <= x
  {
    if |w| == 1 then w[0] else
      var rest := Min(w[1..]);
      assert w == [w[0]] + w[1..];
      if w[0] < rest then w[0] else rest
  }

  // ---------------------------------------------------------------- the shifted sums

  function SumDelta(w: seq<sample>, base: sample): int {
    if w == [] then 0 else w[0] - base + SumDelta(w[1..], base)
  }

  function Square(d: int): int {
    d * d
  }

  function SumDeltaSq(w: seq<sample>, base: sample): int {
    if w == [] then 0 else Square(w[0] - base) + SumDeltaSq(w[1..], base)
  }

  /** The differences fit 25 bits, so no sum of a full ring overflows 64. */
  lemma {:induction false} SumsFit(w: seq<sample>, base: sample)
    requires |w| <= CAPACITY
    ensures -|w| * 0x100_0000 <= SumDelta(w, base) <= |w| * 0x100_0000
    ensures 0 <= SumDeltaSq(w, base) <= |w| * 0x1_0000_0000_0000 <= INT64_MAX
    decreases |w|
  {
    if w != [] {
      SumsFit(w[1..], base);
      DeltaFits(w[0] - base);
    }
  }

  lemma DeltaFits(d: int)
    requires -0x100_0000 < d < 0x100_0000
    ensures 0 <= d * d <= 0x1_0000_0000_0000
  {
    if d >= 0 {
      assert d * d <= d * 0x100_0000;
    } else {
      assert -d * -d <= -d * 0x100_0000;
    }
  }

  lemma {:induction false} SumShifted(w: seq<sample>, base: sample)
    ensures SumDelta(w, base) == Sum(w) - |w| * base
    decreases |w|
  {
    if w != [] {
      SumShifted(w[1..], base);
      assert |w| * base == |w[1..]| * base + base;
    }
  }

  lemma {:induction false} SquaresShifted(w: seq<sample>, base: sample)
    ensures SumDeltaSq(w, base) as real == Squares(w, base as real)
    decreases |w|
  {
    if w != [] {
      SquaresShifted(w[1..], base);
      var d := w[0] - base;
      assert d as real == w[0] as real - base as real;
      assert (d * d) as real == d as real * d as real;
    }
  }

  /** Squares about `m`, from the squares about `b`, the sum of the differences from `b` and the number of samples. */
  function Moved(atB: real, b: real, m: real, s: real, n: real): real {
    atB - 2.0 * (m - b) * s + n * ((m - b) * (m - b))
  }

  lemma OnePoint(x: real, b: real, m: real, s: real, n: real, atB: real)
    ensures (x - m) * (x - m) + Moved(atB, b, m, s, n) == Moved((x - b) * (x - b) + atB, b, m, (x - b) + s, n + 1.0)
  {
    var c, d := m - b, x - b;
    assert (x - m) * (x - m) == (d - c) * (d - c) == d * d - 2.0 * c * d + c * c;
    assert 2.0 * c * (d + s) == 2.0 * c * d + 2.0 * c * s;
    assert (n + 1.0) * (c * c) == n * (c * c) + c * c;
  }

  lemma NoPoints(base: sample, m: real)
    ensures Squares([], m) == Moved(Squares([], base as real), base as real, m, SumDelta([], base) as real, 0.0)
  {
  }

  lemma OneMore(w: seq<sample>, base: sample, m: real)
    requires w != []
    ensures Squares(w, m) == (w[0] as real - m) * (w[0] as real - m) + Squares(w[1..], m)
    ensures SumDelta(w, base) as real == (w[0] as real - base as real) + SumDelta(w[1..], base) as real
    ensures |w| as real == |w[1..]| as real + 1.0
  {
  }

  /** Squares about one point in terms of squares about another. */
  lemma {:induction false} Steiner(w: seq<sample>, base: sample, m: real)
    ensures Squares(w, m) == Moved(Squares(w, base as real), base as real, m, SumDelta(w, base) as real, |w| as real)
    decreases |w|
  {
    hide Moved, Squares, SumDelta;
    var rest := if w == [] then [] else w[1..];
    var b, s, n := base as real, SumDelta(rest, base) as real, |rest| as real;
    if w == [] {
      NoPoints(base, m);
    } else {
      Steiner(rest, base, m);
      var x := w[0] as real;
      OneMore(w, base, m);
      OneMore(w, base, b);
      OnePoint(x, b, m, s, n, Squares(rest, b));
      var square := (x - b) * (x - b);
      assert Squares(w, b) == square + Squares(rest, b);
      assert SumDelta(w, base) as real == (x - b) + s;
      assert |w| as real == n + 1.0;
    }
  }

  /** The formula of the source, over the reals. */
  function ShiftedVariance(n: int, sum: int, sumSq: int): real
    requires n >= 2
  {
    (sumSq as real - sum as real * (sum as real / n as real)) / (n as real - 1.0)
  }

  lemma MeanShift(sum: real, base: real, s: real, n: real)
    requires n > 0.0 && s == sum - n * base
    ensures sum / n - base == s / n
  {
    assert (s + n * base) / n == s / n + base;
  }

  lemma Completed(sq: real, b: real, m: real, s: real, n: real)
    requires n > 0.0 && m - b == s / n
    ensures Moved(sq, b, m, s, n) == sq - s * (s / n)
  {
    var d := s / n;
    assert d * n == s;
    assert n * (d * d) == (d * n) * d;
  }

  lemma MeanDelta(w: seq<sample>, base: sample)
    requires w != []
    ensures Mean(w) - base as real == SumDelta(w, base) as real / |w| as real
  {
    SumShifted(w, base);
    ToReal(|w|, base);
    var sum, s := Sum(w), SumDelta(w, base);
    hide Sum, SumDelta;
    assert s as real == sum as real - (|w| * base) as real;
    MeanShift(sum as real, base as real, s as real, |w| as real);
  }

  lemma ToReal(a: int, b: int)
    ensures (a * b) as real == a as real * b as real
  {
  }

  /** Whatever sample the differences are taken from, the formula is the textbook variance. */
  lemma VarianceIsTextbook(w: seq<sample>, base: sample)
    requires |w| >= 2
    ensures ShiftedVariance(|w|, SumDelta(w, base), SumDeltaSq(w, base)) == Variance(w)
  {
    hide Moved, Squares, SumDelta, SumDeltaSq, Mean, Sum;
    MeanDelta(w, base);
    Steiner(w, base, Mean(w));
    SquaresShifted(w, base);
    Completed(Squares(w, base as real), base as real, Mean(w), SumDelta(w, base) as real, |w| as real);
  }

  // ---------------------------------------------------------------- the ring

  datatype RawStats = RawStats(valid: bool, count: nat, variance: real, range: int)

  /** The last samples, as many as the ring holds. */
  function Window(history: seq<sample>): seq<sample> {
    if |history| <= CAPACITY then history else history[|history| - CAPACITY..]
  }

  class LoadCellNoiseMonitor {
    const values: array<sample>
    var writeIndex: nat
    var count: nat
    ghost var history: seq<sample>  // everything since the ring was cleared

    ghost predicate Valid()
      reads this, values
    {
      && values.Length == CAPACITY
      && writeIndex == |history| % CAPACITY
      && count == |Window(history)|
      && forall i :: |history| - count <= i < |history| ==> values[i % CAPACITY] == history[i]
    }

    constructor ()
      ensures Valid() && history == [] && fresh(values)
    {
      values := new sample[CAPACITY](i => 0);
      writeIndex, count, history := 0, 0, [];
    }

    /** `clear` */
    method Clear()
      requires Valid()
      modifies this, values
      ensures Valid() && history == []
    {
      writeIndex, count, history := 0, 0, [];
      var i := 0;
      while i < CAPACITY
        invariant Valid() && history == []
        modifies values
      {
        values[i] := 0;
        i := i + 1;
      }
    }

    /** `add_sample` */
    method AddSample(x: sample)
      requires Valid()
      modifies this, values
      ensures Valid() && history == old(history) + [x]
    {
      ghost var n := |history|;
      values[writeIndex] := x;
      writeIndex := (writeIndex + 1) % CAPACITY;
      NextPlace(n);
      if count < CAPACITY {
        count := count + 1;
      }
      history := history + [x];
      forall i | n + 1 - count <= i < n + 1
        ensures values[i % CAPACITY] == history[i]
      {
        if i < n {
          DifferentPlaces(i, n);
        }
      }
    }

    /** Where the sample `i` before the newest one is kept. */
    lemma Slot(i: nat)
      requires Valid() && i < count
      ensures writeIndex < CAPACITY && i < CAPACITY
      ensures values[Place(writeIndex, i)] == Window(history)[count - 1 - i]
    {
      WindowEnd(history, i);
      hide Window;
      var j := |history| - 1 - i;
      assert values[j % CAPACITY] == history[j];
      RingIndex(|history|, i);
      hide Place;
    }

    /** The loop of `get_stats`, from the newest sample to the oldest. */
    method Scan(baseline: sample) returns (sumDelta: int, sumDeltaSq: int, minDelta: int, maxDelta: int)
      requires Valid()
      ensures Seen(Window(history), baseline, sumDelta, sumDeltaSq, minDelta, maxDelta)
    {
      var n := count;
      ghost var w := Window(history);
      assert n == |w| && values.Length == CAPACITY && n <= CAPACITY && writeIndex < CAPACITY;
      hide Valid, Window, Place, Seen, Square;
      sumDelta, sumDeltaSq, minDelta, maxDelta := 0, 0, 0, 0;
      NothingSeen(baseline);
      assert w[n..] == [];
      assert w[0..] == w;
      var i := 0;
      ghost var k := n;
      while i < n
        invariant 0 <= i <= n && k == n - i
        invariant Seen(w[k..], baseline, sumDelta, sumDeltaSq, minDelta, maxDelta)
      {
        var index := Place(writeIndex, i);
        var delta := (values[index] as int) - (baseline as int);
        assert delta == w[k - 1] as int - baseline as int by {
          Slot(i);
        }
        sumDelta, sumDeltaSq, minDelta, maxDelta :=
          Accumulate(i == 0, delta, sumDelta, sumDeltaSq, minDelta, maxDelta, w, k, baseline);
        i := i + 1;
        k := k - 1;
      }
    }

    /** `get_stats`, up to the square root. */
    method GetStats() returns (stats: RawStats)
      requires Valid()
      ensures stats.count == |Window(history)| == if |history| <= 300 then |history| else 300
      ensures stats.valid <==> |history| >= 20
      ensures stats.valid ==> stats.variance == Variance(Window(history))
      ensures stats.valid ==> stats.range == Max(Window(history)) - Min(Window(history))
    {
      WindowIsSuffix(history);
      var n := count;
      if n < MIN_SAMPLES {
        return RawStats(false, n, 0.0, 0);
      }
      hide Max, Min, Variance, ShiftedVariance, SumDelta, SumDeltaSq;
      ghost var w := Window(history);
      Slot(0);
      var baseline := values[Place(writeIndex, 0)];
      var sumDelta, sumDeltaSq, minDelta, maxDelta := Scan(baseline);
      var variance := ShiftedVariance(n, sumDelta, sumDeltaSq);
      if variance < 0.0 {
        variance := 0.0;
      }
      VarianceIsTextbook(w, baseline);
      return RawStats(true, n, variance, maxDelta - minDelta);
    }
  }

  /** The accumulators after the samples `w`; the sums fit 64 bits. */
  ghost predicate Seen(w: seq<sample>, base: sample, sum: int, sumSq: int, least: int, most: int) {
    && sum == SumDelta(w, base) && -INT64_MAX <= sum <= INT64_MAX
    && sumSq == SumDeltaSq(w, base) && 0 <= sumSq <= INT64_MAX
    && (w != [] ==> least == Min(w) - base && most == Max(w) - base)
  }

  lemma NothingSeen(base: sample)
    ensures Seen([], base, 0, 0, 0, 0)
  {
  }

  lemma SeenMore(w: seq<sample>, k: nat, base: sample, sum: int, sumSq: int, least: int, most: int, d: int)
    requires 0 < k <= |w| <= CAPACITY && Seen(w[k..], base, sum, sumSq, least, most)
    requires d == w[k - 1] as int - base as int
    ensures Seen(w[k - 1..], base, sum + d, sumSq + Square(d),
      if k == |w| || d < least then d else least, if k == |w| || d > most then d else most)
  {
    assert w[k - 1..] == [w[k - 1]] + w[k..];
    OneMoreSum(w[k - 1], w[k..], base);
    SumsFit(w[k - 1..], base);
    hide SumDelta, SumDeltaSq, Min, Max;
  }

  method Accumulate(first: bool, delta: int, sumDelta: int, sumDeltaSq: int, minDelta: int, maxDelta: int,
                    ghost w: seq<sample>, ghost k: nat, ghost base: sample)
    returns (sum: int, sumSq: int, least: int, most: int)
    requires 0 < k <= |w| <= CAPACITY && Seen(w[k..], base, sumDelta, sumDeltaSq, minDelta, maxDelta)
    requires delta == w[k - 1] as int - base as int && first == (k == |w|)
    ensures Seen(w[k - 1..], base, sum, sumSq, least, most)
  {
    SeenMore(w, k, base, sumDelta, sumDeltaSq, minDelta, maxDelta, delta);
    hide Seen;
    sum := sumDelta + delta;
    sumSq := sumDeltaSq + Square(delta);
    least, most := minDelta, maxDelta;
    if first || delta < minDelta {
      least := delta;
    }
    if first || delta > maxDelta {
      most := delta;
    }
  }

  lemma OneMoreSum(x: sample, w: seq<sample>, base: sample)
    ensures SumDelta([x] + w, base) == x - base + SumDelta(w, base)
    ensures SumDeltaSq([x] + w, base) == Square((x as int) - (base as int)) + SumDeltaSq(w, base)
    ensures Max([x] + w) == if w != [] && Max(w) >= x then Max(w) else x
    ensures Min([x] + w) == if w != [] && Min(w) <= x then Min(w) else x
  {
    assert ([x] + w)[1..] == w;
  }

  lemma NextPlace(n: nat)
    ensures (n % CAPACITY + 1) % CAPACITY == (n + 1) % CAPACITY
  {
  }

  lemma DifferentPlaces(i: nat, n: nat)
    requires i < n < i + CAPACITY
    ensures i % CAPACITY != n % CAPACITY
  {
  }

  /** The place of the sample `i` before the newest one. */
  function Place(writeIndex: nat, i: nat): (p: nat)
    requires writeIndex < CAPACITY && i < CAPACITY
    ensures p < CAPACITY
  {
    (writeIndex - 1 - i + CAPACITY) % CAPACITY
  }

  /** The window is the end of the history. */
  lemma WindowIsSuffix(history: seq<sample>)
    ensures |Window(history)| == if |history| <= 300 then |history| else 300
    ensures Window(history) == history[|history| - |Window(history)|..]
  {
  }

  lemma WindowEnd(history: seq<sample>, i: nat)
    requires i < |Window(history)|
    ensures |Window(history)| <= CAPACITY && |Window(history)| <= |history|
    ensures Window(history)[|Window(history)| - 1 - i] == history[|history| - 1 - i]
  {
  }

  lemma RingIndex(n: nat, i: nat)
    requires i < CAPACITY && i < n
    ensures Place(n % CAPACITY, i) == (n - 1 - i) % CAPACITY
  {
    var q, r := n / CAPACITY, n % CAPACITY;
    assert n - 1 - i == q * CAPACITY + (r - 1 - i);
    if r - 1 - i >= 0 {
      assert (n - 1 - i) % CAPACITY == r - 1 - i;
    } else {
      assert n - 1 - i == (q - 1) * CAPACITY + (r - 1 - i + CAPACITY);
    }
  }
}
