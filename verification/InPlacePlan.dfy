/**
  What the memory should look like during an in-place update.

  The update is a list of steps.  First the old image is moved up by `shift` bytes, highest segment
  first.  Then the new image is written from address 0 up, one segment a step.  `IdealAt` is the
  memory after a number of completed steps, and the window of a step is the range it may touch.
*/
module InPlacePlan {
  import opened Bytes

  /** `image` is the memory before the update; the old image is its first `count * seg` bytes. */
  datatype Geometry = Geometry(seg: nat, shift: nat, count: nat, image: seq<byte>)

  predicate GeometryOk(g: Geometry) {
    && 0 < g.seg <= g.shift
    && g.shift + g.count * g.seg <= |g.image|
  }

  datatype Plan = Plan(g: Geometry, target: seq<byte>)

  predicate PlanOk(p: Plan) {
    GeometryOk(p.g) && |p.target| <= |p.g.image| && (p.target == [] ==> p.g.count == 0)
  }

  /** How many segments the new image has. */
  function Segments(p: Plan): nat
    requires PlanOk(p)
  {
    (|p.target| + p.g.seg - 1) / p.g.seg
  }

  function Steps(p: Plan): nat
    requires PlanOk(p)
  {
    p.g.count + Segments(p)
  }

  lemma SegmentsBound(p: Plan)
    requires PlanOk(p)
    ensures Segments(p) >= 1 <==> p.target != []
    ensures p.target != [] ==> (Segments(p) - 1) * p.g.seg < |p.target| <= Segments(p) * p.g.seg
  {
    var n, d := |p.target| + p.g.seg - 1, p.g.seg;
    assert n == (n / d) * d + n % d;
  }

  /** A byte of the memory once the old image is moved. */
  function MovedAt(g: Geometry, a: nat): byte
    requires GeometryOk(g) && a < |g.image|
  {
    if g.shift <= a < g.shift + g.count * g.seg then g.image[a - g.shift] else g.image[a]
  }

  /** A byte of the memory after `k` steps. */
  function IdealAt(p: Plan, k: nat, a: nat): byte
    requires PlanOk(p) && a < |p.g.image|
  {
    var g := p.g;
    if k < g.count then
      if g.shift <= a && g.shift + (g.count - k) * g.seg <= a < g.shift + g.count * g.seg then g.image[a - g.shift]
      else g.image[a]
    else if a < (k - g.count) * g.seg && a < |p.target| then p.target[a]
    else MovedAt(g, a)
  }

  /** The addresses step `k` may touch. */
  predicate InWindow(p: Plan, k: int, a: int) {
    var g := p.g;
    if k <= g.count then g.shift + (g.count - k) * g.seg <= a < g.shift + (g.count - k) * g.seg + g.seg
    else (k - g.count - 1) * g.seg <= a < (k - g.count - 1) * g.seg + g.seg && a < |p.target|
  }

  /** `c` steps are done, and only the window of the next one may hold anything else. */
  ghost predicate Safe(p: Plan, mem: seq<byte>, c: int)
    requires PlanOk(p)
  {
    && |mem| == |p.g.image| && (0 <= c < Steps(p) || (c == 0 && p.target == []))
    && forall a :: 0 <= a < |mem| && !InWindow(p, c + 1, a) ==> mem[a] == IdealAt(p, c, a)
  }

  /** The update is over: the new image, and above it what the moved image left. */
  ghost predicate Finished(p: Plan, mem: seq<byte>)
    requires PlanOk(p)
  {
    && |mem| == |p.g.image|
    && (forall a :: 0 <= a < |p.target| ==> mem[a] == p.target[a])
    && (forall a :: |p.target| <= a < |mem| ==> mem[a] == MovedAt(p.g, a))
  }

  lemma SafeSize(p: Plan, mem: seq<byte>, c: int)
    requires PlanOk(p) && Safe(p, mem, c)
    ensures |mem| == |p.g.image| && (0 <= c < Steps(p) || (c == 0 && p.target == []))
  {
  }

  /** An empty new image: there is nothing to do, and the old one is not moved either. */
  lemma NothingToDo(p: Plan, mem: seq<byte>, c: int)
    requires PlanOk(p) && Safe(p, mem, c) && p.target == []
    ensures c == 0 && Finished(p, mem)
  {
  }

  /** Nothing was done yet. */
  lemma SafeAtStart(p: Plan)
    requires PlanOk(p)
    ensures Safe(p, p.g.image, 0)
  {
    SegmentsBound(p);
  }

  /** A step changes nothing outside its window. */
  lemma IdealStep(p: Plan, k: nat, a: nat)
    requires PlanOk(p) && 1 <= k <= Steps(p) && a < |p.g.image| && !InWindow(p, k, a)
    ensures IdealAt(p, k, a) == IdealAt(p, k - 1, a)
  {
    var g := p.g;
    if k <= g.count {
      assert (g.count - (k - 1)) * g.seg == (g.count - k) * g.seg + g.seg;
    } else {
      assert (k - g.count) * g.seg == (k - g.count - 1) * g.seg + g.seg;
    }
  }

  /** What a step of the move reads is still the old image, and is not what the step writes. */
  lemma MoveReads(p: Plan, k: nat, base: nat, x: nat)
    requires PlanOk(p) && 1 <= k <= p.g.count && base == (p.g.count - k) * p.g.seg && x < p.g.seg
    ensures base + x < |p.g.image| && !InWindow(p, k, base + x)
    ensures IdealAt(p, k - 1, base + x) == p.g.image[base + x]
  {
    var g := p.g;
    assert (g.count - (k - 1)) * g.seg == (g.count - k) * g.seg + g.seg;
    assert g.count * g.seg == (g.count - k) * g.seg + k * g.seg;
    assert k * g.seg >= g.seg;
  }

  /** What a step of the move must leave in its window. */
  lemma MoveWrites(p: Plan, k: nat, base: nat, x: nat)
    requires PlanOk(p) && 1 <= k <= p.g.count && base == (p.g.count - k) * p.g.seg && x < p.g.seg
    ensures base + x + p.g.shift < |p.g.image|
    ensures InWindow(p, k, base + x + p.g.shift)
    ensures IdealAt(p, k, base + x + p.g.shift) == p.g.image[base + x]
  {
    var g := p.g;
    assert g.count * g.seg == (g.count - k) * g.seg + k * g.seg;
    assert k * g.seg >= g.seg;
  }

  /**
    What segment `j` reads, at addresses from (j + 1) * seg up, is the moved old image: no segment
    written so far reaches that far, and neither does the segment being written.
  */
  lemma SegmentReads(p: Plan, j: nat, a: nat)
    requires PlanOk(p) && (j + 1) * p.g.seg <= a && p.g.shift <= a < p.g.shift + p.g.count * p.g.seg
    ensures a < |p.g.image|
    ensures !InWindow(p, p.g.count + 1 + j, a)
    ensures IdealAt(p, p.g.count + j, a) == p.g.image[a - p.g.shift]
  {
    assert (j + 1) * p.g.seg == j * p.g.seg + p.g.seg;
  }

  lemma SegmentWrites(p: Plan, j: nat, a: nat)
    requires PlanOk(p) && InWindow(p, p.g.count + 1 + j, a)
    ensures a < |p.target| && IdealAt(p, p.g.count + 1 + j, a) == p.target[a]
  {
    assert (j + 1) * p.g.seg == j * p.g.seg + p.g.seg;
  }

  /** Once the steps of the move are done, the old image is all there, `shift` bytes higher. */
  lemma OldImageMoved(p: Plan, mem: seq<byte>, i: nat)
    requires PlanOk(p) && Safe(p, mem, p.g.count) && i < p.g.count * p.g.seg
    ensures p.g.shift + i < |mem| && mem[p.g.shift + i] == p.g.image[i]
  {
    var a := p.g.shift + i;
    assert !InWindow(p, p.g.count + 1, a);
    assert IdealAt(p, p.g.count, a) == p.g.image[i];
  }

  /** A step whose window holds what it should is done. */
  lemma StepDone(p: Plan, mem: seq<byte>, c: nat)
    requires PlanOk(p) && Safe(p, mem, c) && c + 1 < Steps(p)
    requires forall a :: 0 <= a < |mem| && InWindow(p, c + 1, a) ==> mem[a] == IdealAt(p, c + 1, a)
    ensures Safe(p, mem, c + 1)
  {
    forall a | 0 <= a < |mem|
      ensures mem[a] == IdealAt(p, c + 1, a)
    {
      if !InWindow(p, c + 1, a) {
        IdealStep(p, c + 1, a);
      }
    }
  }

  lemma LastStepDone(p: Plan, mem: seq<byte>, c: nat)
    requires PlanOk(p) && Safe(p, mem, c) && c + 1 == Steps(p)
    requires forall a :: 0 <= a < |mem| && InWindow(p, c + 1, a) ==> mem[a] == IdealAt(p, c + 1, a)
    ensures Finished(p, mem)
  {
    SegmentsBound(p);
    forall a | 0 <= a < |mem|
      ensures mem[a] == if a < |p.target| then p.target[a] else MovedAt(p.g, a)
    {
      if !InWindow(p, c + 1, a) {
        IdealStep(p, c + 1, a);
      }
      assert IdealAt(p, Steps(p), a) == if a < |p.target| then p.target[a] else MovedAt(p.g, a);
    }
  }

  /** Whatever happens to the window of the next step, the update can still be taken up from there. */
  lemma SafeWindow(p: Plan, mem: seq<byte>, mem': seq<byte>, c: nat)
    requires PlanOk(p) && Safe(p, mem, c) && |mem'| == |mem|
    requires forall a :: 0 <= a < |mem| && !InWindow(p, c + 1, a) ==> mem'[a] == mem[a]
    ensures Safe(p, mem', c)
  {
  }

  /** Which step writes a given segment, and which one is the last. */
  lemma SegmentCount(p: Plan, j: nat)
    requires PlanOk(p)
    ensures j * p.g.seg < |p.target| <==> j < Segments(p)
  {
    SegmentsBound(p);
    if j < Segments(p) {
      assert j * p.g.seg <= (Segments(p) - 1) * p.g.seg;
    } else {
      assert Segments(p) * p.g.seg <= j * p.g.seg;
    }
  }

  /** There is only one finished memory: however an update got there, the result is the same. */
  lemma FinishedUnique(p: Plan, a: seq<byte>, b: seq<byte>)
    requires PlanOk(p) && Finished(p, a) && Finished(p, b)
    ensures a == b
  {
    forall i | 0 <= i < |a|
      ensures a[i] == b[i]
    {
      if i >= |p.target| {
        assert a[i] == MovedAt(p.g, i);
      }
    }
  }
}
