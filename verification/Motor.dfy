/**
  The grinder motor: how a pulse is cut into the symbols the transmitter sends, and the flags the
  driver keeps about what the motor is doing.
*/
module Motor {
  const MAX_PHASE := 32767
  const MAX_SYMBOL := MAX_PHASE * 2
  const MAX_SUPPORTED_PULSE_MS := 1000
  const CAPACITY := 16  // required_symbol_count(1000 ms), also bounded by the 64 symbols of the RMT memory block

  // ---------------------------------------------------------------- cutting a pulse

  /** `required_symbol_count` */
  function RequiredSymbols(us: nat): nat {
    if us == 0 then 0 else (us + MAX_SYMBOL - 1) / MAX_SYMBOL
  }

  function ToUint16(x: nat): nat {
    x % 0x1_0000
  }

  function SymbolLength(us: nat, i: nat): nat
    requires i < RequiredSymbols(us)
  {
    us / RequiredSymbols(us) + if i < us % RequiredSymbols(us) then 1 else 0
  }

  /** `symbol_durations`: the two halves of symbol `i` of a pulse. */
  function SymbolHalves(us: nat, i: nat): (nat, nat) {
    if i >= RequiredSymbols(us) then (0, 0) else
      var length := SymbolLength(us, i);
      (ToUint16((length + 1) / 2), ToUint16(length / 2))
  }

  lemma CountBounds(us: nat)
    requires us > 0
    ensures RequiredSymbols(us) > 0
    ensures us <= RequiredSymbols(us) * MAX_SYMBOL < us + MAX_SYMBOL
  {
  }

  lemma MulOrder(a: nat, b: nat, c: nat)
    requires a <= b
    ensures c * a <= c * b
  {
  }

  /** Dividing `us` into `n` parts of at most `most` each. */
  lemma QuotientFits(us: nat, n: nat, most: nat)
    requires n > 0 && us <= n * most
    ensures us == n * (us / n) + us % n
    ensures us / n <= most
    ensures us % n > 0 ==> us / n < most
  {
    var q := us / n;
    if q > most {
      MulOrder(most + 1, q, n);
    }
  }

  /** Every part has at least `least`. */
  lemma QuotientReaches(us: nat, n: nat, least: nat)
    requires n > 0 && n * least <= us
    ensures us / n >= least
  {
    if us / n < least {
      MulOrder(us / n + 1, least, n);
    }
  }

  lemma LengthBounds(us: nat, i: nat)
    requires i < RequiredSymbols(us)
    ensures 1 <= SymbolLength(us, i) <= MAX_SYMBOL
    ensures SymbolLength(us, i) == 1 <==> us == 1
  {
    var n := RequiredSymbols(us);
    CountBounds(us);
    QuotientFits(us, n, MAX_SYMBOL);
    if n > 1 {
      QuotientReaches(us, n, 2);
    }
  }

  /** Every half fits its 16-bit field, and no half is empty unless the pulse is a single microsecond. */
  lemma HalvesFit(us: nat, i: nat)
    requires i < RequiredSymbols(us)
    ensures var (a, b) := SymbolHalves(us, i);
      && a + b == SymbolLength(us, i)
      && 1 <= a <= 32767
      && b <= 32767
      && (b == 0 <==> us == 1)
  {
    LengthBounds(us, i);
    hide RequiredSymbols, SymbolLength;
  }

  type Symbols = seq<(nat, nat)>

  function Total(s: Symbols): nat {
    if s == [] then 0 else s[0].0 + s[0].1 + Total(s[1..])
  }

  predicate Fits(s: Symbols) {
    forall i :: 0 <= i < |s| ==> s[i].0 <= MAX_PHASE && s[i].1 <= MAX_PHASE
  }

  /** No way of cutting a pulse into symbols uses fewer of them. */
  lemma {:induction false} FewestSymbols(s: Symbols)
    requires Fits(s)
    ensures RequiredSymbols(Total(s)) <= |s|
  {
    TotalBound(s);
    var us := Total(s);
    if us > 0 {
      CountBounds(us);
    }
  }

  lemma {:induction false} TotalBound(s: Symbols)
    requires Fits(s)
    ensures Total(s) <= |s| * MAX_SYMBOL
  {
    if s != [] {
      TotalBound(s[1..]);
    }
  }

  /** All the symbols of a pulse. */
  function Cut(us: nat): (s: Symbols)
    ensures |s| == RequiredSymbols(us)
  {
    seq(RequiredSymbols(us), i requires 0 <= i => SymbolHalves(us, i))
  }

  lemma OneMore(n: nat, q: nat)
    requires n > 0
    ensures n * q == (n - 1) * q + q
  {
  }

  lemma {:induction false} SuffixTotal(us: nat, k: nat)
    requires us > 0 && k <= RequiredSymbols(us)
    ensures var n := RequiredSymbols(us);
      n > 0 && Total(Cut(us)[k..]) == (n - k) * (us / n) + if k < us % n then us % n - k else 0
    decreases RequiredSymbols(us) - k
  {
    var n := RequiredSymbols(us);
    CountBounds(us);
    hide RequiredSymbols, SymbolHalves;
    var s := Cut(us);
    if k < n {
      SuffixTotal(us, k + 1);
      HalvesFit(us, k);
      assert s[k..][0] == SymbolHalves(us, k) && s[k..][1..] == s[k + 1..];
      OneMore(n - k, us / n);
    }
  }

  /** The symbols add up to the pulse, to the microsecond. */
  lemma CutIsExact(us: nat)
    ensures Total(Cut(us)) == us
    ensures Fits(Cut(us))
  {
    var s := Cut(us);
    if us > 0 {
      SuffixTotal(us, 0);
      assert s[0..] == s;
      CountBounds(us);
      QuotientFits(us, RequiredSymbols(us), MAX_SYMBOL);
    }
    hide RequiredSymbols, SymbolHalves;
    forall i | 0 <= i < |s|
      ensures s[i].0 <= MAX_PHASE && s[i].1 <= MAX_PHASE
    {
      HalvesFit(us, i);
    }
  }

  // ---------------------------------------------------------------- the driver

  /** `rmt_symbol_word_t` */
  datatype Symbol = Symbol(level0: bool, duration0: nat, level1: bool, duration1: nat)

  /**
    How long the line is driven high by a payload.  The transmitter stops at the end of the payload
    or at the first half of length zero, whichever comes first, and the line is low afterwards.
  */
  function HighTime(s: seq<Symbol>): nat {
    if s == [] || s[0].duration0 == 0 then 0 else
      var first := if s[0].level0 then s[0].duration0 else 0;
      if s[0].duration1 == 0 then first else
        first + (if s[0].level1 then s[0].duration1 else 0) + HighTime(s[1..])
  }

  function Encode(halves: (nat, nat)): Symbol {
    Symbol(true, halves.0, halves.1 > 0, halves.1)
  }

  lemma {:induction false} HighThroughout(payload: seq<Symbol>, s: Symbols)
    requires |payload| == |s|
    requires forall i :: 0 <= i < |s| ==> payload[i] == Encode(s[i]) && s[i].0 > 0 && s[i].1 > 0
    ensures HighTime(payload) == Total(s)
  {
    if s != [] {
      HighThroughout(payload[1..], s[1..]);
    }
  }

  /** The payload of a pulse drives the motor for exactly its length. */
  lemma PayloadIsExact(payload: seq<Symbol>, us: nat)
    requires us > 1 && |payload| == RequiredSymbols(us)
    requires forall i :: 0 <= i < |payload| ==> payload[i] == Encode(SymbolHalves(us, i))
    ensures HighTime(payload) == us
  {
    hide RequiredSymbols, SymbolHalves;
    forall i | 0 <= i < |payload|
      ensures SymbolHalves(us, i).0 > 0 && SymbolHalves(us, i).1 > 0
    {
      HalvesFit(us, i);
    }
    HighThroughout(payload, Cut(us));
    CutIsExact(us);
  }

  /** What the transmitter is doing. */
  datatype Line = Idle | Continuous | Pulse(us: nat)

  /** The longest pulse whose symbols fit; the source promises the first 1000 of these milliseconds. */
  const LONGEST_PULSE_MS := 1048

  lemma CapacityIsLongest(ms: nat)
    ensures 1 <= RequiredSymbols(ms * 1000) <= CAPACITY <==> 1 <= ms <= LONGEST_PULSE_MS
    ensures LONGEST_PULSE_MS >= MAX_SUPPORTED_PULSE_MS
  {
  }

  /** The driver of the motor.  `line` and `pulses` are not its fields: they say what the hardware did. */
  class Grinder {
    var ready: bool          // initialized and rmt_initialized
    var grinding: bool
    var pulseActive: bool
    var pulseDone: bool
    var background: bool
    const symbols: array<Symbol>
    ghost var line: Line
    ghost var pulses: seq<nat>  // the pulses that ran, in milliseconds

    /** In particular the motor never runs behind the back of the flag the controllers look at. */
    ghost predicate Valid()
      reads this
    {
      && symbols.Length == CAPACITY
      && background == grinding
      && (grinding ==> ready)
      && (pulseActive ==> grinding)
      && (line.Continuous? <==> grinding && !pulseActive)
      && (line.Pulse? <==> pulseActive && !pulseDone)
    }

    /** `init`; the argument says whether the transmitter could be set up. */
    constructor (driverOk: bool)
      ensures Valid() && ready == driverOk && !grinding && line == Idle && pulses == [] && fresh(symbols)
    {
      ready := driverOk;
      grinding, pulseActive, pulseDone, background := false, false, false, false;
      symbols := new Symbol[CAPACITY](i => Symbol(false, 0, false, 0));
      line, pulses := Idle, [];
    }

    /** `start`: run until stopped. */
    method Start(driverOk: bool)
      requires Valid() && !grinding
      modifies this`grinding, this`pulseActive, this`background, this`line
      ensures Valid()
      ensures grinding == (ready && driverOk) && !pulseActive
    {
      if !ready {
        return;
      }
      pulseActive := false;
      if !driverOk {
        return;
      }
      line := Continuous;
      grinding := true;
      background := true;
    }

    /** `stop` */
    method Stop()
      requires Valid()
      modifies this`grinding, this`pulseActive, this`background, this`line
      ensures Valid()
      ensures !grinding && !pulseActive && line == Idle
    {
      if !ready {
        return;
      }
      line := Idle;
      grinding := false;
      pulseActive := false;
      background := false;
    }

    /** `start_pulse_rmt` */
    method StartPulse(ms: nat, driverOk: bool) returns (ok: bool)
      requires Valid() && !grinding
      modifies this`grinding, this`pulseActive, this`pulseDone, this`background, this`line, this`pulses, symbols
      ensures Valid()
      ensures ok <==> ready && driverOk && 1 <= ms <= LONGEST_PULSE_MS
      ensures ok ==> grinding && pulseActive && line == Pulse(ms * 1000) && pulses == old(pulses) + [ms]
      ensures !ok ==> !grinding && line == Idle && pulses == old(pulses)
    {
      CapacityIsLongest(ms);
      hide RequiredSymbols, SymbolHalves, HighTime;
      if !ready {
        return false;
      }
      var us := ms * 1000;
      var count := RequiredSymbols(us);
      if count == 0 || count > CAPACITY {
        return false;
      }
      var index := 0;
      while index < count
        invariant 0 <= index <= count
        invariant forall i :: 0 <= i < index ==> symbols[i] == Encode(SymbolHalves(us, i))
        modifies symbols
      {
        var (first, second) := SymbolHalves(us, index);
        symbols[index] := Symbol(true, first, second > 0, second);
        index := index + 1;
      }
      pulseDone := false;
      if !driverOk {
        return false;
      }
      PayloadIsExact(symbols[..count], us);
      line := Pulse(HighTime(symbols[..count]));
      pulses := pulses + [ms];
      pulseActive := true;
      grinding := true;
      background := true;
      return true;
    }

    /** `on_rmt_trans_done`: the interrupt at the end of a pulse. */
    method TransmitDone()
      requires Valid() && line.Pulse?
      modifies this`pulseDone, this`line
      ensures Valid() && line == Idle && pulseDone
    {
      pulseDone := true;
      line := Idle;
    }

    /** `is_pulse_complete` */
    method IsPulseComplete() returns (complete: bool)
      requires Valid()
      modifies this`grinding, this`pulseActive, this`background
      ensures Valid()
      ensures complete <==> old(!pulseActive || pulseDone)
      ensures if complete && old(pulseActive) then !grinding && !pulseActive && line == Idle
              else grinding == old(grinding) && pulseActive == old(pulseActive)
    {
      if !pulseActive {
        return true;
      }
      if !pulseDone {
        return false;
      }
      pulseActive := false;
      grinding := false;
      background := false;
      return true;
    }
  }
}
