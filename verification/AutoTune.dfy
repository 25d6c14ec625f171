/**
  The auto-tune run: priming, the search, and the verification of its candidate, as the state
  machine that the main loop calls again and again.
*/
module AutoTune {
  import opened LatencySearch
  import opened Motor
  import opened Wrappers

  const PRIMING_MS := 1000
  const VERIFICATION_PULSES := 5
  const SUCCESS_RATE := 0.8
  const ROUNDS := 5
  const MOTOR_SETTLING_MS := 200
  const COLLECTION_DELAY_MS := 1500
  const SETTLING_TIMEOUT_MS := 5000
  const WEIGHT_THRESHOLD_G := 0.010

  datatype Phase = Inactive | Priming | BinarySearch | Verification | CompleteSuccess | CompleteFailure

  datatype SubPhase =
    | Waiting | PulseExecute | MotorSettling | CollectionDelay | ScaleSettling | MeasureComplete
    | ResultLogged | Taring

  datatype Reason =
    | NoReason | Cancelled | PrimingFailed | InvalidPriming | TooManyIterations | NoSuccessfulPulse
    | LowerBoundHit | NotVerified | AboveMaximum | OutsideRange | PulseFailed | SettlingTimeout

  /** What one call of `update` finds outside. */
  datatype Inputs = Inputs(
    pulseFinished: bool,     // the transmitter reported the end of the pulse
    driverOk: bool,          // a pulse started now is accepted by the driver
    elapsed: nat,            // milliseconds in the sub-phase
    weight: real,            // the scale, read at once
    settled: Option<real>,   // the settled weight, if the scale has settled
    tared: bool)

  function Whole(ms: real): int {
    ms.Floor
  }

  /** The pulses of a run: the priming pulse and then only lengths from the range. */
  predicate Commanded(pulses: seq<nat>) {
    forall i :: 0 <= i < |pulses| ==> if i == 0 then pulses[i] == PRIMING_MS else 30 <= pulses[i] <= 300
  }

  /** `pulses` is `before` and then the pulses of a run. */
  predicate Extends(before: seq<nat>, pulses: seq<nat>) {
    before <= pulses && Commanded(pulses[|before|..])
  }

  lemma NothingYet(before: seq<nat>)
    ensures Extends(before, before)
  {
  }

  lemma OneMorePulse(before: seq<nat>, pulses: seq<nat>, ms: nat)
    requires Extends(before, pulses)
    requires if |pulses| == |before| then ms == PRIMING_MS else 30 <= ms <= 300
    ensures Extends(before, pulses + [ms])
  {
    assert (pulses + [ms])[|before|..] == pulses[|before|..] + [ms];
  }

  const TESTS := 13  // of a search on a motor with a limit

  /** `ms` works, and is less than 15 ms longer than the shortest pulse that does. */
  predicate NearLimit(limit: real, ms: real) {
    && Whole(ms) as real >= limit
    && MIN_MS <= ms <= MAX_MS
    && ms < (if Threshold(limit) < MIN_MS then MIN_MS else Threshold(limit)) + 270.0 / 64.0 + 10.0
  }

  lemma CandidateWorks(limit: real, last: real)
    requires Near(Threshold(limit), last)
    ensures NearLimit(limit, CeilTen(last))
  {
    CeilTenBounds(last);
    WholeMilliseconds(limit, CeilTen(last));
  }

  class AutoTuneController {
    const grinder: Grinder
    var motorLatency: real       // of the grind controller
    var preferences: bool        // whether it has a place to store the latency

    var phase: Phase
    var sub: SubPhase
    var running: bool

    var currentPulse: real
    var activePulse: real
    var step: real
    var lastSuccess: real
    var up: bool
    var foundLower: bool
    var iteration: nat
    var lastPulseSuccess: bool

    var round: nat
    var pulseCount: nat
    var successCount: nat
    var candidate: real

    var lastSettled: real
    var prePulse: real
    var previousLatency: real
    var resultSuccess: bool
    var resultLatency: real
    var reason: Reason
    ghost var before: seq<nat>   // the pulses that ran before this run

    constructor (motor: Grinder, latency: real, canStore: bool)
      requires MIN_MS <= latency <= MAX_MS && motor.Valid()
      ensures grinder == motor && motorLatency == latency && !running && Valid()
    {
      grinder := motor;
      motorLatency, preferences := latency, canStore;
      phase, sub, running := Inactive, Waiting, false;
      currentPulse, activePulse, step, lastSuccess := 0.0, 0.0, 0.0, 0.0;
      up, foundLower, iteration, lastPulseSuccess := false, false, 0, false;
      round, pulseCount, successCount, candidate := 0, 0, 0, 0.0;
      lastSettled, prePulse, previousLatency := 0.0, 0.0, 0.0;
      resultSuccess, resultLatency, reason := false, 0.0, NoReason;
      before := motor.pulses;
    }

    function View(): Search
      reads this
    {
      Search(currentPulse, step, lastSuccess, up, foundLower, iteration)
    }

    ghost function PulseCount(): int
      reads this, grinder
    {
      |grinder.pulses| - |before|
    }

    /** How many pulses there can have been so far. */
    function Allowed(): nat
      reads this
    {
      var current := if sub == Waiting then 0 else 1;
      match phase
      case Priming => current
      case BinarySearch => 1 + iteration + current
      case Verification => 1 + MAX_ITERATIONS + VERIFICATION_PULSES * round + pulseCount + current
      case _ => 1 + MAX_ITERATIONS + VERIFICATION_PULSES * ROUNDS
    }

    ghost predicate PulsesOk()
      reads this, grinder
    {
      && Extends(before, grinder.pulses)
      && 0 <= PulseCount() <= Allowed()
      && (running && (phase != Priming || sub != Waiting) ==> PulseCount() > 0)
    }

    predicate PhaseOk()
      reads this
    {
      && (running <==> phase == Priming || phase == BinarySearch || phase == Verification)
      && (phase == Priming ==> View() == LatencySearch.Start())
      && (phase == Priming || phase == BinarySearch ==> round == pulseCount == successCount == 0)
      && (phase == BinarySearch ==>
        Bounds(View()) && iteration <= MAX_ITERATIONS && (sub != Waiting ==> iteration < MAX_ITERATIONS))
      && (phase == Verification ==>
        && MIN_MS <= candidate <= MAX_MS
        && round < ROUNDS
        && successCount <= pulseCount <= VERIFICATION_PULSES
        && (sub != Waiting ==> pulseCount < VERIFICATION_PULSES))
    }

    ghost predicate Valid()
      reads this, grinder
    {
      && grinder.Valid()
      && MIN_MS <= motorLatency <= MAX_MS
      && PhaseOk()
      && PulsesOk()
      && (running ==> if sub == PulseExecute then grinder.pulseActive else !grinder.grinding)
    }

    // ---------------------------------------------------------------- a motor with a limit

    /** The scale shows grounds exactly after pulses of at least `limit` milliseconds. */
    predicate Honest(e: Inputs, limit: real)
      reads this
    {
      sub == ScaleSettling && e.settled.Some? ==>
        (e.settled.value - prePulse > WEIGHT_THRESHOLD_G <==> Whole(activePulse) as real >= limit)
    }

    predicate Measured(limit: real)
      reads this
    {
      && (sub == MeasureComplete ==>
        (lastSettled - prePulse > WEIGHT_THRESHOLD_G <==> Whole(activePulse) as real >= limit))
      && (sub == ResultLogged ==> (lastPulseSuccess <==> Whole(activePulse) as real >= limit))
    }

    /** Ruled out whatever the motor and the scale do. */
    predicate Impossible(why: Reason) {
      why == InvalidPriming || why == NoSuccessfulPulse || why == LowerBoundHit || why == OutsideRange
    }

    predicate Sane()
      reads this
    {
      && (phase == Priming ==> sub != ResultLogged)
      && (phase == BinarySearch ==> sub != Taring && InRange(View()))
      && (phase == Verification ==> sub != Taring && sub != ResultLogged)
      && (phase == CompleteFailure ==> !Impossible(reason))
    }

    /** The run is on its way to a candidate that works, and has not used many pulses. */
    ghost predicate OnTrack(limit: real)
      reads this, grinder
    {
      match phase
      case Inactive => true
      case Priming =>
        && sub != ResultLogged
        && (sub != Waiting && sub != Taring ==> activePulse == PRIMING_MS as real) && Measured(limit)
      case BinarySearch =>
        && sub != Taring && Bracketed(Threshold(limit), View())
        && (sub != Waiting ==> activePulse == currentPulse) && Measured(limit)
      case Verification =>
        && NearLimit(limit, candidate)
        && sub != Taring && sub != ResultLogged
        && round == 0 && successCount == pulseCount
        && (sub != Waiting ==> activePulse == candidate) && Measured(limit)
        && PulseCount() <= 1 + TESTS + pulseCount + (if sub == Waiting then 0 else 1)
      case CompleteSuccess =>
        && NearLimit(limit, resultLatency)
        && (preferences ==> motorLatency == resultLatency)
        && PulseCount() <= 1 + TESTS + VERIFICATION_PULSES
      case CompleteFailure =>
        && (reason == Cancelled || reason == PulseFailed || reason == SettlingTimeout)
        && PulseCount() <= 1 + TESTS + VERIFICATION_PULSES
    }

    lemma FewPulses(limit: real)
      requires Valid() && running && limit <= MAX_MS && OnTrack(limit)
      ensures PulseCount() <= 1 + TESTS + VERIFICATION_PULSES
      ensures phase == BinarySearch ==> iteration < TESTS && PulseCount() <= TESTS + if sub == Waiting then 0 else 1
    {
      hide Extends, Bracketed, NearLimit, Measured;
      if phase == BinarySearch {
        BracketKept(Threshold(limit), View());
      }
    }

    // ---------------------------------------------------------------- a run that is not held up

    /** Nothing holds the run up: the pulse is over, the delays are, the scale has settled, the tare is done. */
    predicate Smooth(e: Inputs)
      reads this, grinder
    {
      && grinder.ready && e.driverOk && e.pulseFinished && e.tared && e.settled.Some?
      && 1500 <= e.elapsed <= 5000
    }

    /** How many calls a pulse still takes. */
    function Stage(): nat
      reads this
    {
      match sub
      case Waiting => 7
      case PulseExecute => 6
      case MotorSettling => 5
      case CollectionDelay => 4
      case ScaleSettling => 3
      case MeasureComplete => 2
      case ResultLogged => 1
      case Taring => 1
    }

    /** How many calls are left at most, on a motor with a limit. */
    function Left(): int
      reads this
    {
      match phase
      case Priming => 7 * TESTS + 36 + Stage()
      case BinarySearch => 7 * (TESTS - 1 - iteration) + 36 + Stage()
      case Verification => 7 * (VERIFICATION_PULSES - pulseCount) + (if sub == Waiting then 1 else Stage() - 6)
      case _ => 0
    }

    lemma SomeLeft(limit: real)
      requires Valid() && running && limit <= MAX_MS && OnTrack(limit)
      ensures Left() > 0
    {
      hide Extends, Bracketed, NearLimit, Measured;
      if phase == BinarySearch {
        BracketKept(Threshold(limit), View());
      }
    }

    // ---------------------------------------------------------------- control

    /** `start` */
    method Start() returns (started: bool)
      requires Valid() && (!running ==> !grinder.grinding)
      modifies this
      ensures Valid() && started == !old(running) && running
      ensures started ==> phase == Priming && sub == Waiting && PulseCount() == 0 && before == grinder.pulses
      ensures motorLatency == old(motorLatency) && preferences == old(preferences)
    {
      hide Extends, Bounds, Motor.Grinder.Valid, LatencySearch.Bracketed, LatencySearch.Start;
      if running {
        return false;
      }
      running := true;
      ResetSearch();
      ResetVerification();
      previousLatency := motorLatency;
      before := grinder.pulses;
      SwitchPhase(Priming);
      NothingYet(before);
      return true;
    }

    method ResetSearch()
      modifies this`currentPulse, this`step, this`lastSuccess, this`up, this`foundLower, this`iteration,
               this`activePulse
      ensures View() == LatencySearch.Start()
    {
      currentPulse := MAX_MS;
      step := MAX_MS - MIN_MS;
      lastSuccess := 0.0;
      up := false;
      foundLower := false;
      iteration := 0;
      activePulse := 0.0;
    }

    method ResetVerification()
      modifies this`round, this`pulseCount, this`successCount, this`candidate
      ensures round == pulseCount == successCount == 0 && candidate == 0.0
    {
      round := 0;
      pulseCount := 0;
      successCount := 0;
      candidate := 0.0;
    }

    /** `cancel` */
    method Cancel()
      requires Valid()
      modifies this`phase, this`running, this`resultSuccess, this`resultLatency, this`reason, grinder`grinding,
               grinder`pulseActive, grinder`pulseDone, grinder`background, grinder`line
      ensures grinder.pulses == old(grinder.pulses)
      ensures Valid() && !running
      ensures old(running) ==> !grinder.grinding && phase == CompleteFailure && reason == Cancelled
      ensures !old(running) ==>
        && phase == old(phase) && reason == old(reason) && resultLatency == old(resultLatency)
        && grinder.grinding == old(grinder.grinding)
    {
      if !running {
        return;
      }
      CompleteWithFailure(Cancelled);
    }

    /** `switch_phase` */
    method SwitchPhase(next: Phase)
      modifies this`phase, this`sub, this`currentPulse
      ensures phase == next && sub == Waiting
      ensures currentPulse == if next == Verification then candidate else old(currentPulse)
    {
      phase := next;
      sub := Waiting;
      if next == Verification {
        currentPulse := candidate;
      }
    }

    /** `save_motor_latency` */
    method SaveMotorLatency(value: real)
      modifies this`motorLatency
      ensures motorLatency ==
        if preferences && MIN_MS <= value <= MAX_MS then value else old(motorLatency)
    {
      if !preferences || value < MIN_MS || value > MAX_MS {
        return;
      }
      motorLatency := value;
    }

    /** `complete_with_success` */
    method CompleteWithSuccess(latency: real)
      requires Valid() && running && sub != PulseExecute
      modifies this`phase, this`running, this`motorLatency, this`resultSuccess, this`resultLatency, this`reason,
               grinder`grinding, grinder`pulseActive, grinder`pulseDone, grinder`background, grinder`line
      ensures grinder.pulses == old(grinder.pulses)
      ensures Valid() && !running && !grinder.grinding
      ensures if MIN_MS <= latency <= MAX_MS
        then phase == CompleteSuccess && resultSuccess && resultLatency == latency &&
          motorLatency == if preferences then latency else old(motorLatency)
        else phase == CompleteFailure && reason == OutsideRange && motorLatency == old(motorLatency)
    {
      if latency < MIN_MS || latency > MAX_MS {
        CompleteWithFailure(OutsideRange);
        return;
      }
      SaveMotorLatency(latency);
      resultSuccess := true;
      resultLatency := latency;
      phase := CompleteSuccess;
      running := false;
    }

    /** `complete_with_failure` */
    method CompleteWithFailure(why: Reason)
      requires Valid() && running
      modifies this`phase, this`running, this`resultSuccess, this`resultLatency, this`reason, grinder`grinding,
               grinder`pulseActive, grinder`pulseDone, grinder`background, grinder`line
      ensures grinder.pulses == old(grinder.pulses)
      ensures Valid() && !running && !grinder.grinding
      ensures phase == CompleteFailure && reason == why && !resultSuccess && resultLatency == previousLatency
    {
      hide Extends, Bounds;
      if grinder.grinding {
        grinder.Stop();
      }
      resultSuccess := false;
      resultLatency := previousLatency;
      reason := why;
      phase := CompleteFailure;
      running := false;
    }

    /** `start_pulse` */
    method StartPulse(ms: real, e: Inputs)
      requires Valid() && running && sub == Waiting
      requires if phase == Priming then ms == PRIMING_MS as real && PulseCount() == 0 else MIN_MS <= ms <= MAX_MS
      requires phase == BinarySearch ==> iteration < MAX_ITERATIONS
      requires phase == Verification ==> pulseCount < VERIFICATION_PULSES
      modifies this`activePulse, this`sub, this`phase, this`running, this`resultSuccess, this`resultLatency,
               this`reason, grinder`grinding, grinder`pulseActive, grinder`pulseDone, grinder`background,
               grinder`line, grinder`pulses, grinder.symbols
      ensures Valid() && activePulse == ms
      ensures running ==> phase == old(phase) && sub == PulseExecute && grinder.pulses == old(grinder.pulses) + [ms.Floor]
      ensures !running ==> phase == CompleteFailure && reason == PulseFailed && !grinder.grinding
      ensures !running ==> grinder.pulses == old(grinder.pulses)
      ensures old(grinder.ready) && e.driverOk ==> running
    {
      hide Extends, InRange;
      activePulse := ms;
      ghost var so := grinder.pulses;
      var ok := grinder.StartPulse(Whole(ms), e.driverOk);
      if !ok {
        CompleteWithFailure(PulseFailed);
        return;
      }
      OneMorePulse(before, so, Whole(ms));
      sub := PulseExecute;
    }

    // ---------------------------------------------------------------- between a pulse and its result

    predicate Settling()
      reads this
    {
      sub == PulseExecute || sub == MotorSettling || sub == CollectionDelay || sub == ScaleSettling
    }

    /** `switch_sub_phase` */
    method SwitchSubPhase(next: SubPhase)
      modifies this`sub
      ensures sub == next
    {
      sub := next;
    }

    /** `update_pulse_execute` */
    method UpdatePulseExecute(e: Inputs)
      requires Valid() && running && sub == PulseExecute
      modifies this`sub, grinder`grinding, grinder`pulseActive, grinder`pulseDone, grinder`background,
               grinder`line
      ensures grinder.pulses == old(grinder.pulses)
      ensures Valid() && sub in {PulseExecute, MotorSettling} && (e.pulseFinished ==> sub == MotorSettling)
    {
      hide Extends, Bounds;
      if e.pulseFinished && grinder.pulseActive && !grinder.pulseDone {
        grinder.TransmitDone();  // the interrupt
      }
      var complete := grinder.IsPulseComplete();
      if !complete {
        return;
      }
      SwitchSubPhase(MotorSettling);
    }

    /** The sub-phases that only wait, the same for every phase. */
    method Wait(e: Inputs)
      requires Valid() && running && Settling()
      modifies this`sub, this`lastSettled, this`phase, this`running, this`resultSuccess, this`resultLatency,
               this`reason, grinder`grinding, grinder`pulseActive, grinder`pulseDone, grinder`background,
               grinder`line
      ensures Valid() && grinder.pulses == old(grinder.pulses)
      ensures running ==> phase == old(phase) && (Settling() || sub == MeasureComplete)
      ensures running && sub == MeasureComplete ==>
        old(sub) == ScaleSettling && e.settled == Some(lastSettled)
      ensures !running ==> phase == CompleteFailure && reason == SettlingTimeout && !grinder.grinding
      ensures old(Smooth(e)) ==> running && Stage() == old(Stage()) - 1
    {
      hide Extends, Bounds, InRange, Whole;
      match sub {
        case PulseExecute =>
          UpdatePulseExecute(e);
        case MotorSettling =>
          if e.elapsed >= MOTOR_SETTLING_MS {
            SwitchSubPhase(CollectionDelay);
          }
        case CollectionDelay =>
          if e.elapsed >= COLLECTION_DELAY_MS {
            SwitchSubPhase(ScaleSettling);
          }
        case ScaleSettling =>
          if e.elapsed > SETTLING_TIMEOUT_MS {
            CompleteWithFailure(SettlingTimeout);
            return;
          }
          if e.settled.Some? {
            lastSettled := e.settled.value;
            SwitchSubPhase(MeasureComplete);
          }
      }
    }

    /** They keep the run sane and on track. */
    method UpdateSettling(e: Inputs, ghost limit: real)
      requires Valid() && running && Settling()
      modifies this`sub, this`lastSettled, this`phase, this`running, this`resultSuccess, this`resultLatency,
               this`reason, grinder`grinding, grinder`pulseActive, grinder`pulseDone, grinder`background,
               grinder`line
      ensures Valid()
      ensures running ==> phase == old(phase) && (Settling() || sub == MeasureComplete)
      ensures running && sub == MeasureComplete ==>
        old(sub) == ScaleSettling && e.settled == Some(lastSettled)
      ensures !running ==> phase == CompleteFailure && reason == SettlingTimeout && !grinder.grinding
      ensures old(Smooth(e)) ==> running && Stage() == old(Stage()) - 1 && sub != Waiting
      ensures old(Sane()) ==> Sane()
      ensures limit <= MAX_MS && old(OnTrack(limit)) && old(Honest(e, limit)) ==> OnTrack(limit)
    {
      hide Valid, InRange, Bracketed, NearLimit, Whole;
      InRun();
      if limit <= MAX_MS && OnTrack(limit) {
        FewPulses(limit);
      }
      Wait(e);
    }

    // ---------------------------------------------------------------- priming

    /** `update_priming_phase` */
    method UpdatePriming(e: Inputs, ghost limit: real)
      requires Valid() && phase == Priming
      modifies this`prePulse, this`activePulse, this`lastSettled, this`currentPulse, this`sub, this`phase,
               this`running, this`resultSuccess, this`resultLatency, this`reason, grinder`grinding,
               grinder`pulseActive, grinder`pulseDone, grinder`background, grinder`line, grinder`pulses,
               grinder.symbols
      ensures Valid() && phase in {Priming, BinarySearch, CompleteFailure}
      ensures !running ==> !grinder.grinding
      ensures old(Sane()) ==> Sane()
      // what priming was for
      ensures old(sub) == Waiting && running ==> sub == PulseExecute && prePulse == e.weight
      ensures old(sub) == MeasureComplete ==>
        if old(lastSettled - prePulse) <= 0.010 then phase == CompleteFailure && reason == PrimingFailed
        else phase == Priming && sub == Taring
      ensures old(sub) == Taring ==>
        if e.tared then phase == BinarySearch && sub == Waiting && View() == LatencySearch.Start()
        else phase == Priming && sub == Taring
      ensures limit <= MAX_MS && old(OnTrack(limit)) && old(Honest(e, limit)) ==> OnTrack(limit)
      ensures limit <= MAX_MS && old(OnTrack(limit)) && old(Honest(e, limit)) && old(Smooth(e)) ==>
        phase != CompleteFailure && (running ==> Left() < old(Left()))
    {
      hide Extends, Grinder.Valid, NearLimit, Bracketed, Whole;
      if Settling() {
        UpdateSettling(e, limit);
        return;
      }
      match sub {
        case Waiting =>
          prePulse := e.weight;
          StartPulse(PRIMING_MS as real, e);
        case MeasureComplete =>
          JudgePriming(limit);
        case Taring =>
          AwaitTare(e, limit);
        case ResultLogged =>
          CompleteWithFailure(InvalidPriming);
        case _ =>
      }
    }

    /** The case `MEASURE_COMPLETE` of `update_priming_phase`. */
    method JudgePriming(ghost limit: real)
      requires Valid() && phase == Priming && sub == MeasureComplete
      modifies this`sub, this`phase, this`running, this`resultSuccess, this`resultLatency, this`reason,
               grinder`grinding, grinder`pulseActive, grinder`pulseDone, grinder`background, grinder`line
      ensures Valid() && (!running ==> !grinder.grinding) && sub != ResultLogged
      ensures if lastSettled - prePulse <= 0.010 then phase == CompleteFailure && reason == PrimingFailed
        else phase == Priming && sub == Taring
      ensures limit <= MAX_MS && old(OnTrack(limit)) ==> OnTrack(limit) && phase == Priming
    {
      hide Extends, Bracketed, NearLimit;
      if lastSettled - prePulse <= WEIGHT_THRESHOLD_G {
        CompleteWithFailure(PrimingFailed);
        return;
      }
      SwitchSubPhase(Taring);  // `start_tare`
    }

    /** `update_tare` */
    method AwaitTare(e: Inputs, ghost limit: real)
      requires Valid() && phase == Priming && sub == Taring
      modifies this`prePulse, this`lastSettled, this`currentPulse, this`sub, this`phase
      ensures Valid()
      ensures if e.tared then phase == BinarySearch && sub == Waiting && View() == LatencySearch.Start()
        else phase == Priming && sub == Taring
      ensures limit <= MAX_MS && old(OnTrack(limit)) ==> OnTrack(limit)
    {
      hide Extends, NearLimit;
      if !e.tared {
        return;
      }
      lastSettled, prePulse := 0.0, 0.0;
      SwitchPhase(BinarySearch);
    }

    ghost predicate Unchanged(latency: real, canStore: bool, was: seq<nat>)
      reads this
    {
      motorLatency == latency && preferences == canStore && before == was
    }

    // ---------------------------------------------------------------- the search

    method EnterVerification()
      modifies this`candidate, this`phase, this`sub, this`currentPulse
      ensures candidate == CeilTen(lastSuccess) == currentPulse && phase == Verification && sub == Waiting
    {
      candidate := CeilTen(lastSuccess);
      SwitchPhase(Verification);
    }

    /** Clamp the next length and see whether the search has hit its lower bound. */
    method SettleSearch(next: real)
      requires Valid() && phase == BinarySearch && sub == ResultLogged
      modifies this`currentPulse, this`candidate, this`phase, this`sub, this`iteration, this`running,
               this`resultSuccess, this`resultLatency, this`reason, grinder`grinding, grinder`pulseActive,
               grinder`pulseDone, grinder`background, grinder`line
      ensures grinder.pulses == old(grinder.pulses)
      ensures Valid()
      ensures match Settle(old(View()).(pulse := next))
        case Again(n) => phase == BinarySearch && sub == Waiting && running && View() == n
        case Found(last) => phase == Verification && sub == Waiting && running && candidate == CeilTen(last)
        case NoSuccess => false
        case HitBound => phase == CompleteFailure && reason == LowerBoundHit && !grinder.grinding
    {
      hide Extends, CeilTen;
      CeilTenBounds(lastSuccess);
      currentPulse := Clamp(next);
      if StopsAtBound(View()) {
        if lastSuccess == 0.0 {
          CompleteWithFailure(LowerBoundHit);
          return;
        }
        EnterVerification();
        return;
      }
      iteration := iteration + 1;
      SwitchSubPhase(Waiting);
    }

    method GroundsSeen()
      requires Valid() && phase == BinarySearch && sub == ResultLogged
      modifies this`lastSuccess, this`foundLower, this`step, this`up, this`currentPulse, this`candidate, this`phase,
               this`sub, this`iteration, this`running, this`resultSuccess, this`resultLatency, this`reason,
               grinder`grinding, grinder`pulseActive, grinder`pulseDone, grinder`background, grinder`line
      ensures grinder.pulses == old(grinder.pulses)
      ensures Valid()
      ensures match AfterTest(old(View()), true)
        case Again(n) => phase == BinarySearch && sub == Waiting && running && View() == n
        case Found(last) => phase == Verification && sub == Waiting && running && candidate == CeilTen(last)
        case NoSuccess => phase == CompleteFailure && reason == NoSuccessfulPulse && !grinder.grinding
        case HitBound => phase == CompleteFailure && reason == LowerBoundHit && !grinder.grinding
    {
      hide Extends, CeilTen, Settle;
      lastSuccess := currentPulse;
      CeilTenBounds(lastSuccess);
      if foundLower && step <= ACCURACY_MS {
        EnterVerification();
        return;
      }
      if up {
        step := step / 2.0;
        up := false;
      }
      SettleSearch(currentPulse - step);
    }

    method NoGroundsSeen()
      requires Valid() && phase == BinarySearch && sub == ResultLogged
      modifies this`lastSuccess, this`foundLower, this`step, this`up, this`currentPulse, this`candidate, this`phase,
               this`sub, this`iteration, this`running, this`resultSuccess, this`resultLatency, this`reason,
               grinder`grinding, grinder`pulseActive, grinder`pulseDone, grinder`background, grinder`line
      ensures grinder.pulses == old(grinder.pulses)
      ensures Valid()
      ensures match AfterTest(old(View()), false)
        case Again(n) => phase == BinarySearch && sub == Waiting && running && View() == n
        case Found(last) => phase == Verification && sub == Waiting && running && candidate == CeilTen(last)
        case NoSuccess => phase == CompleteFailure && reason == NoSuccessfulPulse && !grinder.grinding
        case HitBound => phase == CompleteFailure && reason == LowerBoundHit && !grinder.grinding
    {
      hide Extends, CeilTen, Settle;
      foundLower := true;
      if step <= ACCURACY_MS {
        if lastSuccess == 0.0 {
          CompleteWithFailure(NoSuccessfulPulse);
          return;
        }
        CeilTenBounds(lastSuccess);
        EnterVerification();
        return;
      }
      if !up {
        step := step / 2.0;
        up := true;
      }
      SettleSearch(currentPulse + step);
    }

    /** The case `RESULT_LOGGED` of `update_binary_search_phase`: one step of the search. */
    method FinishTest()
      requires Valid() && phase == BinarySearch && sub == ResultLogged
      modifies this, grinder`grinding, grinder`pulseActive, grinder`pulseDone, grinder`background,
               grinder`line
      ensures grinder.pulses == old(grinder.pulses)
      ensures Valid() && Unchanged(old(motorLatency), old(preferences), old(before))
      ensures round == pulseCount == successCount == 0
      ensures match AfterTest(old(View()), old(lastPulseSuccess))
        case Again(n) => phase == BinarySearch && sub == Waiting && running && View() == n
        case Found(last) => phase == Verification && sub == Waiting && running && candidate == CeilTen(last)
        case NoSuccess => phase == CompleteFailure && reason == NoSuccessfulPulse && !grinder.grinding
        case HitBound => phase == CompleteFailure && reason == LowerBoundHit && !grinder.grinding
    {
      hide Extends, CeilTen, AfterTest;
      if lastPulseSuccess {
        GroundsSeen();
      } else {
        NoGroundsSeen();
      }
    }

    lemma InRun()
      requires Valid()
      ensures running <==> phase == Priming || phase == BinarySearch || phase == Verification
    {
    }

    /** The case `IDLE` of `update_binary_search_phase`. */
    method BeginTest(e: Inputs)
      requires Valid() && phase == BinarySearch && sub == Waiting
      modifies this`prePulse, this`activePulse, this`sub, this`phase, this`running, this`resultSuccess,
               this`resultLatency, this`reason, grinder`grinding, grinder`pulseActive, grinder`pulseDone,
               grinder`background, grinder`line, grinder`pulses, grinder.symbols
      ensures Valid()
      ensures !running ==> grinder.pulses == old(grinder.pulses)
      ensures running ==> phase == BinarySearch && sub == PulseExecute && activePulse == currentPulse
      ensures !running ==> phase == CompleteFailure && !grinder.grinding
      ensures !running ==> reason == if iteration >= MAX_ITERATIONS then TooManyIterations else PulseFailed
      ensures iteration < MAX_ITERATIONS && grinder.ready && e.driverOk ==> running
    {
      hide Extends;
      if iteration >= MAX_ITERATIONS {
        CompleteWithFailure(TooManyIterations);
        return;
      }
      prePulse := e.weight;
      StartPulse(currentPulse, e);
    }

    /** The case `MEASURE_COMPLETE` of `update_binary_search_phase`. */
    method JudgeTest()
      requires Valid() && phase == BinarySearch && sub == MeasureComplete
      modifies this`lastPulseSuccess, this`sub
      ensures Valid() && sub == ResultLogged
      ensures lastPulseSuccess <==> lastSettled - prePulse > 0.010
    {
      hide Extends, Bounds;
      lastPulseSuccess := lastSettled - prePulse > WEIGHT_THRESHOLD_G;
      SwitchSubPhase(ResultLogged);
    }

    /** The result of a test on a motor with a limit. */
    lemma TrackedStep(limit: real)
      requires limit <= MAX_MS && phase == BinarySearch && sub == ResultLogged && OnTrack(limit)
      ensures match AfterTest(View(), lastPulseSuccess)
        case Again(n) => Bracketed(Threshold(limit), n)
        case Found(last) => NearLimit(limit, CeilTen(last))
        case NoSuccess => false
        case HitBound => false
    {
      hide Bracketed, AfterTest, NearLimit, CeilTen, Near;
      WholeMilliseconds(limit, currentPulse);
      BracketKept(Threshold(limit), View());
      match AfterTest(View(), lastPulseSuccess)
      case Found(last) => CandidateWorks(limit, last);
      case _ =>
    }

    method LogResult(ghost limit: real)
      requires Valid() && phase == BinarySearch && sub == ResultLogged
      modifies this, grinder`grinding, grinder`pulseActive, grinder`pulseDone, grinder`background,
               grinder`line
      ensures Valid() && phase in {BinarySearch, Verification, CompleteFailure}
      ensures Unchanged(old(motorLatency), old(preferences), old(before))
      ensures !running ==> !grinder.grinding
      ensures old(Sane()) ==> Sane()
      ensures limit <= MAX_MS && old(OnTrack(limit)) ==>
        OnTrack(limit) && phase != CompleteFailure && Left() < old(Left())
    {
      hide Extends, CeilTen, NearLimit, Bracketed;
      if limit <= MAX_MS && OnTrack(limit) {
        TrackedStep(limit);
        FewPulses(limit);
      }
      if Sane() {
        TestStaysInRange(View(), lastPulseSuccess);
      }
      FinishTest();
    }

    /** `update_binary_search_phase` */
    method UpdateSearch(e: Inputs, ghost limit: real)
      requires Valid() && phase == BinarySearch
      modifies this, grinder`grinding, grinder`pulseActive, grinder`pulseDone, grinder`background,
               grinder`line, grinder`pulses, grinder.symbols
      ensures Valid() && phase in {BinarySearch, Verification, CompleteFailure}
      ensures Unchanged(old(motorLatency), old(preferences), old(before))
      ensures !running ==> !grinder.grinding
      ensures old(Sane()) ==> Sane()
      ensures limit <= MAX_MS && old(OnTrack(limit)) && old(Honest(e, limit)) ==> OnTrack(limit)
      ensures limit <= MAX_MS && old(OnTrack(limit)) && old(Honest(e, limit)) && old(Smooth(e)) ==>
        phase != CompleteFailure && (running ==> Left() < old(Left()))
    {
      hide Valid, Extends, AfterTest, CeilTen, NearLimit, Bracketed, Whole;
      InRun();
      if Settling() {
        UpdateSettling(e, limit);
        return;
      }
      match sub {
        case Waiting =>
          if limit <= MAX_MS && OnTrack(limit) {
            BracketKept(Threshold(limit), View());
            FewPulses(limit);
          }
          BeginTest(e);
        case MeasureComplete =>
          JudgeTest();
        case ResultLogged =>
          LogResult(limit);
        case _ =>
      }
    }

    // ---------------------------------------------------------------- the verification

    /**
      The end of a round, in the case `IDLE` of `update_verification_phase`: at least 80% is enough,
      otherwise the next round uses a candidate 5 ms longer.
    */
    method JudgeRound()
      requires Valid() && phase == Verification && sub == Waiting && pulseCount == VERIFICATION_PULSES
      modifies this, grinder`grinding, grinder`pulseActive, grinder`pulseDone, grinder`background,
               grinder`line
      ensures grinder.pulses == old(grinder.pulses)
      ensures Valid()
      ensures preferences == old(preferences) && before == old(before)
      ensures motorLatency == if phase == CompleteSuccess && preferences then old(candidate) else old(motorLatency)
      ensures !running ==> !grinder.grinding
      ensures old(successCount) >= 4 ==> phase == CompleteSuccess && resultLatency == old(candidate)
      ensures phase in {Verification, CompleteSuccess, CompleteFailure}
      ensures old(successCount) < 4 ==> round == old(round) + 1 && phase != CompleteSuccess
      ensures phase == CompleteFailure ==> reason == if round >= ROUNDS then NotVerified else AboveMaximum
      ensures phase == CompleteFailure ==> round >= ROUNDS || candidate + ACCURACY_MS > MAX_MS
      ensures phase == Verification ==> sub == Waiting && candidate == old(candidate) + 5.0
      ensures phase == Verification ==> pulseCount == 0 && successCount == 0
    {
      hide Extends, Bounds;
      var rate := successCount as real / VERIFICATION_PULSES as real;
      if rate >= SUCCESS_RATE {
        CompleteWithSuccess(candidate);
        return;
      }
      if round + 1 >= ROUNDS {
        CompleteWithFailure(NotVerified);
        round := round + 1;
        return;
      }
      var next := candidate + ACCURACY_MS;
      if next > MAX_MS {
        CompleteWithFailure(AboveMaximum);
        round := round + 1;
        return;
      }
      round := round + 1;
      candidate := next;
      currentPulse := candidate;
      pulseCount, successCount := 0, 0;
    }

    /** The case `IDLE` of `update_verification_phase`. */
    method BeginVerificationPulse(e: Inputs)
      requires Valid() && phase == Verification && sub == Waiting
      modifies this, grinder`grinding, grinder`pulseActive, grinder`pulseDone, grinder`background,
               grinder`line, grinder`pulses, grinder.symbols
      ensures Valid() && phase in {Verification, CompleteSuccess, CompleteFailure}
      ensures PulseCount() == old(PulseCount()) + if running then 1 else 0
      ensures preferences == old(preferences) && before == old(before)
      ensures motorLatency == if phase == CompleteSuccess && preferences then old(candidate) else old(motorLatency)
      ensures !running ==> !grinder.grinding
      ensures phase == CompleteSuccess ==> resultLatency == old(candidate)
      ensures old(pulseCount < VERIFICATION_PULSES || successCount >= 4) ==> phase != Verification || round == old(round)
      ensures old(pulseCount) == VERIFICATION_PULSES && old(successCount) >= 4 ==>
        phase == CompleteSuccess && resultLatency == old(candidate)
      ensures old(pulseCount) < VERIFICATION_PULSES ==>
        if running then sub == PulseExecute && activePulse == candidate == old(candidate) && round == old(round) &&
          pulseCount == old(pulseCount) && successCount == old(successCount)
        else phase == CompleteFailure && reason == PulseFailed
      ensures old(pulseCount) < VERIFICATION_PULSES && grinder.ready && e.driverOk ==> running
      ensures phase == CompleteFailure ==> reason in {NotVerified, AboveMaximum, PulseFailed}
      ensures phase == Verification ==> sub == PulseExecute
    {
      hide Extends, Bounds;
      if pulseCount >= VERIFICATION_PULSES {
        JudgeRound();
        if !running {
          return;
        }
      }
      currentPulse := candidate;
      prePulse := e.weight;
      StartPulse(candidate, e);
    }

    /** The case `MEASURE_COMPLETE` of `update_verification_phase`. */
    method JudgeVerificationPulse()
      requires Valid() && phase == Verification && sub == MeasureComplete
      modifies this`lastPulseSuccess, this`pulseCount, this`successCount, this`sub
      ensures Valid() && sub == Waiting && pulseCount == old(pulseCount) + 1
      ensures successCount ==
        if lastSettled - prePulse > WEIGHT_THRESHOLD_G then old(successCount) + 1 else old(successCount)
    {
      hide Extends, Bounds;
      var success := lastSettled - prePulse > WEIGHT_THRESHOLD_G;
      if success {
        successCount := successCount + 1;
      }
      pulseCount := pulseCount + 1;
      lastPulseSuccess := success;
      SwitchSubPhase(Waiting);
    }

    /** `update_verification_phase` */
    method UpdateVerification(e: Inputs, ghost limit: real)
      requires Valid() && phase == Verification
      modifies this, grinder`grinding, grinder`pulseActive, grinder`pulseDone, grinder`background,
               grinder`line, grinder`pulses, grinder.symbols
      ensures Valid() && phase in {Verification, CompleteSuccess, CompleteFailure}
      ensures preferences == old(preferences) && before == old(before)
      ensures motorLatency == if phase == CompleteSuccess && preferences then old(candidate) else old(motorLatency)
      ensures !running ==> !grinder.grinding
      ensures phase == CompleteSuccess ==> resultLatency == old(candidate)
      ensures old(Sane()) ==> Sane()
      ensures limit <= MAX_MS && old(OnTrack(limit)) && old(Honest(e, limit)) ==> OnTrack(limit)
      ensures limit <= MAX_MS && old(OnTrack(limit)) && old(Honest(e, limit)) && old(Smooth(e)) ==>
        phase != CompleteFailure && (running ==> Left() < old(Left()))
    {
      hide Extends;
      if Settling() {
        UpdateSettling(e, limit);
        return;
      }
      match sub {
        case Waiting =>
          BeginVerificationPulse(e);
        case MeasureComplete =>
          JudgeVerificationPulse();
        case _ =>
      }
    }

    // ---------------------------------------------------------------- the run

    /** `update` */
    method Update(e: Inputs, ghost limit: real)
      requires Valid()
      modifies this, grinder`grinding, grinder`pulseActive, grinder`pulseDone, grinder`background,
               grinder`line, grinder`pulses, grinder.symbols
      ensures Valid() && preferences == old(preferences) && before == old(before)
      ensures old(running) && !running ==> !grinder.grinding && phase in {CompleteSuccess, CompleteFailure}
      ensures !old(running) ==> !running && phase == old(phase) && grinder.grinding == old(grinder.grinding)
      ensures motorLatency == old(motorLatency) ||
              (phase == CompleteSuccess && MIN_MS <= motorLatency <= MAX_MS && motorLatency == resultLatency)
      ensures old(Sane()) ==> Sane()
      ensures limit <= MAX_MS && old(OnTrack(limit)) && old(Honest(e, limit)) ==> OnTrack(limit)
      ensures old(running) && limit <= MAX_MS && old(OnTrack(limit)) && old(Honest(e, limit)) && old(Smooth(e)) ==>
        phase != CompleteFailure && (running ==> Left() < old(Left()))
    {
      hide OnTrack, Sane, PulsesOk;
      if !running {
        return;
      }
      match phase {
        case Priming => UpdatePriming(e, limit);
        case BinarySearch => UpdateSearch(e, limit);
        case Verification => UpdateVerification(e, limit);
        case _ =>
      }
    }
  }

  datatype Call = Update(inputs: Inputs) | Cancel

  /**
    A run of the auto-tune, from the call of `start` through any number of calls of `update` and
    `cancel`, on any motor and any scale.  `honest` claims that the scale shows grounds exactly after
    pulses of at least `limit` milliseconds.
  */
  method Tune(t: AutoTuneController, calls: seq<Call>, ghost limit: real)
    returns (ghost honest: bool)
    requires t.Valid() && !t.running && !t.grinder.grinding
    modifies t, t.grinder, t.grinder.symbols
    ensures t.Valid() && t.Sane()
    // at most 1 + 50 + 25 pulses, all of them of a permitted length
    ensures Extends(old(t.grinder.pulses), t.grinder.pulses)
    ensures |t.grinder.pulses| <= |old(t.grinder.pulses)| + 76
    // the latency changes only on success, and the motor is off at the end
    ensures t.phase != CompleteSuccess ==> t.motorLatency == old(t.motorLatency)
    ensures t.phase == CompleteSuccess ==> 30.0 <= t.motorLatency <= 300.0
    ensures !t.running ==> !t.grinder.grinding
    // on a motor with a limit 1 + 13 + 5 pulses are enough
    ensures honest && limit <= MAX_MS ==> |t.grinder.pulses| <= |old(t.grinder.pulses)| + 19
    // on a motor with a limit the run finds it, unless it is cancelled or a pulse or the scale fails
    ensures honest && limit <= MAX_MS && !t.running ==>
      if t.phase == CompleteSuccess
      then NearLimit(limit, t.resultLatency) && (t.preferences ==> t.motorLatency == t.resultLatency)
      else t.phase == CompleteFailure && t.reason in {Cancelled, PulseFailed, SettlingTimeout}
  {
    hide Extends, NearLimit, InRange, Bracketed, Bounds;
    honest := true;
    var started := t.Start();
    var i := 0;
    while i < |calls|
      invariant 0 <= i <= |calls|
      invariant t.Valid() && t.Sane() && t.before == old(t.grinder.pulses)
      invariant t.phase != Inactive && (!t.running ==> !t.grinder.grinding)
      invariant t.phase != CompleteSuccess ==> t.motorLatency == old(t.motorLatency)
      invariant honest && limit <= MAX_MS ==> t.OnTrack(limit)
    {
      match calls[i] {
        case Update(e) =>
          honest := honest && t.Honest(e, limit);
          t.Update(e, limit);
        case Cancel =>
          if honest && limit <= MAX_MS && t.running {
            t.FewPulses(limit);
          }
          t.Cancel();
      }
      i := i + 1;
    }
    if honest && limit <= MAX_MS && t.running {
      t.FewPulses(limit);
    }
  }

  /** Nothing holds a call up. */
  predicate Unhindered(e: Inputs) {
    && e.driverOk && e.pulseFinished && e.tared
    && 1500 <= e.elapsed <= 5000
  }

  /** What the scale shows on a motor that delivers `grounds` in pulses of at least `limit` milliseconds. */
  function OnMotor(t: AutoTuneController, e: Inputs, limit: real, grounds: real): Inputs
    reads t
  {
    e.(settled := Some(t.prePulse + if Whole(t.activePulse) as real >= limit then grounds else 0.0))
  }

  /**
    On a motor with a limit of at most 300 ms and with nothing to hold it up, a run is over after 134
    calls, and has found and stored a latency near the limit.
  */
  method TuneOnMotor(t: AutoTuneController, inputs: seq<Inputs>, grounds: seq<real>, limit: real)
    requires t.Valid() && !t.running && !t.grinder.grinding && t.grinder.ready && limit <= 300.0
    requires |grounds| == |inputs| >= 134
    requires forall i :: 0 <= i < |inputs| ==> Unhindered(inputs[i]) && grounds[i] > 0.010
    modifies t, t.grinder, t.grinder.symbols
    ensures t.Valid() && t.phase == CompleteSuccess && !t.running && !t.grinder.grinding
    ensures NearLimit(limit, t.resultLatency) && (t.preferences ==> t.motorLatency == t.resultLatency)
  {
    hide Extends, NearLimit, InRange, Bracketed, Bounds;
    var _ := t.Start();
    var i := 0;
    while i < |inputs|
      invariant 0 <= i <= |inputs|
      invariant t.Valid() && t.OnTrack(limit) && t.grinder.ready && (!t.running ==> !t.grinder.grinding)
      invariant if t.running then i + t.Left() <= 134 else t.phase == CompleteSuccess
    {
      var e := OnMotor(t, inputs[i], limit, grounds[i]);
      assert Unhindered(inputs[i]);
      t.Update(e, limit);
      i := i + 1;
    }
    if t.running {
      t.SomeLeft(limit);
    }
  }
}
