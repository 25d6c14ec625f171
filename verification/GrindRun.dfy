/**
  A grind: seventeen phases, driven by the control loop and by the buttons of the user.

  What the controller finds outside, at any call, is a parameter: the clock, the scale, the driver of
  the motor.
*/
module GrindRun {
  import opened GrindLog
  import opened Wrappers
  import Motor
  import PulseLoop

  const PRIME_MAX_MS := 5000
  const PRIME_COAST_MS := 300.0
  const SETTLING_TIMEOUT_MS := 10000
  const MOTOR_SETTLING_MS := 200
  const GRIND_TIMEOUT_MS := 60000
  const STALE_SAMPLE_MS := 1000
  const NO_WEIGHT_G := 0.2
  const UNDERSHOOT_G := 1.0
  const FLOW_THRESHOLD := 0.5
  const FLOW_WINDOW_MS := 1500
  const LATENCY_TO_COAST := 1.0
  const EXTRA_PULSE_MS := 100
  const MAX_ATTEMPTS := PulseLoop.MAX_ATTEMPTS
  const TOLERANCE := PulseLoop.TOLERANCE_G

  datatype Mode = Weight | Time

  datatype Result = Unknown | Success | Overshoot | MaxPulses | TimedOut | Error

  datatype PulseReport = PulseReport(startWeight: real, endWeight: real, duration: real)

  /** What one call finds outside. */
  datatype Senses = Senses(
    now: int,                 // milliseconds since the start of the system
    driverOk: bool,           // a start of the motor is accepted
    pulseFinished: bool,      // the transmitter reported the end of a pulse
    motorSettled: bool,
    weight: real,             // at once
    precise: real,            // averaged
    settled: Option<real>,    // the weight, if settled over 500 ms
    settledShortly: bool,     // settled over 200 ms
    flow: real, flow500: real, flow1500: real, flow95: real,
    tareStarted: bool, tareBusy: bool, scaleQuiet: bool,
    fault: bool,
    sampleAge: int,           // milliseconds since the last sample
    freshFor: int)            // how long grounds stay fresh, in milliseconds

  /** The motor may run in these phases only. */
  predicate MayRun(p: Phase) {
    p == Prime || p == Predictive || p == TimeGrinding || p == PulseExecute || p == TimeAdditionalPulse
  }

  predicate MayPulse(p: Phase) {
    p == PulseExecute || p == TimeAdditionalPulse
  }

  /** The phases after the controller has left, or not yet reached, the grind itself. */
  predicate Terminal(p: Phase) {
    p == Completed || p == Timeout
  }

  /** No correction has been decided on yet. */
  predicate Early(p: Phase) {
    p in {Initializing, Setup, Taring, TareConfirm, Prime, PrimeSettling, PurgeConfirm, TimeGrinding, Predictive}
  }

  predicate InLoop(p: Phase) {
    p == PulseDecision || p == PulseExecute || p == PulseSettling
  }

  /** How many events have been logged at most when `p` is entered. */
  function Logged(p: Phase, attempts: nat): nat {
    match p
    case Idle => 40
    case Initializing => 0
    case Setup => 0
    case Taring => 1
    case TareConfirm => 2
    case Prime => 3
    case TimeGrinding => 3
    case PrimeSettling => 4
    case PurgeConfirm => 5
    case Predictive => 6
    case PulseSettling => 7 + 3 * attempts
    case PulseDecision => 8 + 3 * attempts
    case PulseExecute => 6 + 3 * attempts
    case FinalSettling => 39
    case Completed => 40
    case Timeout => 40
    case TimeAdditionalPulse => 0
  }

  function ResultOf(mode: Mode, final: real, target: real, attempts: nat): Result {
    var error := final - target;
    if mode == Time then Success
    else if error > TOLERANCE then Overshoot
    else if attempts >= MAX_ATTEMPTS && -error > TOLERANCE then MaxPulses
    else Success
  }

  /** Too much, not enough in spite of ten pulses, or right. */
  lemma ResultMeans(mode: Mode, final: real, target: real, attempts: nat)
    ensures var r := ResultOf(mode, final, target, attempts);
      && (r == Overshoot <==> mode == Weight && final > target + 0.03)
      && (r == MaxPulses <==> mode == Weight && final < target - 0.03 && attempts >= 10)
      && (r == Success || r == Overshoot || r == MaxPulses)
  {
    assert mode == Weight || mode == Time;
  }

  /** What the control loop has read when it changes the phase. */
  datatype Reading = Reading(now: int, stamp: int, weight: real)

  /** The event of a phase that begins. */
  function Begun(p: Phase, r: Reading): Event {
    Event(p, r.stamp, 0, r.weight, 0.0, 0)
  }

  /** The log once the phase of `e`, begun at `since`, has ended. */
  function Ended(events: seq<Event>, e: Event, since: int, r: Reading): seq<Event> {
    if |events| >= CAPACITY then events else
      events + [e.(duration := r.now - since, endWeight := r.weight, sequence := |events|)]
  }

  /** The log has no gaps, also towards the event that is under way since `since`. */
  predicate InSequence(events: seq<Event>, e: Event, p: Phase, since: int, start: int) {
    && Gapless(events)
    && Continues(events, e)
    && e.timestamp + start == since
    && e.phase == p
  }

  lemma StaysInSequence(events: seq<Event>, e: Event, p: Phase, since: int, start: int, next: Phase, r: Reading)
    requires InSequence(events, e, p, since, start) && r.now == r.stamp + start && |events| < CAPACITY
    ensures InSequence(Ended(events, e, since, r), Begun(next, r), next, r.now, start)
  {
    GaplessMore(events, e.(duration := r.now - since, endWeight := r.weight, sequence := |events|));
  }

  /** The event of the setup is the first one; nothing has to follow it without a gap. */
  lemma FirstEvent(e: Event, since: int, start: int, next: Phase, r: Reading)
    requires r.now == r.stamp + start
    ensures InSequence(Ended([], e, since, r), Begun(next, r), next, r.now, start)
  {
  }

  function Whole(ms: real): int {
    ms.Floor
  }

  /** The correction pulses that ran are the ones in the history. */
  predicate PulsesMatch(history: seq<PulseReport>, pulses: seq<nat>, latency: real) {
    && |pulses| >= |history|
    && (forall i :: 0 <= i < |history| ==> history[i].duration.Floor == pulses[i])
    && (forall i :: 0 <= i < |history| ==>
      latency <= history[i].duration <= latency + PulseLoop.MAX_PRODUCTIVE_MS)
  }

  class GrindController {
    const grinder: Motor.Grinder
    const logger: GrindLogger
    const history: array<PulseReport>

    var phase: Phase
    var mode: Mode
    var targetWeight: real
    var targetTime: nat
    var purging: bool            // ask the user to discard the purged grounds
    var purgeAmount: real
    var startTime: int
    var phaseStart: int
    var timeGrindStart: int
    var pauseStart: int
    var pausedFor: int           // timeout_offset_ms
    var paused: bool
    var uiReady: bool
    var endQueued: bool

    var attempts: nat
    var currentDuration: real
    var grindLatency: real
    var flowConfirmed: bool
    var pulseFlow: real
    var pulseFlowBase: real
    var stopTarget: real         // motor_stop_target_weight
    var finalWeight: real
    var extraPulses: nat
    var result: Result
    var event: Event             // event_in_progress

    var motorLatency: real
    var gain: real
    var usedSinceBoot: bool
    var lastUse: int

    ghost var pulsesBefore: seq<nat>  // the pulses that ran before this grind
    ghost var recording: bool         // the log belongs to this grind

    constructor (motor: Motor.Grinder, log: GrindLogger, latency: real)
      requires motor.Valid() && !motor.grinding && log.Valid()
      requires PulseLoop.LATENCY_MIN <= latency <= PulseLoop.LATENCY_MAX
      ensures Valid() && phase == Idle && grinder == motor && logger == log && fresh(history)
    {
      grinder, logger := motor, log;
      history := new PulseReport[MAX_ATTEMPTS](i => PulseReport(0.0, 0.0, 0.0));
      phase, mode, result := Idle, Weight, Unknown;
      targetWeight, targetTime, purging, purgeAmount := 0.0, 0, true, 1.0;
      startTime, phaseStart, timeGrindStart, pauseStart, pausedFor := 0, 0, 0, 0, 0;
      paused, uiReady, endQueued, usedSinceBoot, lastUse := false, false, false, false, 0;
      attempts, extraPulses := 0, 0;
      currentDuration, grindLatency, flowConfirmed := 0.0, 0.0, false;
      pulseFlow, pulseFlowBase, stopTarget, finalWeight := 0.0, 0.0, UNDERSHOOT_G, 0.0;
      event := NO_EVENT;
      motorLatency, gain := latency, 1.0;
      pulsesBefore := motor.pulses;
      recording := false;
    }

    /** The motor runs only where it may, and no pulse is in flight elsewhere. */
    ghost predicate MotorOk()
      reads this`phase, grinder
    {
      MotorFits(phase)
    }

    ghost predicate MotorFits(p: Phase)
      reads grinder
    {
      && grinder.Valid()
      && (grinder.grinding ==> MayRun(p))
      && (grinder.pulseActive ==> MayPulse(p))
      && (MayPulse(p) && grinder.grinding ==> grinder.pulseActive)
    }

    /** At most ten corrections, all of a permitted length, and then only extra pulses. */
    ghost predicate PulsesOk()
      reads this`attempts, this`motorLatency, this`gain, this`pulsesBefore, this`extraPulses, grinder`pulses, history
    {
      PulsesFor(attempts)
    }

    /** The same with `n` corrections. */
    ghost predicate PulsesFor(n: nat)
      reads this`motorLatency, this`gain, this`pulsesBefore, this`extraPulses, grinder`pulses, history
    {
      && history.Length == MAX_ATTEMPTS
      && n <= MAX_ATTEMPTS
      && PulseLoop.LATENCY_MIN <= motorLatency <= PulseLoop.LATENCY_MAX
      && PulseLoop.GAIN_MIN <= gain <= PulseLoop.GAIN_MAX
      && pulsesBefore <= grinder.pulses
      && |grinder.pulses| == |pulsesBefore| + n + extraPulses
      && PulsesMatch(history[..n], grinder.pulses[|pulsesBefore|..], motorLatency)
    }

    /** The log of the grind has no gaps and no more events than the phase allows. */
    ghost predicate LogOk()
      reads this`phase, this`attempts, this`recording, this`event, this`phaseStart, this`startTime,
            logger, logger.buffer
    {
      LogWithin(Logged(phase, attempts))
    }

    ghost predicate LogWithin(n: nat)
      reads this`phase, this`recording, this`event, this`phaseStart, this`startTime, logger, logger.buffer
    {
      && logger.Valid()
      && (recording && logger.active ==> logger.count <= n)
      && (recording && logger.active && phase != Idle ==>
        InSequence(logger.Events(), event, phase, phaseStart, startTime))
    }

    /** Some phases belong to one of the modes. */
    ghost predicate ModeOk()
      reads this`phase, this`mode, this`paused, this`recording, this`extraPulses
    {
      && ModeFits(phase)
      && (paused <==> phase == PurgeConfirm)
      && (recording ==> phase !in {Initializing, Setup, TimeAdditionalPulse})
      && (extraPulses > 0 ==> phase == TimeAdditionalPulse || Terminal(phase) || phase == Idle)
    }

    predicate ModeFits(p: Phase)
      reads this`mode
    {
      && (p == TimeGrinding ==> mode == Time)
      && (p in {Prime, PrimeSettling, PurgeConfirm, Predictive, PulseDecision, PulseExecute, PulseSettling} ==>
        mode == Weight)
    }

    ghost predicate Valid()
      reads this`phase, this`attempts, this`motorLatency, this`gain, this`pulsesBefore, this`extraPulses,
            this`recording, this`event, this`phaseStart, this`startTime, this`mode, this`paused,
            grinder, logger, logger.buffer, history
    {
      MotorOk() && PulsesOk() && LogOk() && ModeOk()
    }

    // ---------------------------------------------------------------- the closed loop

    /** The last pulse, until its yield is known, is the one that was decided on. */
    ghost predicate LoopOk()
      reads this`phase, this`attempts, this`pulseFlow, this`motorLatency, this`targetWeight, history
    {
      && attempts <= history.Length
      && (Early(phase) ==> attempts == 0)
      && (InLoop(phase) && attempts > 0 ==>
        history[attempts - 1].duration == Correction(history[attempts - 1].startWeight))
    }

    /** No pulse has passed the conservative target, and none has taken anything away. */
    ghost predicate StaysBelow()
      reads this`attempts, this`targetWeight, history
    {
      && attempts <= history.Length
      && forall k :: 0 <= k < attempts ==>
        history[k].startWeight <= history[k].endWeight <= targetWeight - TOLERANCE
    }

    /** The state of the loop at the last decision. */
    ghost function LastDecision(): PulseLoop.Loop
      requires 0 < attempts <= history.Length
      reads this`attempts, this`pulseFlow, history
    {
      PulseLoop.Loop(history[attempts - 1].startWeight, pulseFlow, attempts - 1)
    }

    /** What the scale shows after the last pulse, on a plant with flow `actual`. */
    function Afterwards(actual: real): real
      requires 0 < attempts <= history.Length
      reads this`attempts, this`motorLatency, history
    {
      var last := history[attempts - 1];
      last.startWeight + PulseLoop.Yield(actual, Whole(last.duration) as real, motorLatency)
    }

    /** What the scale shows is due to a plant that is not faster than the loop assumes. */
    ghost predicate NotFaster(s: Senses)
      reads this`phase, this`attempts, this`pulseFlow, this`motorLatency, history
    {
      phase == PulseDecision && 0 < attempts <= history.Length && s.settled.Some? ==>
        exists actual :: 0.0 <= actual <= PulseLoop.ClampedFlow(pulseFlow) && s.settled.value == Afterwards(actual)
    }

    // ---------------------------------------------------------------- what a call does

    /** What `run_predictive_phase` makes of the flow. */
    function LatencyAfter(s: Senses): real
      reads this
    {
      if !flowConfirmed && s.flow500 >= FLOW_THRESHOLD then (s.now - phaseStart) as real else grindLatency
    }

    function StopTargetAfter(s: Senses): real
      reads this
    {
      var confirmed := flowConfirmed || s.flow500 >= FLOW_THRESHOLD;
      if confirmed && s.now as real > phaseStart as real + LatencyAfter(s) + FLOW_WINDOW_MS as real &&
         s.flow1500 > FLOW_THRESHOLD
      then LatencyAfter(s) * LATENCY_TO_COAST / 1000.0 * s.flow1500
      else stopTarget
    }

    /** The pulse in flight, if any, is reported over. */
    function PulseOver(s: Senses): bool
      reads grinder
    {
      !grinder.pulseActive || grinder.pulseDone || s.pulseFinished
    }

    /** Where a call of the loop leads to, unless a failsafe stops the grind. */
    function NextPhase(s: Senses): Phase
      reads this, grinder
    {
      match phase
      case Initializing => if uiReady then Setup else phase
      case Setup => Taring
      case Taring => if s.tareStarted then TareConfirm else phase
      case TareConfirm => if s.tareBusy || !s.scaleQuiet then phase else if mode == Time then TimeGrinding else Prime
      case Prime =>
        var coast := (if s.flow > 0.0 then s.flow else 0.0) * PRIME_COAST_MS / 1000.0;
        if s.weight >= purgeAmount - coast || s.now - phaseStart >= PRIME_MAX_MS then PrimeSettling else phase
      case PrimeSettling =>
        if s.settled == None && s.now - phaseStart < SETTLING_TIMEOUT_MS then phase
        else if purging && (!usedSinceBoot || s.now - lastUse > s.freshFor) then PurgeConfirm
        else Predictive
      case TimeGrinding =>
        var since := if timeGrindStart == 0 then s.now else timeGrindStart;
        if targetTime == 0 || s.now - since >= targetTime then FinalSettling else phase
      case Predictive =>
        if s.motorSettled && s.weight >= targetWeight - StopTargetAfter(s) then PulseSettling else phase
      case PulseSettling =>
        if (s.now - phaseStart) as real >= grindLatency + MOTOR_SETTLING_MS as real && s.settledShortly
        then PulseDecision else phase
      case PulseDecision =>
        if s.settled == None then phase
        else if PulseLoop.Reached(targetWeight, s.settled.value) || attempts >= MAX_ATTEMPTS then FinalSettling
        else if grinder.ready && s.driverOk then PulseExecute
        else Timeout
      case PulseExecute => if PulseOver(s) then PulseSettling else phase
      case FinalSettling =>
        if s.settled == None then phase
        else if mode == Weight && targetWeight >= 1.0 && s.precise < NO_WEIGHT_G then Timeout
        else Completed
      case TimeAdditionalPulse =>
        if PulseOver(s) && ((s.motorSettled && s.settled.Some?) || s.now - phaseStart >= SETTLING_TIMEOUT_MS)
        then Completed else phase
      case _ => phase
    }

    /** Whether the motor runs after it. */
    function MotorNext(s: Senses): bool
      reads this, grinder
    {
      var stays := NextPhase(s) == phase;
      match phase
      case TareConfirm => grinder.grinding || (!stays && grinder.ready && s.driverOk)
      case Prime => stays && (grinder.grinding || (grinder.ready && s.driverOk))
      case PrimeSettling => if NextPhase(s) == Predictive then grinder.ready && s.driverOk else grinder.grinding
      case TimeGrinding => stays && grinder.grinding
      case Predictive => stays && grinder.grinding
      case PulseDecision => NextPhase(s) == PulseExecute || grinder.grinding
      case PulseExecute => !PulseOver(s) && grinder.grinding
      case TimeAdditionalPulse => !PulseOver(s) && grinder.grinding
      case _ => grinder.grinding
    }

    function ResultNext(s: Senses): Result
      reads this, grinder
    {
      if NextPhase(s) == phase then result
      else if NextPhase(s) == Completed then ResultOf(mode, s.precise, targetWeight, attempts)
      else if NextPhase(s) == Timeout then
        if phase == FinalSettling then Error else if result == Unknown then TimedOut else result
      else result
    }

    /** The end of a grind is noted as the last use of the grinder; an additional pulse is not. */
    predicate UseNoted(previous: Phase, wasUsed: bool, wasLast: int, now: int)
      reads this
    {
      && usedSinceBoot == (wasUsed || (phase == Completed && previous != Completed))
      && lastUse == if phase == Completed && previous != Completed && previous != TimeAdditionalPulse then now else wasLast
    }

    /** What a call of the loop has done, unless a failsafe has stopped the grind. */
    twostate predicate Advanced(s: Senses)
      reads this, grinder, history
    {
      && phase == old(NextPhase(s))
      && grinder.grinding == old(MotorNext(s))
      && result == old(ResultNext(s))
      && attempts == old(attempts) + (if old(phase) == PulseDecision && phase == PulseExecute then 1 else 0)
      && phaseStart == (if phase == old(phase) then old(phaseStart) else s.now)
      && (phase == Completed && old(phase) != Completed ==> finalWeight == s.precise)
      && UseNoted(old(phase), old(usedSinceBoot), old(lastUse), s.now)
      && timeGrindStart == (
        if phase != old(phase) && (old(phase) == TareConfirm || phase == Predictive) then s.now
        else if old(phase) == TimeGrinding && old(timeGrindStart) == 0 then s.now
        else old(timeGrindStart))
      && AdvancedFlow(s)
    }

    /** The same for what the correction pulses go by. */
    twostate predicate AdvancedFlow(s: Senses)
      reads this, history
    {
      && (old(phase) != PulseDecision ==>
        gain == old(gain) && forall k :: 0 <= k < history.Length ==> history[k] == old(history[k]))
      && (old(phase) != PulseDecision && old(phase) != Predictive ==> pulseFlow == old(pulseFlow))
      && (old(phase) == Predictive && phase == PulseSettling ==> pulseFlow == s.flow95 * gain)
      && grindLatency == (
        if old(phase) == Predictive then old(LatencyAfter(s))
        else if old(phase) == PrimeSettling && phase != PrimeSettling then 0.0
        else old(grindLatency))
      && stopTarget == (if old(phase) == Predictive then old(StopTargetAfter(s)) else old(stopTarget))
      && flowConfirmed == (
        if old(phase) == Predictive then old(flowConfirmed) || s.flow500 >= FLOW_THRESHOLD
        else old(flowConfirmed) && (old(phase) != PrimeSettling || phase == PrimeSettling))
      && (old(phase) == PulseDecision && phase == PulseExecute ==>
        s.settled.Some? && 0 < attempts <= history.Length && history[attempts - 1].startWeight == s.settled.value)
    }

    /** A decision is one round of the loop, on whatever plant. */
    twostate predicate Rounded(s: Senses)
      reads this, history
    {
      old(phase) == PulseDecision && s.settled.Some? && old(LoopOk()) ==>
        if old(attempts) == 0 then pulseFlow == old(pulseFlow)
        else forall actual :: s.settled.value == old(Afterwards(actual)) ==>
          PulseLoop.Loop(s.settled.value, pulseFlow, old(attempts))
          == PulseLoop.Pulse(targetWeight, motorLatency, actual, true, old(LastDecision()))
    }

    // ---------------------------------------------------------------- phases

    /**
      `switch_phase`.  `loop` is what the control loop has read, or nothing for a transition outside
      of it: only then is the end of the old phase logged and an event begun for the new one.
    */
    method SwitchPhase(next: Phase, loop: Option<Reading>, now: int)
      requires logger.Valid() && (loop.Some? ==> next != Idle)
      modifies this`phase, this`paused, this`phaseStart, this`event, this`result, this`usedSinceBoot, this`lastUse,
               logger`count, logger`sequence, logger.buffer
      ensures logger.Valid() && phase == next
      ensures old(phase) == next ==>
        && paused == old(paused) && event == old(event) && phaseStart == old(phaseStart)
        && logger.Events() == old(logger.Events()) && result == old(result)
      ensures old(phase) != next ==>
        && paused == (next == PurgeConfirm)
        && phaseStart == (if loop.Some? then loop.value.now else now)
        && event == (if loop.Some? then Begun(next, loop.value) else old(event))
        && logger.Events() == (if loop.Some? && logger.active && old(phase) != Idle
          then Ended(old(logger.Events()), old(event), old(phaseStart), loop.value)
          else old(logger.Events()))
      ensures old(phase) != next ==> result == Concluded(next, old(result))
      ensures UseNoted(old(phase), old(usedSinceBoot), old(lastUse), now)
    {
      hide Numbered, Ended, ResultOf, Begun, Concluded, UseNoted, GrindLogger.Valid, GrindLogger.Events;
      NothingUsed(now);
      if phase == next {
        return;
      }
      var previous := phase;
      var time := if loop.Some? then loop.value.now else now;
      if loop.Some? && logger.active && phase != Idle {
        FinishEvent(loop.value);
      }
      phase := next;
      paused := phase == PurgeConfirm;
      phaseStart := time;
      if loop.Some? {
        event := Begun(next, loop.value);
      }
      Conclude(previous, now);
    }

    /** What the loop hands on: the time, also counted from the start of the grind, and the weight. */
    function At(now: int, weight: real): Reading
      reads this`startTime
    {
      Reading(now, now - startTime, weight)
    }

    function Concluded(next: Phase, before: Result): Result
      reads this
    {
      if next == Completed then ResultOf(mode, finalWeight, targetWeight, attempts)
      else if next == Timeout && before == Unknown then TimedOut
      else before
    }

    method FinishEvent(r: Reading)
      requires logger.Valid() && logger.active
      modifies this`event, logger`count, logger`sequence, logger.buffer
      ensures logger.Valid()
      ensures logger.Events() == Ended(old(logger.Events()), old(event), phaseStart, r)
    {
      hide Numbered;
      event := event.(duration := r.now - phaseStart, endWeight := r.weight);
      logger.LogEvent(event);
    }

    /** What the end of a grind leaves behind. */
    method Conclude(previous: Phase, now: int)
      modifies this`result, this`usedSinceBoot, this`lastUse
      requires phase != previous
      ensures result == Concluded(phase, old(result))
      ensures UseNoted(previous, old(usedSinceBoot), old(lastUse), now)
    {
      if phase == Completed {
        result := ResultOf(mode, finalWeight, targetWeight, attempts);
        usedSinceBoot := true;
        if previous != TimeAdditionalPulse {
          lastUse := now;
        }
      } else if phase == Timeout {
        if result == Unknown {
          result := TimedOut;
        }
      }
    }

    /** A transition in the control loop: the log stays without gaps, and grows by one event at most. */
    method SwitchInLoop(next: Phase, s: Senses)
      requires LogOk() && phase !in {Idle, next} && next != Idle
      requires recording ==> Logged(phase, attempts) < CAPACITY
      modifies this`phase, this`paused, this`phaseStart, this`event, this`result, this`usedSinceBoot, this`lastUse,
               logger`count, logger`sequence, logger.buffer
      ensures LogWithin(Logged(old(phase), attempts) + 1) && phase == next && phaseStart == s.now
      ensures paused == (next == PurgeConfirm) && result == Concluded(next, old(result))
      ensures UseNoted(old(phase), old(usedSinceBoot), old(lastUse), s.now)
    {
      hide InSequence, Numbered, Concluded, Logged, Begun;
      if recording && logger.active {
        StaysInSequence(logger.Events(), event, phase, phaseStart, startTime, next, At(s.now, s.weight));
      }
      SwitchPhase(next, Some(At(s.now, s.weight)), s.now);
    }

    /** A transition of the control loop; the motor has already been put into the state of the next phase. */
    method Proceed(next: Phase, s: Senses)
      requires PulsesOk() && LogOk() && ModeOk()
      requires phase !in {Idle, next} && next !in {Idle, Initializing, Setup, TimeAdditionalPulse}
      requires MotorFits(next) && ModeFits(next)
      requires extraPulses > 0 ==> Terminal(next)
      requires recording ==> Logged(phase, attempts) < Logged(next, attempts)
      modifies this`phase, this`paused, this`phaseStart, this`event, this`result, this`usedSinceBoot, this`lastUse,
               logger`count, logger`sequence, logger.buffer
      ensures Valid() && phase == next && phaseStart == s.now
      ensures result == Concluded(next, old(result))
      ensures UseNoted(old(phase), old(usedSinceBoot), old(lastUse), s.now)
    {
      assert attempts <= MAX_ATTEMPTS;
      hide PulsesOk, MotorFits, ModeFits, InSequence, GrindLogger.Valid, Concluded;
      SwitchInLoop(next, s);
    }

    /** Before the end, a call leaves the result as it is. */
    lemma NoResultYet(s: Senses)
      requires MayRun(phase) || phase in {Setup, Taring, TareConfirm, PrimeSettling, PulseSettling}
      requires phase != TimeAdditionalPulse
      ensures ResultNext(s) == result
    {
    }

    /** What `FINAL_SETTLING` leads to. */
    lemma FinalSettlingNext(s: Senses)
      requires phase == FinalSettling
      ensures NextPhase(s) ==
        if s.settled == None then FinalSettling
        else if mode == Weight && targetWeight >= 1.0 && s.precise < NO_WEIGHT_G then Timeout
        else Completed
      ensures ResultNext(s) ==
        if s.settled == None then result
        else if mode == Weight && targetWeight >= 1.0 && s.precise < NO_WEIGHT_G then Error
        else ResultOf(mode, s.precise, targetWeight, attempts)
      ensures MotorNext(s) == grinder.grinding
    {
    }

    /** What `TIME_ADDITIONAL_PULSE` leads to. */
    lemma ExtraPulseNext(s: Senses)
      requires phase == TimeAdditionalPulse
      ensures NextPhase(s) ==
        if PulseOver(s) && ((s.motorSettled && s.settled.Some?) || s.now - phaseStart >= SETTLING_TIMEOUT_MS)
        then Completed else TimeAdditionalPulse
      ensures MotorNext(s) == (!PulseOver(s) && grinder.grinding)
      ensures ResultNext(s) ==
        if NextPhase(s) == Completed then ResultOf(mode, s.precise, targetWeight, attempts) else result
    {
    }

    /** What `PRIME` leads to. */
    lemma PrimeNext(s: Senses)
      requires phase == Prime
      ensures NextPhase(s) ==
        if s.weight >= purgeAmount - (if s.flow > 0.0 then s.flow else 0.0) * PRIME_COAST_MS / 1000.0 ||
           s.now - phaseStart >= PRIME_MAX_MS
        then PrimeSettling else Prime
      ensures MotorNext(s) == (NextPhase(s) == Prime && (grinder.grinding || (grinder.ready && s.driverOk)))
    {
    }

    /** What `PRIME_SETTLING` leads to. */
    lemma PrimeSettlingNext(s: Senses)
      requires phase == PrimeSettling
      ensures NextPhase(s) ==
        if s.settled == None && s.now - phaseStart < SETTLING_TIMEOUT_MS then PrimeSettling
        else if purging && (!usedSinceBoot || s.now - lastUse > s.freshFor) then PurgeConfirm
        else Predictive
      ensures MotorNext(s) == if NextPhase(s) == Predictive then grinder.ready && s.driverOk else grinder.grinding
    {
    }

    lemma NothingUsed(now: int)
      ensures UseNoted(phase, usedSinceBoot, lastUse, now)
    {
    }

    lemma LogIsValid()
      requires LogOk()
      ensures logger.Valid()
    {
    }

    lemma PausedInPurge()
      requires Valid()
      ensures paused <==> phase == PurgeConfirm
    {
    }

    lemma MotorRests()
      requires Valid() && !MayRun(phase)
      ensures !grinder.grinding
    {
    }

    lemma NothingRecorded()
      requires logger.Valid() && !recording
      ensures LogOk()
    {
    }

    // ---------------------------------------------------------------- before the grind

    /** The case `INITIALIZING` of `update`. */
    method StepInitializing(s: Senses)
      requires Valid() && phase == Initializing
      modifies this`phase, this`paused, this`phaseStart, this`event, this`result, this`usedSinceBoot, this`lastUse,
               logger`count, logger`sequence, logger.buffer
      ensures Valid() && phase == if uiReady then Setup else Initializing
      ensures Advanced(s)
    {
      hide PulsesOk, LogWithin, Motor.Grinder.Valid, Numbered;
      assert logger.Valid() by {
        LogIsValid();
      }
      if uiReady {
        SwitchPhase(Setup, Some(At(s.now, s.weight)), s.now);
        assert LogOk() by {
          NothingRecorded();
        }
      }
    }

    /** The case `SETUP` of `update`. */
    method StepSetup(s: Senses)
      requires Valid() && phase == Setup
      modifies this`event, this`recording, this`phase, this`paused, this`phaseStart, this`result, this`usedSinceBoot,
               this`lastUse, logger`count, logger`sequence, logger`active, logger.buffer
      ensures Valid() && phase == Taring
      ensures logger.hasBuffers ==> recording && logger.active && |logger.Events()| == 1
      ensures Advanced(s)
    {
      hide PulsesOk, LogWithin, Motor.Grinder.Valid, Numbered;
      assert logger.Valid() by {
        LogIsValid();
      }
      OpenLog(s);
    }

    /** The session begins, and the end of the setup is its first event. */
    method OpenLog(s: Senses)
      requires logger.Valid() && phase == Setup
      modifies this`event, this`recording, this`phase, this`paused, this`phaseStart, this`result, this`usedSinceBoot,
               this`lastUse, logger`count, logger`sequence, logger`active, logger.buffer
      ensures LogWithin(1) && phase == Taring && !paused && (recording ==> logger.hasBuffers)
      ensures logger.Valid() && phaseStart == s.now && result == old(result)
      ensures UseNoted(old(phase), old(usedSinceBoot), old(lastUse), s.now)
      ensures logger.hasBuffers ==> recording && logger.active && |logger.Events()| == 1
    {
      hide InSequence, Numbered;
      logger.StartSession();
      event := NO_EVENT;
      recording := logger.hasBuffers;
      if recording {
        FirstEvent(event, phaseStart, startTime, Taring, At(s.now, s.weight));
      }
      SwitchPhase(Taring, Some(At(s.now, s.weight)), s.now);
    }

    /** The case `TARING` of `update`. */
    method StepTaring(s: Senses)
      requires Valid() && phase == Taring
      modifies this`phase, this`paused, this`phaseStart, this`event, this`result, this`usedSinceBoot, this`lastUse,
               logger`count, logger`sequence, logger.buffer
      ensures Valid() && phase == if s.tareStarted then TareConfirm else Taring
      ensures Advanced(s)
    {
      hide PulsesOk, LogOk, Motor.Grinder.Valid;
      if s.tareStarted {
        Proceed(TareConfirm, s);
      }
    }

    /** The scale shows zero, and the motor is started. */
    method StartMotor(s: Senses)
      requires Valid() && phase == TareConfirm
      modifies this`timeGrindStart, this`phase, this`paused, this`phaseStart, this`event, this`result,
               this`usedSinceBoot, this`lastUse, grinder`grinding, grinder`pulseActive, grinder`background,
               grinder`line, logger`count, logger`sequence, logger.buffer
      ensures Valid() && phase == (if mode == Time then TimeGrinding else Prime)
      ensures timeGrindStart == phaseStart == s.now && result == old(result)
      ensures grinder.grinding == old(grinder.grinding || (grinder.ready && s.driverOk))
      ensures UseNoted(old(phase), old(usedSinceBoot), old(lastUse), s.now)
    {
      hide PulsesOk, LogOk, Motor.Grinder.Valid;
      if !grinder.grinding {
        grinder.Start(s.driverOk);
      }
      timeGrindStart := s.now;
      Proceed(if mode == Time then TimeGrinding else Prime, s);
    }

    /** The case `TARE_CONFIRM` of `update`. */
    method StepTareConfirm(s: Senses)
      requires Valid() && phase == TareConfirm
      modifies this`timeGrindStart, this`phase, this`paused, this`phaseStart, this`event, this`result,
               this`usedSinceBoot, this`lastUse, grinder`grinding, grinder`pulseActive, grinder`background,
               grinder`line, logger`count, logger`sequence, logger.buffer
      ensures Valid()
      ensures phase ==
        if s.tareBusy || !s.scaleQuiet then TareConfirm else if mode == Time then TimeGrinding else Prime
      ensures Advanced(s)
    {
      hide ResultNext, Valid;
      NoResultYet(s);
      if s.tareBusy || !s.scaleQuiet {
        return;
      }
      StartMotor(s);
    }

    /** The motor is stopped, and what it has ground may settle. */
    method StopAndSettle(next: Phase, s: Senses)
      requires Valid() && match phase
        case Prime => next == PrimeSettling
        case TimeGrinding => next == FinalSettling
        case _ => phase == Predictive && next == PulseSettling
      modifies this`phase, this`paused, this`phaseStart, this`event, this`result, this`usedSinceBoot, this`lastUse,
               grinder`grinding, grinder`pulseActive, grinder`background, grinder`line,
               logger`count, logger`sequence, logger.buffer
      ensures Valid() && phase == next && !grinder.grinding && phaseStart == s.now && result == old(result)
      ensures UseNoted(old(phase), old(usedSinceBoot), old(lastUse), s.now)
    {
      hide PulsesOk, LogOk, Motor.Grinder.Valid;
      grinder.Stop();
      Proceed(next, s);
    }

    /** The case `PRIME` of `update`: stop early by what is still on its way. */
    method StepPrime(s: Senses)
      requires Valid() && phase == Prime
      modifies this`phase, this`paused, this`phaseStart, this`event, this`result, this`usedSinceBoot, this`lastUse,
               grinder`grinding, grinder`pulseActive, grinder`background, grinder`line,
               logger`count, logger`sequence, logger.buffer
      ensures Valid()
      ensures phase == PrimeSettling <==>
        s.weight >= purgeAmount - (if s.flow > 0.0 then s.flow else 0.0) * 300.0 / 1000.0 ||
        s.now - old(phaseStart) >= 5000
      ensures phase == Prime || phase == PrimeSettling
      ensures Advanced(s)
    {
      hide NextPhase, MotorNext, ResultNext, PulsesOk, LogOk, Motor.Grinder.Valid;
      PrimeNext(s);
      NoResultYet(s);
      if !grinder.grinding {
        grinder.Start(s.driverOk);
      }
      var coast := (if s.flow > 0.0 then s.flow else 0.0) * PRIME_COAST_MS / 1000.0;
      var reached := s.weight >= purgeAmount - coast;
      var exceeded := s.now - phaseStart >= PRIME_MAX_MS;
      if reached || exceeded {
        StopAndSettle(PrimeSettling, s);
      }
    }

    /** The case `PRIME_SETTLING` of `update`: ask the user, or go on grinding at once. */
    method StepPrimeSettling(s: Senses)
      requires Valid() && phase == PrimeSettling
      modifies this`flowConfirmed, this`grindLatency, this`pauseStart, this`timeGrindStart,
               this`phase, this`paused, this`phaseStart, this`event, this`result, this`usedSinceBoot, this`lastUse,
               grinder`grinding, grinder`pulseActive, grinder`background, grinder`line,
               logger`count, logger`sequence, logger.buffer
      ensures Valid()
      ensures phase ==
        if s.settled == None && s.now - old(phaseStart) < 10000 then PrimeSettling
        else if purging && (!old(usedSinceBoot) || s.now - old(lastUse) > s.freshFor) then PurgeConfirm
        else Predictive
      ensures phase == PurgeConfirm ==> !grinder.grinding && pauseStart == s.now
      ensures phase != PurgeConfirm ==> pauseStart == old(pauseStart)
      ensures Advanced(s)
    {
      hide NextPhase, MotorNext, ResultNext, Valid;
      PrimeSettlingNext(s);
      NoResultYet(s);
      MotorRests();
      if s.settled == None && s.now - phaseStart < SETTLING_TIMEOUT_MS {
        return;
      }
      flowConfirmed := false;
      grindLatency := 0.0;
      AskOrGoOn(s);
    }

    /** The user is asked about stale grounds, or the grind goes on at once. */
    method AskOrGoOn(s: Senses)
      requires Valid() && phase == PrimeSettling
      modifies this`pauseStart, this`timeGrindStart,
               this`phase, this`paused, this`phaseStart, this`event, this`result, this`usedSinceBoot, this`lastUse,
               grinder`grinding, grinder`pulseActive, grinder`background, grinder`line,
               logger`count, logger`sequence, logger.buffer
      ensures Valid()
      ensures phase ==
        if purging && (!old(usedSinceBoot) || s.now - old(lastUse) > s.freshFor) then PurgeConfirm else Predictive
      ensures phaseStart == s.now && result == old(result)
      ensures timeGrindStart == if phase == Predictive then s.now else old(timeGrindStart)
      ensures UseNoted(old(phase), old(usedSinceBoot), old(lastUse), s.now)
      ensures grinder.grinding == (phase == Predictive && grinder.ready && s.driverOk)
      ensures pauseStart == if phase == PurgeConfirm then s.now else old(pauseStart)
    {
      hide PulsesOk, LogOk, Motor.Grinder.Valid;
      var stale := if !usedSinceBoot then true else s.now - lastUse > s.freshFor;
      if purging && stale {
        pauseStart := s.now;
        Proceed(PurgeConfirm, s);
      } else {
        StartGrinding(s);
      }
    }

    /** The motor is started for the main part of a grind by weight. */
    method StartGrinding(s: Senses)
      requires Valid() && (phase == PrimeSettling || phase == PurgeConfirm)
      modifies this`timeGrindStart,
               this`phase, this`paused, this`phaseStart, this`event, this`result, this`usedSinceBoot, this`lastUse,
               grinder`grinding, grinder`pulseActive, grinder`background, grinder`line,
               logger`count, logger`sequence, logger.buffer
      ensures Valid() && phase == Predictive && timeGrindStart == s.now && phaseStart == s.now && result == old(result)
      ensures UseNoted(old(phase), old(usedSinceBoot), old(lastUse), s.now)
      ensures grinder.grinding <==> grinder.ready && s.driverOk
    {
      hide PulsesOk, LogOk, Motor.Grinder.Valid;
      grinder.Start(s.driverOk);
      timeGrindStart := s.now;
      Proceed(Predictive, s);
    }

    // ---------------------------------------------------------------- grinding by time

    /** `TimeGrindStrategy::update` */
    method StepTimeGrinding(s: Senses)
      requires Valid() && phase == TimeGrinding
      modifies this`timeGrindStart,
               this`phase, this`paused, this`phaseStart, this`event, this`result, this`usedSinceBoot, this`lastUse,
               grinder`grinding, grinder`pulseActive, grinder`background, grinder`line,
               logger`count, logger`sequence, logger.buffer
      ensures Valid()
      ensures timeGrindStart == if old(timeGrindStart) == 0 then s.now else old(timeGrindStart)
      ensures if targetTime == 0 || s.now - timeGrindStart >= targetTime
        then phase == FinalSettling && !grinder.grinding
        else phase == TimeGrinding && grinder.grinding == old(grinder.grinding)
      ensures Advanced(s)
    {
      hide ResultNext, Valid;
      NoResultYet(s);
      if timeGrindStart == 0 {
        timeGrindStart := s.now;
      }
      if targetTime == 0 {
        StopAndSettle(FinalSettling, s);
        return;
      }
      var elapsed := s.now - timeGrindStart;
      if elapsed >= targetTime {
        StopAndSettle(FinalSettling, s);
      }
    }

    // ---------------------------------------------------------------- grinding by weight

    /** The first half of `run_predictive_phase`: what the flow says about how early to stop. */
    method ObserveFlow(s: Senses)
      modifies this`grindLatency, this`flowConfirmed, this`stopTarget
      ensures flowConfirmed == (old(flowConfirmed) || s.flow500 >= FLOW_THRESHOLD)
      ensures grindLatency == old(LatencyAfter(s)) && stopTarget == old(StopTargetAfter(s))
    {
      if !flowConfirmed {
        if s.flow500 >= FLOW_THRESHOLD {
          grindLatency := (s.now - phaseStart) as real;
          flowConfirmed := true;
        }
      }
      if flowConfirmed {
        if s.now as real > phaseStart as real + grindLatency + FLOW_WINDOW_MS as real {
          if s.flow1500 > FLOW_THRESHOLD {
            stopTarget := grindLatency * LATENCY_TO_COAST / 1000.0 * s.flow1500;
          }
        }
      }
    }

    /**
      With a flow that has lasted long enough, the motor is stopped exactly when another latency of that
      flow makes up what is missing; with a flow seen for the first time the latency is the time it took.
    */
    lemma StopsOneLatencyEarly(s: Senses)
      requires phase == Predictive && s.motorSettled
      requires flowConfirmed || s.flow500 >= 0.5
      ensures !flowConfirmed ==> LatencyAfter(s) == (s.now - phaseStart) as real
      ensures flowConfirmed ==> LatencyAfter(s) == grindLatency
      ensures s.flow1500 > 0.5 && s.now as real > phaseStart as real + LatencyAfter(s) + 1500.0 ==>
        (NextPhase(s) == PulseSettling <==> s.weight + s.flow1500 * (LatencyAfter(s) / 1000.0) >= targetWeight)
    {
      var t := LatencyAfter(s);
      assert t * LATENCY_TO_COAST / 1000.0 * s.flow1500 == s.flow1500 * (t / 1000.0);
    }

    /** `run_predictive_phase` */
    method StepPredictive(s: Senses)
      requires Valid() && phase == Predictive
      modifies this`grindLatency, this`flowConfirmed, this`stopTarget, this`pulseFlow, this`pulseFlowBase,
               this`phase, this`paused, this`phaseStart, this`event, this`result, this`usedSinceBoot, this`lastUse,
               grinder`grinding, grinder`pulseActive, grinder`background, grinder`line,
               logger`count, logger`sequence, logger.buffer
      ensures Valid()
      ensures if s.motorSettled && s.weight >= targetWeight - stopTarget
        then phase == PulseSettling && !grinder.grinding && pulseFlowBase == s.flow95 && pulseFlow == s.flow95 * gain
        else phase == Predictive && grinder.grinding == old(grinder.grinding)
      ensures Advanced(s)
    {
      hide ResultNext, Valid;
      NoResultYet(s);
      ObserveFlow(s);
      if s.motorSettled && s.weight >= targetWeight - stopTarget {
        StopPredictive(s);
      }
    }

    /** The motor is stopped, and the flow of the first pulse is estimated from what was seen and learned. */
    method StopPredictive(s: Senses)
      requires Valid() && phase == Predictive
      modifies this`pulseFlow, this`pulseFlowBase,
               this`phase, this`paused, this`phaseStart, this`event, this`result, this`usedSinceBoot, this`lastUse,
               grinder`grinding, grinder`pulseActive, grinder`background, grinder`line,
               logger`count, logger`sequence, logger.buffer
      ensures Valid() && phase == PulseSettling && !grinder.grinding && phaseStart == s.now && result == old(result)
      ensures UseNoted(old(phase), old(usedSinceBoot), old(lastUse), s.now)
      ensures pulseFlowBase == s.flow95 && pulseFlow == s.flow95 * gain
    {
      hide Valid;
      pulseFlowBase := s.flow95;
      pulseFlow := pulseFlowBase * gain;
      StopAndSettle(PulseSettling, s);
    }

    /** The settled yield of the pulse before is a measurement of the flow. */
    method CloseLoop(settled: real)
      requires PulsesOk() && attempts > 0
      modifies history, this`pulseFlow, this`gain
      ensures PulsesOk()
      ensures forall k :: 0 <= k < attempts - 1 ==> history[k] == old(history[k])
      ensures history[attempts - 1] == old(history[attempts - 1]).(endWeight := settled)
      ensures match PulseLoop.MeasuredFlow(settled - old(history[attempts - 1]).startWeight,
                                           old(history[attempts - 1]).duration, motorLatency)
        case Some(m) => pulseFlow == m && gain == PulseLoop.UpdatedGain(old(gain), m, pulseFlowBase)
        case None => pulseFlow == old(pulseFlow) && gain == old(gain)
    {
      hide PulseLoop.UpdatedGain, PulseLoop.MeasuredFlow;
      var last := history[attempts - 1];
      history[attempts - 1] := last.(endWeight := settled);
      var measured := PulseLoop.MeasuredFlow(settled - last.startWeight, last.duration, motorLatency);
      if measured.Some? {
        PulseLoop.GainStaysInRange(gain, measured.value, pulseFlowBase);
        pulseFlow := measured.value;
        gain := PulseLoop.UpdatedGain(gain, measured.value, pulseFlowBase);
      }
    }

    function Correction(settled: real): real
      reads this`pulseFlow, this`motorLatency, this`targetWeight
    {
      PulseLoop.Duration(pulseFlow, motorLatency, targetWeight - TOLERANCE - settled)
    }

    /** The next pulse is entered into the history and started; the driver never refuses its length. */
    method RunCorrection(settled: real, driverOk: bool) returns (ok: bool)
      requires PulsesOk() && attempts < MAX_ATTEMPTS && extraPulses == 0 && grinder.Valid() && !grinder.grinding
      modifies this`currentDuration, history,
               grinder`grinding, grinder`pulseActive, grinder`pulseDone, grinder`background, grinder`line,
               grinder`pulses, grinder.symbols
      ensures grinder.Valid() && currentDuration == Correction(settled)
      ensures ok <==> grinder.ready && driverOk
      ensures ok ==> PulsesFor(attempts + 1) && history[attempts] == PulseReport(settled, settled, currentDuration)
      ensures forall k :: 0 <= k < attempts ==> history[k] == old(history[k])
      ensures ok ==>
        grinder.grinding && grinder.pulseActive && grinder.line == Motor.Pulse(Whole(currentDuration) * 1000)
      ensures !ok ==> PulsesOk() && !grinder.grinding && !grinder.pulseActive
    {
      hide PulseLoop.Duration;
      currentDuration := Correction(settled);
      PulseLoop.DurationBounds(pulseFlow, motorLatency, targetWeight - TOLERANCE - settled);
      history[attempts] := PulseReport(settled, settled, currentDuration);
      ok := grinder.StartPulse(Whole(currentDuration), driverOk);
    }

    /** The end of `run_pulse_decision_phase`. */
    method StartCorrection(s: Senses, settled: real)
      requires Valid() && phase == PulseDecision && attempts < MAX_ATTEMPTS
      modifies this`currentDuration, this`attempts, history,
               this`phase, this`paused, this`phaseStart, this`event, this`result, this`usedSinceBoot, this`lastUse,
               grinder`grinding, grinder`pulseActive, grinder`pulseDone, grinder`background, grinder`line,
               grinder`pulses, grinder.symbols, logger`count, logger`sequence, logger.buffer
      ensures Valid() && currentDuration == old(Correction(settled)) && phaseStart == s.now
      ensures UseNoted(old(phase), old(usedSinceBoot), old(lastUse), s.now)
      ensures grinder.grinding == (phase == PulseExecute)
      ensures result == if phase == Timeout && old(result) == Unknown then TimedOut else old(result)
      ensures phase == if grinder.ready && s.driverOk then PulseExecute else Timeout
      ensures phase == PulseExecute ==>
        && attempts == old(attempts) + 1
        && history[old(attempts)] == PulseReport(settled, settled, currentDuration)
        && grinder.line == Motor.Pulse(Whole(currentDuration) * 1000)
      ensures phase == Timeout ==> attempts == old(attempts) && !grinder.grinding
      ensures forall k :: 0 <= k < old(attempts) ==> history[k] == old(history[k])
    {
      hide LogWithin, PulsesFor, Correction, Motor.Grinder.Valid, Numbered;
      var ok := RunCorrection(settled, s.driverOk);
      if !ok {
        Proceed(Timeout, s);
        return;
      }
      EnterExecution(s);
    }

    /** `switch_phase` comes before the attempt is counted. */
    method EnterExecution(s: Senses)
      requires LogOk() && ModeOk() && MotorFits(PulseExecute) && phase == PulseDecision
      requires attempts < MAX_ATTEMPTS && PulsesFor(attempts + 1)
      modifies this`attempts,
               this`phase, this`paused, this`phaseStart, this`event, this`result, this`usedSinceBoot, this`lastUse,
               logger`count, logger`sequence, logger.buffer
      ensures Valid() && phase == PulseExecute && attempts == old(attempts) + 1
      ensures phaseStart == s.now && result == old(result)
      ensures UseNoted(old(phase), old(usedSinceBoot), old(lastUse), s.now)
    {
      hide PulsesFor, InSequence, MotorFits, GrindLogger.Valid;
      SwitchInLoop(PulseExecute, s);
      attempts := attempts + 1;
    }

    /** The yield of the last pulse closes one round of the loop. */
    method CloseRound(s: Senses)
      requires PulsesOk() && phase == PulseDecision && attempts > 0 && s.settled.Some?
      modifies history, this`pulseFlow, this`gain
      ensures PulsesOk()
      ensures old(LoopOk()) ==> forall actual :: s.settled.value == old(Afterwards(actual)) ==>
        PulseLoop.Loop(s.settled.value, pulseFlow, attempts)
        == PulseLoop.Pulse(targetWeight, motorLatency, actual, true, old(LastDecision()))
      ensures old(LoopOk() && StaysBelow() && NotFaster(s)) ==> StaysBelow()
    {
      var settled := s.settled.value;
      if LoopOk() && StaysBelow() && NotFaster(s) {
        YieldBelow(s);
      }
      hide PulsesOk, NotFaster, PulseLoop.MeasuredFlow, PulseLoop.UpdatedGain, PulseLoop.Duration, PulseLoop.Yield;
      CloseLoop(settled);
    }

    /** On a plant that is not too fast the last pulse has not passed the conservative target. */
    lemma YieldBelow(s: Senses)
      requires phase == PulseDecision && 0 < attempts <= history.Length && s.settled.Some?
      requires LoopOk() && StaysBelow() && NotFaster(s)
      ensures history[attempts - 1].startWeight <= s.settled.value <= targetWeight - TOLERANCE
    {
      var last := history[attempts - 1];
      var actual :| 0.0 <= actual <= PulseLoop.ClampedFlow(pulseFlow) && s.settled.value == Afterwards(actual);
      PulseLoop.YieldBelowError(actual, pulseFlow, motorLatency, targetWeight - TOLERANCE - last.startWeight,
                                Whole(last.duration) as real);
    }

    /** `run_pulse_decision_phase` */
    method StepPulseDecision(s: Senses)
      requires Valid() && phase == PulseDecision
      modifies this`pulseFlow, this`gain, this`currentDuration, this`attempts, history,
               this`phase, this`paused, this`phaseStart, this`event, this`result, this`usedSinceBoot, this`lastUse,
               grinder`grinding, grinder`pulseActive, grinder`pulseDone, grinder`background, grinder`line,
               grinder`pulses, grinder.symbols, logger`count, logger`sequence, logger.buffer
      ensures Valid()
      ensures s.settled == None ==> phase == PulseDecision && attempts == old(attempts)
      ensures s.settled.Some? && (PulseLoop.Reached(targetWeight, s.settled.value) || old(attempts) >= 10) ==>
        phase == FinalSettling && attempts == old(attempts)
      ensures s.settled.Some? && !PulseLoop.Reached(targetWeight, s.settled.value) && old(attempts) < 10 ==>
        phase == if grinder.ready && s.driverOk then PulseExecute else Timeout
      ensures phase == PulseExecute ==> attempts == old(attempts) + 1 && currentDuration == Correction(s.settled.value)
      ensures Rounded(s)
      ensures old(LoopOk()) ==> LoopOk()
      ensures old(LoopOk() && StaysBelow() && NotFaster(s)) ==> StaysBelow()
      ensures Advanced(s)
    {
      if s.settled == None {
        return;
      }
      hide Valid, LoopOk, StaysBelow, NotFaster, Advanced, Rounded, Correction;
      DecideOnSettled(s);
    }

    lemma DecisionNext(s: Senses)
      requires phase == PulseDecision && s.settled.Some?
      ensures NextPhase(s) ==
        if PulseLoop.Reached(targetWeight, s.settled.value) || attempts >= MAX_ATTEMPTS then FinalSettling
        else if grinder.ready && s.driverOk then PulseExecute
        else Timeout
      ensures MotorNext(s) == (NextPhase(s) == PulseExecute || grinder.grinding)
      ensures ResultNext(s) == if NextPhase(s) == Timeout && result == Unknown then TimedOut else result
    {
    }

    /** The same once the scale has settled. */
    method DecideOnSettled(s: Senses)
      requires Valid() && phase == PulseDecision && s.settled.Some?
      modifies this`pulseFlow, this`gain, this`currentDuration, this`attempts, history,
               this`phase, this`paused, this`phaseStart, this`event, this`result, this`usedSinceBoot, this`lastUse,
               grinder`grinding, grinder`pulseActive, grinder`pulseDone, grinder`background, grinder`line,
               grinder`pulses, grinder.symbols, logger`count, logger`sequence, logger.buffer
      ensures Valid() && Advanced(s) && Rounded(s)
      ensures PulseLoop.Reached(targetWeight, s.settled.value) || old(attempts) >= MAX_ATTEMPTS ==>
        phase == FinalSettling && attempts == old(attempts)
      ensures !PulseLoop.Reached(targetWeight, s.settled.value) && old(attempts) < MAX_ATTEMPTS ==>
        phase == if grinder.ready && s.driverOk then PulseExecute else Timeout
      ensures phase == PulseExecute ==> attempts == old(attempts) + 1 && currentDuration == Correction(s.settled.value)
      ensures old(LoopOk()) ==> LoopOk()
      ensures old(LoopOk() && StaysBelow() && NotFaster(s)) ==> StaysBelow()
    {
      hide Valid, LoopOk, StaysBelow, NotFaster, Rounded, Correction, NextPhase, MotorNext, ResultNext, UseNoted;
      DecisionNext(s);
      MotorRests();
      CloseAndDecide(s);
    }

    method CloseAndDecide(s: Senses)
      requires Valid() && phase == PulseDecision && s.settled.Some?
      modifies this`pulseFlow, this`gain, this`currentDuration, this`attempts, history,
               this`phase, this`paused, this`phaseStart, this`event, this`result, this`usedSinceBoot, this`lastUse,
               grinder`grinding, grinder`pulseActive, grinder`pulseDone, grinder`background, grinder`line,
               grinder`pulses, grinder.symbols, logger`count, logger`sequence, logger.buffer
      ensures Valid() && Rounded(s)
      ensures PulseLoop.Reached(targetWeight, s.settled.value) || old(attempts) >= MAX_ATTEMPTS ==>
        phase == FinalSettling && attempts == old(attempts)
      ensures !PulseLoop.Reached(targetWeight, s.settled.value) && old(attempts) < MAX_ATTEMPTS ==>
        phase == if grinder.ready && s.driverOk then PulseExecute else Timeout
      ensures phase == PulseExecute ==> attempts == old(attempts) + 1 && currentDuration == Correction(s.settled.value)
      ensures old(LoopOk()) ==> LoopOk()
      ensures old(LoopOk() && StaysBelow() && NotFaster(s)) ==> StaysBelow()
      ensures grinder.grinding == (phase == PulseExecute) && phaseStart == s.now
      ensures UseNoted(old(phase), old(usedSinceBoot), old(lastUse), s.now)
      ensures result == if phase == Timeout && old(result) == Unknown then TimedOut else old(result)
      ensures attempts == old(attempts) + if phase == PulseExecute then 1 else 0
      ensures phase == PulseExecute ==> attempts <= history.Length && history[attempts - 1].startWeight == s.settled.value
    {
      assert attempts <= MAX_ATTEMPTS == history.Length;
      hide PulsesOk, LogOk, ModeOk, Motor.Grinder.Valid, Correction, NotFaster, LastDecision, PulseLoop.Pulse, UseNoted;
      if attempts > 0 {
        CloseRound(s);
      }
      Decide(s);
    }

    /** No further correction. */
    method EndCorrections(s: Senses)
      requires Valid() && phase == PulseDecision && attempts <= MAX_ATTEMPTS
      modifies this`phase, this`paused, this`phaseStart, this`event, this`result, this`usedSinceBoot, this`lastUse,
               logger`count, logger`sequence, logger.buffer
      ensures Valid() && phase == FinalSettling && !grinder.grinding && phaseStart == s.now && result == old(result)
      ensures UseNoted(old(phase), old(usedSinceBoot), old(lastUse), s.now)
    {
      hide PulsesOk, LogOk, Motor.Grinder.Valid;
      Proceed(FinalSettling, s);
    }

    /** The second half of `run_pulse_decision_phase`: the end of the corrections, or the next one. */
    method Decide(s: Senses)
      requires Valid() && phase == PulseDecision && s.settled.Some? && attempts <= MAX_ATTEMPTS == history.Length
      modifies this`currentDuration, this`attempts, history,
               this`phase, this`paused, this`phaseStart, this`event, this`result, this`usedSinceBoot, this`lastUse,
               grinder`grinding, grinder`pulseActive, grinder`pulseDone, grinder`background, grinder`line,
               grinder`pulses, grinder.symbols, logger`count, logger`sequence, logger.buffer
      ensures Valid() && LoopOk() && (old(StaysBelow()) ==> StaysBelow())
      ensures grinder.grinding == (phase == PulseExecute) && phaseStart == s.now
      ensures UseNoted(old(phase), old(usedSinceBoot), old(lastUse), s.now)
      ensures result == if phase == Timeout && old(result) == Unknown then TimedOut else old(result)
      ensures attempts == old(attempts) + if phase == PulseExecute then 1 else 0
      ensures phase == PulseExecute ==> history[attempts - 1].startWeight == s.settled.value
      ensures PulseLoop.Reached(targetWeight, s.settled.value) || old(attempts) >= MAX_ATTEMPTS ==>
        phase == FinalSettling && attempts == old(attempts)
      ensures !PulseLoop.Reached(targetWeight, s.settled.value) && old(attempts) < MAX_ATTEMPTS ==>
        phase == if grinder.ready && s.driverOk then PulseExecute else Timeout
      ensures phase == PulseExecute ==> attempts == old(attempts) + 1 && currentDuration == Correction(s.settled.value)
    {
      hide Valid, Correction;
      var settled := s.settled.value;
      if PulseLoop.Reached(targetWeight, settled) || attempts >= MAX_ATTEMPTS {
        EndCorrections(s);
        return;
      }
      StartCorrection(s, settled);
    }

    /** `is_pulse_complete`, after the interrupt that may have come before. */
    method PulseIsOver(s: Senses) returns (over: bool)
      requires grinder.Valid()
      modifies grinder`grinding, grinder`pulseActive, grinder`pulseDone, grinder`background, grinder`line
      ensures grinder.Valid() && over == old(PulseOver(s))
      ensures over && old(grinder.pulseActive) ==> !grinder.grinding && !grinder.pulseActive
      ensures !(over && old(grinder.pulseActive)) ==>
        grinder.grinding == old(grinder.grinding) && grinder.pulseActive == old(grinder.pulseActive)
      ensures !old(grinder.pulseActive) ==> over
    {
      if s.pulseFinished && grinder.pulseActive && !grinder.pulseDone {
        grinder.TransmitDone();
      }
      over := grinder.IsPulseComplete();
    }

    /** `run_pulse_execute_phase` */
    method StepPulseExecute(s: Senses)
      requires Valid() && phase == PulseExecute
      modifies this`phase, this`paused, this`phaseStart, this`event, this`result, this`usedSinceBoot, this`lastUse,
               grinder`grinding, grinder`pulseActive, grinder`pulseDone, grinder`background, grinder`line,
               logger`count, logger`sequence, logger.buffer
      ensures Valid() && (phase == PulseExecute || (phase == PulseSettling && !grinder.grinding))
      ensures Advanced(s)
    {
      hide PulsesOk, LogOk, Motor.Grinder.Valid;
      var over := PulseIsOver(s);
      if over {
        Proceed(PulseSettling, s);
      }
    }

    /** `run_pulse_settling_phase` */
    method StepPulseSettling(s: Senses)
      requires Valid() && phase == PulseSettling
      modifies this`phase, this`paused, this`phaseStart, this`event, this`result, this`usedSinceBoot, this`lastUse,
               logger`count, logger`sequence, logger.buffer
      ensures Valid()
      ensures phase ==
        if (s.now - old(phaseStart)) as real >= grindLatency + 200.0 && s.settledShortly
        then PulseDecision else PulseSettling
      ensures Advanced(s)
    {
      hide PulsesOk, LogOk, Motor.Grinder.Valid;
      if (s.now - phaseStart) as real >= grindLatency + MOTOR_SETTLING_MS as real {
        if s.settledShortly {
          Proceed(PulseDecision, s);
        }
      }
    }

    // ---------------------------------------------------------------- the end of a grind

    /** The case `FINAL_SETTLING` of `update`, with `final_measurement`. */
    method StepFinalSettling(s: Senses)
      requires Valid() && phase == FinalSettling
      modifies this`finalWeight, this`phase, this`paused, this`phaseStart, this`event, this`result,
               this`usedSinceBoot, this`lastUse, logger`count, logger`sequence, logger.buffer
      ensures Valid()
      ensures s.settled == None ==> phase == FinalSettling
      ensures s.settled.Some? ==> finalWeight == s.precise
      ensures s.settled.Some? && mode == Weight && targetWeight >= 1.0 && s.precise < 0.2 ==>
        phase == Timeout && result == Error
      ensures s.settled.Some? && !(mode == Weight && targetWeight >= 1.0 && s.precise < 0.2) ==>
        phase == Completed && result == ResultOf(mode, s.precise, targetWeight, attempts)
      ensures Advanced(s)
    {
      hide NextPhase, MotorNext, ResultNext, ResultOf, PulsesOk, LogOk, Motor.Grinder.Valid;
      FinalSettlingNext(s);
      if s.settled == None {
        return;
      }
      finalWeight := s.precise;
      if mode == Weight && targetWeight >= 1.0 && finalWeight < NO_WEIGHT_G {
        result := Error;
        Proceed(Timeout, s);
        return;
      }
      Proceed(Completed, s);
    }

    /** The case `TIME_ADDITIONAL_PULSE` of `update`: back to the end once the extra pulse has settled. */
    method StepExtraPulse(s: Senses)
      requires Valid() && phase == TimeAdditionalPulse
      modifies this`finalWeight, this`phase, this`paused, this`phaseStart, this`event, this`result,
               this`usedSinceBoot, this`lastUse,
               grinder`grinding, grinder`pulseActive, grinder`pulseDone, grinder`background, grinder`line,
               logger`count, logger`sequence, logger.buffer
      ensures Valid()
      ensures phase == TimeAdditionalPulse || (phase == Completed && !grinder.grinding && finalWeight == s.precise)
      ensures Advanced(s)
    {
      hide NextPhase, MotorNext, ResultNext, ResultOf, PulsesOk, LogOk, Motor.Grinder.Valid;
      ExtraPulseNext(s);
      var over := PulseIsOver(s);
      if !over {
        return;
      }
      var settled := s.motorSettled && s.settled.Some?;
      var timedOut := s.now - phaseStart >= SETTLING_TIMEOUT_MS;
      if !settled && !timedOut {
        return;
      }
      finalWeight := s.precise;
      Proceed(Completed, s);
    }

    /** The cases `COMPLETED` and `TIMEOUT` of `update`: the session is handed over to be saved, once. */
    method StepEnd(s: Senses)
      requires Valid() && Terminal(phase)
      modifies this`endQueued
      ensures Valid() && endQueued == (old(endQueued) || logger.active)
      ensures Advanced(s)
    {
      hide PulsesOk, LogOk, Motor.Grinder.Valid;
      if logger.active && !endQueued {
        endQueued := true;
      }
    }

    // ---------------------------------------------------------------- the failsafes

    /** The cup was lifted, or the scale is wrong. */
    predicate NegativeWeight(p: Phase, s: Senses) {
      && p !in {Completed, Timeout, Idle, Initializing, Setup, Taring, TareConfirm, TimeAdditionalPulse}
      && s.motorSettled && s.weight < -1.0
    }

    /** The scale has stopped delivering samples. */
    predicate StaleSample(p: Phase, s: Senses) {
      && p !in {Completed, Timeout, Idle, Initializing, Setup, PurgeConfirm}
      && !s.fault && s.sampleAge > STALE_SAMPLE_MS
    }

    /** `check_timeout` */
    predicate OutOfTime(p: Phase, s: Senses)
      reads this`startTime, this`pausedFor
    {
      p !in {Completed, Timeout, PurgeConfirm} && s.now - startTime - pausedFor >= GRIND_TIMEOUT_MS
    }

    /** A failsafe stops a grind in phase `p`. */
    predicate Stopped(p: Phase, s: Senses)
      reads this`startTime, this`pausedFor
    {
      NegativeWeight(p, s) || StaleSample(p, s) || OutOfTime(p, s)
    }

    /** The end of `update`. */
    method Failsafes(s: Senses)
      requires Valid() && phase != Idle
      modifies this`phase, this`paused, this`phaseStart, this`event, this`result, this`usedSinceBoot, this`lastUse,
               grinder`grinding, grinder`pulseActive, grinder`background, grinder`line,
               logger`count, logger`sequence, logger.buffer
      ensures Valid()
      ensures old(Stopped(phase, s)) ==>
        phase == Timeout && !grinder.grinding &&
        result == if old(NegativeWeight(phase, s) || StaleSample(phase, s)) then Error else TimedOut
      ensures !old(Stopped(phase, s)) ==> unchanged(this, grinder, logger, logger.buffer)
    {
      assert attempts <= MAX_ATTEMPTS;
      hide Valid;
      if NegativeWeight(phase, s) || StaleSample(phase, s) {
        Abort(Error, s);
      } else if OutOfTime(phase, s) {
        Abort(TimedOut, s);
      }
    }

    method Abort(why: Result, s: Senses)
      requires Valid() && phase !in {Idle, Completed, Timeout} && why != Unknown && attempts <= MAX_ATTEMPTS
      modifies this`phase, this`paused, this`phaseStart, this`event, this`result, this`usedSinceBoot, this`lastUse,
               grinder`grinding, grinder`pulseActive, grinder`background, grinder`line, logger`count, logger`sequence,
               logger.buffer
      ensures Valid() && phase == Timeout && !grinder.grinding && result == why
    {
      hide PulsesOk, LogOk, Motor.Grinder.Valid;
      grinder.Stop();
      result := why;
      Proceed(Timeout, s);
    }

    // ---------------------------------------------------------------- the control loop

    /** The `switch` of `update`. */
    method Step(s: Senses)
      requires Valid() && phase !in {Idle, PurgeConfirm}
      modifies this`recording, this`timeGrindStart, this`flowConfirmed, this`grindLatency, this`pauseStart,
               this`stopTarget, this`pulseFlow, this`pulseFlowBase, this`gain, this`currentDuration, this`attempts,
               this`finalWeight, this`endQueued, history,
               this`phase, this`paused, this`phaseStart, this`event, this`result, this`usedSinceBoot, this`lastUse,
               grinder`grinding, grinder`pulseActive, grinder`pulseDone, grinder`background, grinder`line,
               grinder`pulses, grinder.symbols, logger`active, logger`count, logger`sequence, logger.buffer
      ensures Valid() && phase != Idle
      ensures pauseStart == old(pauseStart) || pauseStart == s.now
      ensures old(LoopOk()) ==> LoopOk()
      ensures old(LoopOk() && StaysBelow() && NotFaster(s)) ==> StaysBelow()
      ensures Advanced(s) && Rounded(s)
    {
      hide Valid, LoopOk, StaysBelow, NotFaster;
      if Early(phase) {
        StepEarly(s);
      } else {
        StepLate(s);
      }
    }

    /** Its first cases, up to the end of the main part of a grind. */
    method StepEarly(s: Senses)
      requires Valid() && Early(phase) && phase != PurgeConfirm
      modifies this`recording, this`timeGrindStart, this`flowConfirmed, this`grindLatency, this`pauseStart,
               this`stopTarget, this`pulseFlow, this`pulseFlowBase, this`gain, this`currentDuration, this`attempts,
               this`finalWeight, this`endQueued, history,
               this`phase, this`paused, this`phaseStart, this`event, this`result, this`usedSinceBoot, this`lastUse,
               grinder`grinding, grinder`pulseActive, grinder`pulseDone, grinder`background, grinder`line,
               grinder`pulses, grinder.symbols, logger`active, logger`count, logger`sequence, logger.buffer
      ensures Valid() && phase != Idle
      ensures pauseStart == old(pauseStart) || pauseStart == s.now
      ensures old(LoopOk()) ==> LoopOk()
      ensures old(LoopOk() && StaysBelow() && NotFaster(s)) ==> StaysBelow()
      ensures Advanced(s) && Rounded(s)
    {
      hide Valid, Correction, NotFaster, LastDecision, PulseLoop.Pulse;
      match phase {
        case Initializing =>
          StepInitializing(s);
        case Setup =>
          StepSetup(s);
        case Taring =>
          StepTaring(s);
        case TareConfirm =>
          StepTareConfirm(s);
        case Prime =>
          StepPrime(s);
        case PrimeSettling =>
          StepPrimeSettling(s);
        case TimeGrinding =>
          StepTimeGrinding(s);
        case Predictive =>
          StepPredictive(s);
        case _ =>
      }
    }

    /** Its other cases: the correction pulses and the end. */
    method StepLate(s: Senses)
      requires Valid() && !Early(phase) && phase != Idle
      modifies this`recording, this`timeGrindStart, this`flowConfirmed, this`grindLatency, this`pauseStart,
               this`stopTarget, this`pulseFlow, this`pulseFlowBase, this`gain, this`currentDuration, this`attempts,
               this`finalWeight, this`endQueued, history,
               this`phase, this`paused, this`phaseStart, this`event, this`result, this`usedSinceBoot, this`lastUse,
               grinder`grinding, grinder`pulseActive, grinder`pulseDone, grinder`background, grinder`line,
               grinder`pulses, grinder.symbols, logger`active, logger`count, logger`sequence, logger.buffer
      ensures Valid() && phase != Idle
      ensures pauseStart == old(pauseStart) || pauseStart == s.now
      ensures old(LoopOk()) ==> LoopOk()
      ensures old(LoopOk() && StaysBelow() && NotFaster(s)) ==> StaysBelow()
      ensures Advanced(s) && Rounded(s)
    {
      hide Valid, Correction, NotFaster, Advanced, LastDecision, PulseLoop.Pulse;
      match phase {
        case PulseDecision =>
          StepPulseDecision(s);
        case PulseExecute =>
          StepPulseExecute(s);
        case PulseSettling =>
          StepPulseSettling(s);
        case FinalSettling =>
          StepFinalSettling(s);
        case TimeAdditionalPulse =>
          StepExtraPulse(s);
        case Completed =>
          StepEnd(s);
        case Timeout =>
          StepEnd(s);
        case _ =>
      }
    }

    /**
      `update`.  When it returns, the motor runs only if nothing speaks against it: not the time, not
      the age of the last sample, not the weight.
    */
    method Update(s: Senses)
      requires Valid()
      modifies this`recording, this`timeGrindStart, this`flowConfirmed, this`grindLatency, this`pauseStart,
               this`stopTarget, this`pulseFlow, this`pulseFlowBase, this`gain, this`currentDuration, this`attempts,
               this`finalWeight, this`endQueued, history,
               this`phase, this`paused, this`phaseStart, this`event, this`result, this`usedSinceBoot, this`lastUse,
               grinder`grinding, grinder`pulseActive, grinder`pulseDone, grinder`background, grinder`line,
               grinder`pulses, grinder.symbols, logger`active, logger`count, logger`sequence, logger.buffer
      ensures Valid()
      ensures pauseStart == old(pauseStart) || pauseStart == s.now
      ensures old(LoopOk()) ==> LoopOk()
      ensures old(LoopOk() && StaysBelow() && NotFaster(s)) ==> StaysBelow()
      ensures old(phase == Idle || paused) ==>
        phase == old(phase) && grinder.grinding == old(grinder.grinding) && result == old(result)
      ensures old(phase != Idle && !paused && Stopped(NextPhase(s), s)) ==>
        phase == Timeout && !grinder.grinding &&
        result == if old(NegativeWeight(NextPhase(s), s) || StaleSample(NextPhase(s), s)) then Error else TimedOut
      ensures old(phase != Idle && !paused && !Stopped(NextPhase(s), s)) ==> Advanced(s) && Rounded(s)
      ensures grinder.grinding ==>
        && MayRun(phase)
        && s.now - startTime - pausedFor < 60000
        && (s.fault || s.sampleAge <= 1000)
        && (phase != TimeAdditionalPulse && s.motorSettled ==> s.weight >= -1.0)
    {
      hide PulsesOk, LogOk, ModeOk, Motor.Grinder.Valid, LoopOk, StaysBelow, NotFaster, Advanced, Rounded, NextPhase;
      PausedInPurge();
      if phase == Idle || paused {
        return;
      }
      StepAndCheck(s);
    }

    /** The `switch` and then the failsafes. */
    method StepAndCheck(s: Senses)
      requires Valid() && phase !in {Idle, PurgeConfirm}
      modifies this`recording, this`timeGrindStart, this`flowConfirmed, this`grindLatency, this`pauseStart,
               this`stopTarget, this`pulseFlow, this`pulseFlowBase, this`gain, this`currentDuration, this`attempts,
               this`finalWeight, this`endQueued, history,
               this`phase, this`paused, this`phaseStart, this`event, this`result, this`usedSinceBoot, this`lastUse,
               grinder`grinding, grinder`pulseActive, grinder`pulseDone, grinder`background, grinder`line,
               grinder`pulses, grinder.symbols, logger`active, logger`count, logger`sequence, logger.buffer
      ensures Valid()
      ensures pauseStart == old(pauseStart) || pauseStart == s.now
      ensures old(LoopOk()) ==> LoopOk()
      ensures old(LoopOk() && StaysBelow() && NotFaster(s)) ==> StaysBelow()
      ensures old(Stopped(NextPhase(s), s)) ==>
        phase == Timeout && !grinder.grinding &&
        result == if old(NegativeWeight(NextPhase(s), s) || StaleSample(NextPhase(s), s)) then Error else TimedOut
      ensures !old(Stopped(NextPhase(s), s)) ==> Advanced(s) && Rounded(s)
      ensures grinder.grinding ==> !Stopped(phase, s)
    {
      hide Valid, Correction, NotFaster, NextPhase, NegativeWeight, StaleSample, OutOfTime, Rounded, AdvancedFlow;
      hide MotorNext, ResultNext, UseNoted;
      Step(s);
      Failsafes(s);
    }

    // ---------------------------------------------------------------- the buttons

    method Configure(target: real, time: nat, how: Mode, ask: bool, amount: real)
      modifies this`targetWeight, this`targetTime, this`mode, this`purging, this`purgeAmount
      ensures targetWeight == target && targetTime == time && mode == how && purging == ask
      ensures 0.1 <= purgeAmount <= 2.5 && (0.1 <= amount <= 2.5 ==> purgeAmount == amount)
    {
      targetWeight := target;
      targetTime := time;
      mode := how;
      purging := ask;
      purgeAmount := if amount < 0.1 then 0.1 else if amount > 2.5 then 2.5 else amount;
    }

    method ResetTimes(now: int)
      modifies this`startTime, this`pauseStart, this`pausedFor, this`timeGrindStart, this`result, this`uiReady,
               this`endQueued
      ensures startTime == now && pauseStart == pausedFor == timeGrindStart == 0
      ensures result == Unknown && !uiReady && !endQueued
    {
      startTime := now;
      pauseStart := 0;
      pausedFor := 0;
      timeGrindStart := 0;
      result := Unknown;
      uiReady := false;
      endQueued := false;
    }

    method ResetPulses()
      requires PulsesOk() && grinder.Valid()
      modifies this`attempts, this`extraPulses, this`pulsesBefore, this`grindLatency, this`finalWeight, this`stopTarget,
               this`flowConfirmed, this`pulseFlow, this`pulseFlowBase
      ensures PulsesOk() && attempts == extraPulses == 0 && pulsesBefore == grinder.pulses
      ensures grindLatency == finalWeight == pulseFlow == pulseFlowBase == 0.0
      ensures stopTarget == UNDERSHOOT_G && !flowConfirmed
    {
      attempts := 0;
      extraPulses := 0;
      pulsesBefore := grinder.pulses;
      grindLatency := 0.0;
      finalWeight := 0.0;
      stopTarget := UNDERSHOOT_G;
      flowConfirmed := false;
      pulseFlow := 0.0;
      pulseFlowBase := 0.0;
    }

    /** A transition into a phase whose events do not belong to the log of the grind. */
    method EnterUnrecorded(next: Phase, r: Reading, now: int)
      requires logger.Valid() && !recording && PulsesOk() && MotorFits(next) && ModeFits(next)
      requires phase !in {next, PurgeConfirm} && !paused && next in {Initializing, TimeAdditionalPulse}
      requires extraPulses > 0 ==> next == TimeAdditionalPulse
      modifies this`phase, this`paused, this`phaseStart, this`event, this`result, this`usedSinceBoot, this`lastUse,
               logger`count, logger`sequence, logger.buffer
      ensures Valid() && phase == next && phaseStart == r.now && result == old(result)
    {
      hide PulsesOk, MotorFits, Numbered, InSequence;
      SwitchPhase(next, Some(r), now);
    }

    /** Nothing of an earlier grind is left. */
    predicate Cleared(now: int)
      reads this`startTime, this`pausedFor, this`pauseStart, this`timeGrindStart, this`attempts, this`extraPulses,
            this`uiReady, this`endQueued, this`grindLatency, this`finalWeight, this`pulseFlow, this`pulseFlowBase,
            this`flowConfirmed, this`stopTarget
    {
      && startTime == now && pausedFor == pauseStart == timeGrindStart == 0
      && attempts == extraPulses == 0 && !uiReady && !endQueued
      && grindLatency == finalWeight == pulseFlow == pulseFlowBase == 0.0
      && !flowConfirmed && stopTarget == UNDERSHOOT_G
    }

    method ResetAll(s: Senses)
      requires PulsesOk() && grinder.Valid()
      modifies this`startTime, this`pauseStart, this`pausedFor, this`timeGrindStart, this`result, this`uiReady,
               this`endQueued, this`attempts, this`extraPulses, this`pulsesBefore, this`grindLatency, this`finalWeight,
               this`stopTarget, this`flowConfirmed, this`pulseFlow, this`pulseFlowBase, this`recording
      ensures PulsesOk() && pulsesBefore == grinder.pulses && !recording && Cleared(s.now) && result == Unknown
      ensures extraPulses == 0
    {
      hide PulsesOk, Motor.Grinder.Valid;
      ResetTimes(s.now);
      ResetPulses();
      recording := false;
    }

    /** `start_grind`, when no grind is in progress; `saturated` is the signal of the load cell. */
    method StartGrind(s: Senses, target: real, time: nat, how: Mode, ask: bool, amount: real, saturated: bool)
      requires Valid() && phase == Idle
      modifies this, logger`count, logger`sequence, logger.buffer
      ensures Valid() && !grinder.grinding
      ensures motorLatency == old(motorLatency) && gain == old(gain)
      ensures s.fault || (how == Weight && saturated) ==>
        && phase == Idle && startTime == old(startTime) && pausedFor == old(pausedFor) && pauseStart == old(pauseStart)
        && attempts == old(attempts) && targetWeight == old(targetWeight)
      ensures !(s.fault || (how == Weight && saturated)) ==>
        && phase == Initializing && mode == how && targetWeight == target && targetTime == time
        && Cleared(s.now) && result == Unknown && phaseStart == s.now && pulsesBefore == grinder.pulses
        && purging == ask && (0.1 <= amount <= 2.5 ==> purgeAmount == amount)
    {
      hide Valid;
      AtIdle();
      if s.fault || (how == Weight && saturated) {
        return;
      }
      BeginGrind(s, target, time, how, ask, amount);
    }

    lemma AtIdle()
      requires Valid() && phase == Idle
      ensures !grinder.grinding && !paused && logger.Valid() && grinder.Valid() && PulsesOk() && MotorFits(Initializing)
    {
      hide Motor.Grinder.Valid, PulsesFor, GrindLogger.Valid;
    }

    predicate JustBegun(s: Senses, target: real, time: nat, how: Mode, ask: bool, amount: real)
      reads this
    {
      && phase == Initializing && mode == how && targetWeight == target && targetTime == time
      && Cleared(s.now) && result == Unknown && phaseStart == s.now
      && purging == ask && (0.1 <= amount <= 2.5 ==> purgeAmount == amount)
    }

    method BeginGrind(s: Senses, target: real, time: nat, how: Mode, ask: bool, amount: real)
      requires Valid() && phase == Idle
      modifies this, logger`count, logger`sequence, logger.buffer
      ensures Valid() && !grinder.grinding && pulsesBefore == grinder.pulses
      ensures motorLatency == old(motorLatency) && gain == old(gain)
      ensures JustBegun(s, target, time, how, ask, amount)
    {
      hide Valid, MotorFits, PulsesOk, PulsesFor, Motor.Grinder.Valid, GrindLogger.Valid, UseNoted, Cleared;
      AtIdle();
      Configure(target, time, how, ask, amount);
      ResetAll(s);
      EnterUnrecorded(Initializing, At(s.now, s.weight), s.now);
    }

    /** `stop_grind`: from any phase. */
    method StopGrind(now: int)
      requires Valid()
      modifies this`timeGrindStart, this`targetTime, this`purging, this`purgeAmount, this`phase, this`paused,
               this`phaseStart, this`event, this`result, this`usedSinceBoot, this`lastUse, grinder`grinding,
               grinder`pulseActive, grinder`background, grinder`line, logger`active, logger`count, logger`sequence,
               logger.buffer
      ensures Valid() && phase == Idle && !grinder.grinding && grinder.line == Motor.Idle && !logger.active
    {
      hide Valid, MotorOk, ModeOk, PulsesOk, LogOk, Motor.Grinder.Valid, Concluded, UseNoted, Begun, Ended,
           GrindLogger.Valid, GrindLogger.Events;
      AnyPhase();
      grinder.Stop();
      logger.EndSession();
      ForgetTarget();
      SwitchPhase(Idle, None, now);
      IdleAgain();
    }

    method ForgetTarget()
      modifies this`timeGrindStart, this`targetTime, this`purging, this`purgeAmount
      ensures timeGrindStart == 0 && targetTime == 0 && purging && purgeAmount == 1.0
    {
      timeGrindStart := 0;
      targetTime := 0;
      purging := true;
      purgeAmount := 1.0;
    }

    lemma AnyPhase()
      requires Valid()
      ensures grinder.Valid() && PulsesOk() && logger.Valid() && (phase == Idle ==> !paused)
    {
    }

    /** Nothing is left of a grind that was stopped. */
    lemma IdleAgain()
      requires phase == Idle && !paused && grinder.Valid() && !grinder.grinding && !grinder.pulseActive
      requires PulsesOk() && logger.Valid() && !logger.active
      ensures Valid()
    {
    }

    /** `return_to_idle` */
    method ReturnToIdle(now: int)
      requires Valid()
      modifies this`timeGrindStart, this`targetTime, this`purging, this`purgeAmount, this`phase, this`paused,
               this`phaseStart, this`event, this`result, this`usedSinceBoot, this`lastUse, logger`count,
               logger`sequence, logger.buffer
      ensures Valid() && phase == if Terminal(old(phase)) then Idle else old(phase)
    {
      hide PulsesOk, Motor.Grinder.Valid, Numbered, InSequence;
      if Terminal(phase) {
        ForgetTarget();
        SwitchPhase(Idle, None, now);
      }
    }

    /** `continue_from_purge`: the time the user took does not count. */
    method ContinueFromPurge(s: Senses)
      requires Valid()
      modifies this`pauseStart, this`pausedFor, this`timeGrindStart, this`phase, this`paused, this`phaseStart,
               this`event, this`result, this`usedSinceBoot, this`lastUse, grinder`grinding, grinder`pulseActive,
               grinder`background, grinder`line, logger`count, logger`sequence, logger.buffer
      ensures Valid() && phase == if old(phase) == PurgeConfirm then Predictive else old(phase)
      ensures old(phase) == PurgeConfirm ==> (grinder.grinding <==> grinder.ready && s.driverOk)
      ensures old(phase) == PurgeConfirm && old(pauseStart) > 0 ==>
        pausedFor == old(pausedFor) + s.now - old(pauseStart) && pauseStart == 0
      ensures !(old(phase) == PurgeConfirm && old(pauseStart) > 0) ==>
        pausedFor == old(pausedFor) && pauseStart == old(pauseStart)
      ensures result == old(result) && (old(phase) == PurgeConfirm ==> phaseStart == timeGrindStart == s.now)
    {
      hide PulsesOk, LogOk, Motor.Grinder.Valid;
      if phase != PurgeConfirm {
        return;
      }
      if pauseStart > 0 {
        pausedFor := pausedFor + (s.now - pauseStart);
        pauseStart := 0;
      }
      StartGrinding(s);
    }

    /** `start_additional_pulse`: from the completion screen only. */
    method StartAdditionalPulse(s: Senses)
      requires Valid()
      modifies this`extraPulses, this`startTime, this`pauseStart, this`pausedFor, this`recording,
               this`phase, this`paused, this`phaseStart, this`event, this`result, this`usedSinceBoot, this`lastUse,
               grinder`grinding, grinder`pulseActive, grinder`pulseDone, grinder`background, grinder`line,
               grinder`pulses, grinder.symbols, logger`count, logger`sequence, logger.buffer
      ensures Valid()
      ensures if old(phase) == Completed && grinder.ready && s.driverOk
        then phase == TimeAdditionalPulse && extraPulses == old(extraPulses) + 1 &&
          grinder.line == Motor.Pulse(100 * 1000)
        else phase == old(phase) && extraPulses == old(extraPulses)
      ensures phase == old(phase) ==>
        startTime == old(startTime) && pausedFor == old(pausedFor) && pauseStart == old(pauseStart)
      ensures phase != old(phase) ==> startTime == s.now && pausedFor == 0 && pauseStart == 0
    {
      hide LogWithin, PulsesOk, Motor.Grinder.Valid, GrindLogger.Valid, InSequence;
      if phase != Completed {
        return;
      }
      assert logger.Valid() by {
        LogIsValid();
      }
      var ok := RunExtraPulse(s);
      if !ok {
        return;
      }
      RestartTimeout(s.now);
      recording := false;
      EnterUnrecorded(TimeAdditionalPulse, Reading(s.now, 0, 0.0), s.now);
    }

    /** The pause of the finished grind does not belong to the new window. */
    method RestartTimeout(now: int)
      modifies this`startTime, this`pauseStart, this`pausedFor
      ensures startTime == now && pauseStart == pausedFor == 0
    {
      startTime := now;
      pauseStart := 0;
      pausedFor := 0;
    }

    method RunExtraPulse(s: Senses) returns (ok: bool)
      requires PulsesOk() && grinder.Valid() && !grinder.grinding && !grinder.pulseActive
      modifies this`extraPulses, grinder`grinding, grinder`pulseActive, grinder`pulseDone, grinder`background,
               grinder`line, grinder`pulses, grinder.symbols
      ensures PulsesOk() && grinder.Valid()
      ensures ok <==> grinder.ready && s.driverOk
      ensures ok ==> grinder.pulseActive && grinder.line == Motor.Pulse(EXTRA_PULSE_MS * 1000)
      ensures !ok ==> !grinder.grinding && !grinder.pulseActive
      ensures extraPulses == if ok then old(extraPulses) + 1 else old(extraPulses)
    {
      ok := grinder.StartPulse(EXTRA_PULSE_MS, s.driverOk);
      if ok {
        extraPulses := extraPulses + 1;
      }
    }

    /** `ui_acknowledge_phase_transition` */
    method Acknowledge()
      requires Valid()
      modifies this`uiReady
      ensures Valid() && uiReady == (old(uiReady) || phase == Initializing)
    {
      hide PulsesOk, LogOk, Motor.Grinder.Valid;
      if phase == Initializing {
        uiReady := true;
      }
    }

    /** The other core saves the session, at any time. */
    method SaveSession()
      requires Valid()
      modifies logger`count, logger`sequence, logger`active
      ensures Valid() && !logger.active
    {
      hide PulsesOk, Motor.Grinder.Valid, Numbered;
      logger.EndSession();
    }

    /** The correction pulses of this grind, in milliseconds. */
    ghost function Corrections(): seq<nat>
      reads this`pulsesBefore, this`attempts, grinder`pulses
      requires |pulsesBefore| + attempts <= |grinder.pulses|
    {
      grinder.pulses[|pulsesBefore|..|pulsesBefore| + attempts]
    }

    /** What the invariant means for the motor, the corrections and the log. */
    lemma Safety()
      requires Valid()
      ensures grinder.line != Motor.Idle ==> MayRun(phase)
      ensures phase !in {Prime, Predictive, TimeGrinding, PulseExecute, TimeAdditionalPulse} ==> !grinder.grinding
      ensures |pulsesBefore| + attempts <= |grinder.pulses| && |Corrections()| == attempts <= MAX_ATTEMPTS
      ensures forall i :: 0 <= i < |Corrections()| ==> 30 <= Corrections()[i] <= 550
      ensures logger.Valid()
      ensures recording && logger.active ==> |logger.Events()| <= 40 < 50
      ensures recording && logger.active && phase != Idle ==>
        Gapless(logger.Events()) && Continues(logger.Events(), event)
    {
      hide Numbered, Gapless, Continues;
      forall i | 0 <= i < |Corrections()|
        ensures 30 <= Corrections()[i] <= 550
      {
        assert Corrections()[i] == grinder.pulses[|pulsesBefore|..][i];
        assert history[..attempts][i].duration.Floor == Corrections()[i];
      }
    }
  }

  // ---------------------------------------------------------------- whole runs

  datatype Call =
    | Loop(s: Senses)
    | StartButton(s: Senses, target: real, time: nat, mode: Mode, ask: bool, amount: real, saturated: bool)
    | StopButton(s: Senses)
    | ContinueButton(s: Senses)
    | PulseButton(s: Senses)
    | Done(s: Senses)
    | UiReady(s: Senses)
    | Saved(s: Senses)

  /** Time does not go backwards, and the clock is already running. */
  predicate InOrder(calls: seq<Call>, clock: int) {
    && clock > 0
    && (forall i :: 0 <= i < |calls| ==> clock <= calls[i].s.now)
    && (forall i, j :: 0 <= i < j < |calls| ==> calls[i].s.now <= calls[j].s.now)
  }

  /** The time spent waiting for the user lies within the run, so the time left never underflows. */
  predicate PauseOk(start: int, pausedFor: int, pauseStart: int, clock: int) {
    && pausedFor >= 0
    && start + pausedFor <= clock
    && (pauseStart > 0 ==> start + pausedFor <= pauseStart <= clock)
  }

  /**
    Any sequence of calls, with a start only when no grind is in progress.  Every prefix of a run is
    a run, so what is promised at the end holds after each call.
  */
  method Run(c: GrindController, calls: seq<Call>, clock: int)
    requires c.Valid() && c.phase == Idle && c.startTime == c.pausedFor == c.pauseStart == 0
    requires InOrder(calls, clock)
    modifies c, c.history, c.grinder, c.grinder.symbols, c.logger, c.logger.buffer
    ensures c.Valid()
    // the motor
    ensures c.grinder.line != Motor.Idle ==> MayRun(c.phase)
    ensures c.phase !in {Prime, Predictive, TimeGrinding, PulseExecute, TimeAdditionalPulse} ==> !c.grinder.grinding
    // the corrections
    ensures |c.Corrections()| == c.attempts <= 10
    ensures forall i :: 0 <= i < |c.Corrections()| ==> 30 <= c.Corrections()[i] <= 550
    // the log
    ensures c.recording && c.logger.active ==> |c.logger.Events()| <= 40
    ensures c.recording && c.logger.active && c.phase != Idle ==>
      Gapless(c.logger.Events()) && Continues(c.logger.Events(), c.event)
    // the timeout
    ensures PauseOk(c.startTime, c.pausedFor, c.pauseStart, if calls == [] then clock else calls[|calls| - 1].s.now)
  {
    hide GrindController.Valid;
    var i := 0;
    ghost var time := clock;
    while i < |calls|
      invariant 0 <= i <= |calls|
      invariant c.Valid()
      invariant time == if i == 0 then clock else calls[i - 1].s.now
      invariant PauseOk(c.startTime, c.pausedFor, c.pauseStart, time)
    {
      Answer(c, calls[i], time);
      time := calls[i].s.now;
      i := i + 1;
    }
    c.Safety();
  }

  /** What the scale shows once a pulse has settled, on a plant that would have the flow `flow`. */
  function OnPlant(c: GrindController, call: Call, flow: real): Call
    requires c.attempts <= c.history.Length
    reads c, c.history
  {
    if call.Loop? && c.phase == PulseDecision && c.attempts > 0 && call.s.settled.Some? then
      var assumed := PulseLoop.ClampedFlow(c.pulseFlow);
      Loop(call.s.(settled := Some(c.Afterwards(if flow < assumed then flow else assumed))))
    else
      call
  }

  /**
    The same for a grinder with a plant: whenever the loop looks at the weight after a pulse, it finds
    what the plant has delivered, at some flow that is not above the one assumed for the pulse.  Then
    no pulse of any grind passes the conservative target, and none takes anything away.
  */
  method RunOnPlant(c: GrindController, calls: seq<Call>, flows: seq<real>, clock: int)
    requires c.Valid() && c.phase == Idle && c.startTime == c.pausedFor == c.pauseStart == 0 && c.attempts == 0
    requires InOrder(calls, clock) && |flows| == |calls| && forall i :: 0 <= i < |flows| ==> flows[i] >= 0.0
    modifies c, c.history, c.grinder, c.grinder.symbols, c.logger, c.logger.buffer
    ensures c.Valid() && c.StaysBelow()
  {
    var i := 0;
    ghost var time := clock;
    assert PauseOk(c.startTime, c.pausedFor, c.pauseStart, time);
    Attempts(c);
    hide GrindController.Valid, PauseOk, GrindController.Correction;
    while i < |calls|
      invariant 0 <= i <= |calls|
      invariant c.Valid() && c.LoopOk() && c.StaysBelow()
      invariant time == if i == 0 then clock else calls[i - 1].s.now
      invariant PauseOk(c.startTime, c.pausedFor, c.pauseStart, time)
    {
      var call := OnPlant(c, calls[i], flows[i]);
      Answer(c, call, time);
      time := calls[i].s.now;
      i := i + 1;
    }
  }

  lemma Attempts(c: GrindController)
    requires c.Valid()
    ensures c.attempts <= c.history.Length
  {
  }

  method Answer(c: GrindController, call: Call, ghost time: int)
    requires c.Valid() && PauseOk(c.startTime, c.pausedFor, c.pauseStart, time) && 0 < time <= call.s.now
    modifies c, c.history, c.grinder, c.grinder.symbols, c.logger, c.logger.buffer
    ensures c.Valid() && PauseOk(c.startTime, c.pausedFor, c.pauseStart, call.s.now)
    ensures old(c.LoopOk()) ==> c.LoopOk()
    ensures old(c.LoopOk() && c.StaysBelow() && (call.Loop? ==> c.NotFaster(call.s))) ==> c.StaysBelow()
  {
    hide GrindController.Valid;
    match call {
      case Loop(s) =>
        c.Update(s);
      case StartButton(s, target, limit, mode, ask, amount, saturated) =>
        if c.phase == Idle {
          c.StartGrind(s, target, limit, mode, ask, amount, saturated);
        }
      case StopButton(s) =>
        c.StopGrind(s.now);
      case ContinueButton(s) =>
        c.ContinueFromPurge(s);
      case PulseButton(s) =>
        c.StartAdditionalPulse(s);
      case Done(s) =>
        c.ReturnToIdle(s.now);
      case UiReady(s) =>
        c.Acknowledge();
      case Saved(s) =>
        c.SaveSession();
    }
  }
}
