/**
  A grind that nothing holds up comes to its end: by weight with the weight that the closed loop
  promises, by time when its time is over.
*/
module GrindToEnd {
  import opened GrindLog
  import opened GrindRun
  import opened Wrappers
  import PulseLoop

  /** What is fixed for a grind by weight, the plant included. */
  datatype Plant = Plant(
    target: real, latency: real,
    flow: real,      // of the plant
    first: real,     // the weight when the main part of the grind has settled
    seen: real,      // the flow the scale has shown by then
    estimate: real)  // what the controller makes of it

  /** Nothing is in the way of a call. */
  predicate Calm(s: Senses) {
    && s.driverOk && s.pulseFinished && s.motorSettled && s.settled.Some? && s.settledShortly
    && s.tareStarted && !s.tareBusy && s.scaleQuiet && !s.fault && s.sampleAge <= 1000
  }

  /** The calls come every 10 to 100 milliseconds. */
  predicate Paced(inputs: seq<Senses>, start: int) {
    forall i :: 0 <= i < |inputs| ==> 10 <= inputs[i].now - Before(inputs, start, i) <= 100
  }

  function Before(inputs: seq<Senses>, start: int, i: nat): int
    requires i <= |inputs|
  {
    if i == 0 then start else inputs[i - 1].now
  }

  /**
    What the scale shows with `weight` in the cup; while the motor runs for the purge or for the main
    part of the grind it shows that enough has been delivered.
  */
  function OnScale(c: GrindController, s: Senses, weight: real): (t: Senses)
    reads c
    ensures t.now == s.now && t.flow95 == s.flow95 && t.settled == Some(weight) && t.precise == weight
  {
    var shown :=
      if c.phase == Prime then AtLeast(weight, c.purgeAmount)
      else if c.phase == Predictive then AtLeast(0.0, c.targetWeight - c.StopTargetAfter(s))
      else weight;
    s.(settled := Some(weight), precise := weight, weight := shown)
  }

  function AtLeast(a: real, b: real): (r: real)
    ensures r >= a && r >= b
  {
    if a < b then b else a
  }

  // ---------------------------------------------------------------- by weight

  /** The phases of a grind by weight. */
  predicate OnWay(p: Phase) {
    p in {Initializing, Setup, Taring, TareConfirm, Prime, PrimeSettling, PurgeConfirm, Predictive,
          PulseSettling, PulseDecision, PulseExecute, FinalSettling, Completed}
  }

  /** Where the closed loop ends, from the state `s` before at most `n` pulses. */
  function End(p: Plant, n: nat, s: PulseLoop.Loop): PulseLoop.Loop {
    PulseLoop.Run(p.target, p.latency, PulseLoop.Constant(p.flow, n), true, s)
  }

  function First(p: Plant): PulseLoop.Loop {
    PulseLoop.Loop(p.first, p.estimate, 0)
  }

  /** The pulses so far are those of the loop; `d` is what the last decision was made on. */
  predicate InRound(p: Plant, weight: real, attempts: nat, d: PulseLoop.Loop) {
    if attempts == 0 then weight == p.first && d.flow == p.estimate
    else
      && attempts <= PulseLoop.MAX_ATTEMPTS && d.attempts == attempts - 1 && d.settled == weight
      && !PulseLoop.Stops(p.target, d)
      && End(p, PulseLoop.MAX_ATTEMPTS, First(p)) == End(p, PulseLoop.MAX_ATTEMPTS + 1 - attempts, d)
  }

  /** What the last decision was made on, if there was one. */
  ghost function Standing(c: GrindController): PulseLoop.Loop
    requires c.attempts <= c.history.Length
    reads c`attempts, c`pulseFlow, c.history
  {
    if c.attempts == 0 then PulseLoop.Loop(0.0, c.pulseFlow, 0) else c.LastDecision()
  }

  /** The fields of the controller that decide how a calm grind goes on. */
  datatype Look = Look(
    phase: Phase, attempts: nat, round: PulseLoop.Loop, gain: real, latency: real, phaseStart: int, pauseStart: int,
    uiReady: bool, finalWeight: real, result: Result, grinding: bool)

  ghost function LookAt(c: GrindController): Look
    requires c.attempts <= c.history.Length
    reads c, c.history, c.grinder
  {
    Look(c.phase, c.attempts, Standing(c), c.gain, c.grindLatency, c.phaseStart, c.pauseStart, c.uiReady,
         c.finalWeight, c.result, c.grinder.grinding)
  }

  /** What does not change during the grind, or goes without saying. */
  ghost predicate Steady(c: GrindController, p: Plant)
    reads c, c.history, c.grinder
  {
    && c.LoopOk() && c.mode == Weight && c.grinder.ready && c.targetWeight == p.target && c.motorLatency == p.latency
    && c.pausedFor >= 0 && (c.paused <==> c.phase == PurgeConfirm)
  }

  /** The clocks of the controller at time `now`. */
  predicate ClocksOk(v: Look, now: int) {
    && v.pauseStart <= now && v.phaseStart <= now
    && (v.phase == PurgeConfirm || v.phase == Predictive ==> v.latency == 0.0)
    && (v.phase == Predictive ==> v.phaseStart == now)
    && (InLoop(v.phase) ==> 0.0 <= v.latency <= 100.0)
    && (v.phase == PulseSettling ==> now - v.phaseStart < 300)
  }

  /** The loop has ended with this. */
  predicate AtEnd(p: Plant, weight: real, attempts: nat) {
    var e := End(p, PulseLoop.MAX_ATTEMPTS, First(p));
    weight == e.settled && attempts == e.attempts
  }

  predicate Going(p: Plant, v: Look, weight: real, now: int) {
    && OnWay(v.phase) && ClocksOk(v, now) && weight >= p.first && v.attempts <= PulseLoop.MAX_ATTEMPTS
    && (v.phase == Initializing ==> v.uiReady)
    && (Early(v.phase) ==> weight == p.first && v.attempts == 0 && p.seen * v.gain == p.estimate)
    && (InLoop(v.phase) ==> InRound(p, weight, v.attempts, v.round))
    && (v.phase == PulseExecute ==> v.attempts > 0)
    && (v.phase == FinalSettling || v.phase == Completed ==> AtEnd(p, weight, v.attempts))
    && (if v.phase == Completed
        then v.finalWeight == weight && v.result == ResultOf(Weight, weight, p.target, v.attempts) && !v.grinding
        else v.result == Unknown)
  }

  /** At time `now` the grind is under way, with `weight` in the cup. */
  ghost predicate Underway(c: GrindController, p: Plant, weight: real, now: int)
    reads c, c.history, c.grinder
  {
    Steady(c, p) && Going(p, LookAt(c), weight, now)
  }

  /** How many calls are left at most. */
  function Left(v: Look, now: int): int {
    var rounds := 33 * (PulseLoop.MAX_ATTEMPTS - v.attempts);
    match v.phase
    case Initializing => 371
    case Setup => 370
    case Taring => 369
    case TareConfirm => 368
    case Prime => 367
    case PrimeSettling => 366
    case PurgeConfirm => 365
    case Predictive => 364
    case PulseSettling => rounds + 3 + (309 - (now - v.phaseStart)) / 10
    case PulseDecision => rounds + 2
    case PulseExecute => rounds + 34
    case FinalSettling => 1
    case _ => 0
  }

  /** What a call may rely on. */
  predicate CallOk(p: Plant, s: Senses, before: int, start: int) {
    && Calm(s) && s.flow95 == p.seen && 10 <= s.now - before <= 100 && s.now - start < GRIND_TIMEOUT_MS
    && PulseLoop.FLOW_MIN <= p.flow <= PulseLoop.PULSE_FLOW_MAX
    && p.first >= 0.0 && (p.target < 1.0 || p.first >= NO_WEIGHT_G)
  }

  // What a call does to these fields.

  predicate Moved(v: Look, w: Look, s: Senses, weight: real) {
    && w.uiReady == v.uiReady && (w.pauseStart == v.pauseStart || w.pauseStart == s.now)
    && w.phaseStart == (if w.phase == v.phase then v.phaseStart else s.now)
    && w.attempts == v.attempts + (if v.phase == PulseDecision && w.phase == PulseExecute then 1 else 0)
    && (v.phase != PulseDecision ==> w.gain == v.gain)
    && (v.phase != PulseDecision && v.phase != Predictive ==> w.round == v.round)
    && (v.phase == Predictive && w.phase == PulseSettling && v.attempts == 0 ==> w.round.flow == s.flow95 * w.gain)
    && (v.phase != PulseDecision && v.phase != Predictive && v.phase != PrimeSettling ==> w.latency == v.latency)
    && (v.phase == PrimeSettling && w.phase != PrimeSettling ==> w.latency == 0.0)
    && (v.phase == Predictive ==> w.latency == v.latency || w.latency == (s.now - v.phaseStart) as real)
    && (v.phase == PulseDecision ==> w.latency == v.latency)
    && (w.phase == Completed && v.phase != Completed ==> w.finalWeight == weight)
  }

  /** A call that no failsafe stops. */
  method CalmUpdate(c: GrindController, s: Senses, weight: real)
    requires c.Valid() && c.LoopOk() && c.phase != Idle && !c.paused && c.pausedFor >= 0
    requires Calm(s) && weight >= 0.0 && s.now - c.startTime < GRIND_TIMEOUT_MS
    modifies c`recording, c`timeGrindStart, c`flowConfirmed, c`grindLatency, c`pauseStart, c`stopTarget, c`pulseFlow,
             c`pulseFlowBase, c`gain, c`currentDuration, c`attempts, c`finalWeight, c`endQueued, c.history, c`phase,
             c`paused, c`phaseStart, c`event, c`result, c`usedSinceBoot, c`lastUse, c.grinder`grinding,
             c.grinder`pulseActive, c.grinder`pulseDone, c.grinder`background, c.grinder`line, c.grinder`pulses,
             c.grinder.symbols, c.logger`active, c.logger`count, c.logger`sequence, c.logger.buffer
    ensures c.Valid() && c.LoopOk() && (c.paused <==> c.phase == PurgeConfirm)
    ensures c.pauseStart == old(c.pauseStart) || c.pauseStart == s.now
    ensures c.Advanced(old(OnScale(c, s, weight))) && c.Rounded(old(OnScale(c, s, weight)))
  {
    ghost var seen := OnScale(c, s, weight);
    NotStopped(c, s, weight, c.NextPhase(seen));
    hide GrindController.Valid, GrindController.Advanced, GrindController.Rounded, GrindController.LoopOk, Calm;
    hide GrindController.NextPhase, GrindController.Stopped, GrindController.StopTargetAfter;
    hide GrindController.StaysBelow, GrindController.NotFaster;
    c.Update(OnScale(c, s, weight));
    c.PausedInPurge();
  }

  method SteadyUpdate(c: GrindController, p: Plant, s: Senses, weight: real)
    requires c.Valid() && Steady(c, p) && c.phase != Idle && c.phase != PurgeConfirm
    requires Calm(s) && weight >= 0.0 && s.now - c.startTime < GRIND_TIMEOUT_MS
    modifies c, c.history, c.grinder, c.grinder.symbols, c.logger, c.logger.buffer
    ensures c.Valid() && Steady(c, p) && c.startTime == old(c.startTime)
    ensures c.uiReady == old(c.uiReady) && (c.pauseStart == old(c.pauseStart) || c.pauseStart == s.now)
    ensures c.Advanced(old(OnScale(c, s, weight))) && c.Rounded(old(OnScale(c, s, weight)))
  {
    hide GrindController.Valid, GrindController.LoopOk, GrindController.Advanced, GrindController.Rounded, OnScale, Calm;
    CalmUpdate(c, s, weight);
  }

  method Tick(c: GrindController, p: Plant, s: Senses, weight: real)
    requires c.Valid() && Steady(c, p) && c.phase != Idle && c.phase != PurgeConfirm
    requires Calm(s) && weight >= 0.0 && s.now - c.startTime < GRIND_TIMEOUT_MS
    modifies c, c.history, c.grinder, c.grinder.symbols, c.logger, c.logger.buffer
    ensures c.Valid() && Steady(c, p) && c.startTime == old(c.startTime)
    ensures c.phase == old(c.NextPhase(OnScale(c, s, weight)))
    ensures Moved(old(LookAt(c)), LookAt(c), s, weight)
    ensures c.result == old(c.ResultNext(OnScale(c, s, weight)))
    ensures c.grinder.grinding == old(c.MotorNext(OnScale(c, s, weight)))
    ensures old(c.phase) == PulseDecision && c.phase == PulseExecute ==> Standing(c).settled == weight
    ensures c.Rounded(old(OnScale(c, s, weight)))
  {
    hide GrindController.Valid, GrindController.Correction, PulseLoop.Pulse, Calm, GrindController.StopTargetAfter;
    hide GrindController.NextPhase, GrindController.MotorNext, GrindController.ResultNext, GrindController.UseNoted;
    hide GrindController.Rounded, OnScale;
    SteadyUpdate(c, p, s, weight);
  }

  /** No failsafe stops a grind that nothing is in the way of. */
  lemma NotStopped(c: GrindController, s: Senses, weight: real, n: Phase)
    requires Calm(s) && weight >= 0.0 && c.pausedFor >= 0 && s.now - c.startTime < GRIND_TIMEOUT_MS
    ensures !c.Stopped(n, OnScale(c, s, weight))
  {
  }

  /** Where a calm call leads to. */
  lemma CalmNext(c: GrindController, s: Senses, weight: real)
    requires Calm(s) && OnWay(c.phase) && c.mode == Weight && c.grinder.ready && (c.phase == Initializing ==> c.uiReady)
    requires c.targetWeight < 1.0 || weight >= NO_WEIGHT_G
    ensures var n := c.NextPhase(OnScale(c, s, weight));
      match c.phase
      case Initializing => n == Setup
      case Setup => n == Taring
      case Taring => n == TareConfirm
      case TareConfirm => n == Prime
      case Prime => n == PrimeSettling
      case PrimeSettling => n == PurgeConfirm || n == Predictive
      case Predictive => n == PulseSettling
      case PulseSettling =>
        n == PulseDecision || (n == PulseSettling && (s.now - c.phaseStart) as real < c.grindLatency + 200.0)
      case PulseDecision =>
        n == (if PulseLoop.Stops(c.targetWeight, PulseLoop.Loop(weight, c.pulseFlow, c.attempts)) then FinalSettling
              else PulseExecute)
      case PulseExecute => n == PulseSettling
      case FinalSettling => n == Completed
      case _ => n == c.phase
    ensures c.ResultNext(OnScale(c, s, weight)) ==
      if c.phase == FinalSettling then ResultOf(Weight, weight, c.targetWeight, c.attempts) else c.result
    ensures c.phase == FinalSettling ==> c.MotorNext(OnScale(c, s, weight)) == c.grinder.grinding
  {
  }

  // The way to the pulses, the pulses, and the end, on these fields alone.

  lemma SetupGoes(p: Plant, v: Look, w: Look, s: Senses, before: int)
    requires Going(p, v, p.first, before) && Moved(v, w, s, p.first) && CallOk(p, s, before, s.now) && w.result == v.result
    requires match v.phase
      case Initializing => w.phase == Setup
      case Setup => w.phase == Taring
      case Taring => w.phase == TareConfirm
      case TareConfirm => w.phase == Prime
      case Prime => w.phase == PrimeSettling
      case PrimeSettling => w.phase == PurgeConfirm || w.phase == Predictive
      case Predictive => w.phase == PulseSettling
      case _ => false
    ensures Going(p, w, p.first, s.now) && Left(w, s.now) < Left(v, before)
  {
  }

  lemma PulseGoes(p: Plant, v: Look, w: Look, s: Senses, weight: real, before: int)
    requires Going(p, v, weight, before) && Moved(v, w, s, weight) && CallOk(p, s, before, s.now) && w.result == v.result
    requires v.phase == PulseExecute || v.phase == PulseSettling
    requires v.phase == PulseExecute ==> w.phase == PulseSettling
    requires v.phase == PulseSettling ==>
      w.phase == PulseDecision || (w.phase == PulseSettling && (s.now - v.phaseStart) as real < v.latency + 200.0)
    ensures Going(p, w, weight, s.now) && Left(w, s.now) < Left(v, before)
  {
    hide AtEnd, InRound;
  }

  lemma DecisionGoes(p: Plant, v: Look, w: Look, d: PulseLoop.Loop, s: Senses, weight: real, now: real, before: int)
    requires Going(p, v, weight, before) && Moved(v, w, s, now) && CallOk(p, s, before, s.now) && w.result == v.result
    requires v.phase == PulseDecision && now >= weight && d.settled == now && d.attempts == v.attempts
    requires End(p, PulseLoop.MAX_ATTEMPTS, First(p)) == End(p, PulseLoop.MAX_ATTEMPTS - v.attempts, d)
    requires if PulseLoop.Stops(p.target, d) then w.phase == FinalSettling else w.phase == PulseExecute && w.round == d
    ensures Going(p, w, now, s.now) && Left(w, s.now) < Left(v, before)
  {
    if PulseLoop.Stops(p.target, d) {
      EndsAtOnce(p, PulseLoop.MAX_ATTEMPTS - v.attempts, d);
    }
    hide End;
  }

  lemma LastGoes(p: Plant, v: Look, w: Look, s: Senses, weight: real, before: int)
    requires Going(p, v, weight, before) && Moved(v, w, s, weight) && CallOk(p, s, before, s.now)
    requires v.phase == FinalSettling && w.phase == Completed && !w.grinding
    requires w.result == ResultOf(Weight, weight, p.target, v.attempts)
    ensures Going(p, w, weight, s.now) && Left(w, s.now) < Left(v, before)
  {
    hide End;
  }

  // ... and on the controller.

  /** On the way to the pulses, while they run, and at the end. */
  method CallAlong(c: GrindController, p: Plant, s: Senses, weight: real, ghost before: int)
    requires c.Valid() && Underway(c, p, weight, before) && CallOk(p, s, before, c.startTime)
    requires c.phase !in {Completed, PurgeConfirm, PulseDecision}
    modifies c, c.history, c.grinder, c.grinder.symbols, c.logger, c.logger.buffer
    ensures c.Valid() && Underway(c, p, weight, s.now) && Left(LookAt(c), s.now) < old(Left(LookAt(c), before))
    ensures c.startTime == old(c.startTime)
  {
    ghost var v := LookAt(c);
    if c.phase == FinalSettling {
      c.MotorRests();
    }
    CalmNext(c, s, weight);
    assert v.phase == FinalSettling || InLoop(v.phase) || weight == p.first;
    hide GrindController.Valid, GrindController.NextPhase, GrindController.ResultNext, GrindController.LoopOk;
    hide Going, Moved, Left, Standing, GrindController.MotorNext;
    Tick(c, p, s, weight);
    ghost var w := LookAt(c);
    if v.phase == FinalSettling {
      LastGoes(p, v, w, s, weight, before);
    } else if v.phase == PulseSettling || v.phase == PulseExecute {
      PulseGoes(p, v, w, s, weight, before);
    } else {
      SetupGoes(p, v, w, s, before);
    }
  }

  /** The user sends the grind on from the purge. */
  method CallPurge(c: GrindController, p: Plant, s: Senses, ghost before: int)
    requires c.Valid() && Underway(c, p, p.first, before) && c.phase == PurgeConfirm && CallOk(p, s, before, c.startTime)
    modifies c, c.history, c.grinder, c.grinder.symbols, c.logger, c.logger.buffer
    ensures c.Valid() && Underway(c, p, p.first, s.now) && Left(LookAt(c), s.now) < old(Left(LookAt(c), before))
    ensures c.startTime == old(c.startTime)
  {
    hide GrindController.Valid, GrindController.Correction, End;
    c.ContinueFromPurge(s);
    c.PausedInPurge();
  }

  /** The weight after the last pulse, if there was one. */
  function Weighed(c: GrindController, p: Plant, weight: real): real
    requires c.attempts <= c.history.Length
    reads c, c.history
  {
    if c.attempts == 0 then weight else c.Afterwards(p.flow)
  }

  /** What the loop has made of the last pulse. */
  lemma RoundEnds(c: GrindController, p: Plant, weight: real)
    requires Steady(c, p) && c.phase == PulseDecision && InRound(p, weight, c.attempts, Standing(c)) && p.flow >= 0.0
    ensures Weighed(c, p, weight) >= weight
    ensures c.attempts > 0 ==>
      var d := PulseLoop.Pulse(p.target, p.latency, p.flow, true, c.LastDecision());
      && d.attempts == c.attempts
      && End(p, PulseLoop.MAX_ATTEMPTS, First(p)) == End(p, PulseLoop.MAX_ATTEMPTS - c.attempts, d)
  {
    if c.attempts > 0 {
      var n := PulseLoop.MAX_ATTEMPTS + 1 - c.attempts;
      assert PulseLoop.Constant(p.flow, n)[1..] == PulseLoop.Constant(p.flow, n - 1);
      YieldIsPositive(p.flow, Whole(c.history[c.attempts - 1].duration) as real, p.latency);
    }
  }

  lemma YieldIsPositive(flow: real, ms: real, latency: real)
    requires flow >= 0.0
    ensures PulseLoop.Yield(flow, ms, latency) >= 0.0
  {
    if ms > latency {
      PulseLoop.NonNegative(flow, ms - latency);
    }
  }

  lemma EndsAtOnce(p: Plant, n: nat, s: PulseLoop.Loop)
    requires PulseLoop.Stops(p.target, s)
    ensures End(p, n, s) == s
  {
  }

  method CallDecision(c: GrindController, p: Plant, s: Senses, weight: real, ghost before: int) returns (now: real)
    requires c.Valid() && Underway(c, p, weight, before) && c.phase == PulseDecision && CallOk(p, s, before, c.startTime)
    modifies c, c.history, c.grinder, c.grinder.symbols, c.logger, c.logger.buffer
    ensures c.Valid() && Underway(c, p, now, s.now) && Left(LookAt(c), s.now) < old(Left(LookAt(c), before))
    ensures c.startTime == old(c.startTime)
  {
    ghost var v := LookAt(c);
    RoundEnds(c, p, weight);
    now := Weighed(c, p, weight);
    CalmNext(c, s, now);
    hide GrindController.Valid, GrindController.NextPhase, GrindController.ResultNext, GrindController.LoopOk;
    hide End, PulseLoop.Pulse, PulseLoop.Stops, Left, AtEnd;
    ghost var flow := c.pulseFlow;
    Tick(c, p, s, now);
    hide Going, Moved;
    DecisionGoes(p, v, LookAt(c), PulseLoop.Loop(now, c.pulseFlow, v.attempts), s, weight, now, before);
  }

  method Call(c: GrindController, p: Plant, s: Senses, weight: real, ghost before: int) returns (now: real)
    requires c.Valid() && Underway(c, p, weight, before) && c.phase != Completed && CallOk(p, s, before, c.startTime)
    modifies c, c.history, c.grinder, c.grinder.symbols, c.logger, c.logger.buffer
    ensures c.Valid() && Underway(c, p, now, s.now) && Left(LookAt(c), s.now) < old(Left(LookAt(c), before))
    ensures c.startTime == old(c.startTime)
  {
    assert c.phase == PurgeConfirm ==> weight == p.first;
    hide GrindController.Valid, Going, Left, CallOk;
    now := weight;
    if c.phase == PurgeConfirm {
      CallPurge(c, p, s, before);
    } else if c.phase == PulseDecision {
      now := CallDecision(c, p, s, weight, before);
    } else {
      CallAlong(c, p, s, weight, before);
    }
  }

  lemma SomeLeft(c: GrindController, p: Plant, weight: real, now: int)
    requires c.Valid() && Underway(c, p, weight, now) && c.phase != Completed
    ensures Left(LookAt(c), now) > 0
  {
  }

  /**
    A grind by weight on a plant of constant flow, from idle, with calls every 10 to 100 ms and nothing
    in the way: after at most 371 of them it is completed.  The weight and the number of corrections
    are those of the closed loop, and the result says how they compare with the target.
  */
  method GrindByWeight(c: GrindController, start: Senses, inputs: seq<Senses>, ask: bool, amount: real,
                       target: real, flow: real, first: real, seen: real)
    requires c.Valid() && c.phase == Idle && c.grinder.ready && !start.fault && start.now > 0
    requires |inputs| >= 371 && Paced(inputs, start.now)
    requires forall i :: 0 <= i < |inputs| ==> Calm(inputs[i]) && inputs[i].flow95 == seen
    requires PulseLoop.FLOW_MIN <= flow <= PulseLoop.PULSE_FLOW_MAX
    requires first >= 0.0 && (target < 1.0 || first >= NO_WEIGHT_G)
    modifies c, c.history, c.grinder, c.grinder.symbols, c.logger, c.logger.buffer
    ensures c.Valid() && c.phase == Completed && !c.grinder.grinding
    ensures
      var e := PulseLoop.Run(target, c.motorLatency, PulseLoop.Constant(flow, 10), true,
                             PulseLoop.Loop(first, seen * old(c.gain), 0));
      && c.finalWeight == e.settled && c.attempts == e.attempts
      && PulseLoop.Stops(target, e)
      && c.result == ResultOf(Weight, e.settled, target, e.attempts)
    // with an estimate that is not too low the target itself is never passed
    ensures flow <= PulseLoop.ClampedFlow(seen * old(c.gain)) && first <= target - 0.03 ==>
      c.finalWeight < target && c.result in {Success, MaxPulses}
  {
    hide GrindController.Valid, Going, Left;
    var p := Plant(target, c.motorLatency, flow, first, seen, seen * c.gain);
    BeginByWeight(c, p, start, ask, amount);
    var weight;
    ghost var now;
    weight, now := GrindOn(c, p, inputs, start.now);
    Completion(c, p, weight, now);
    RunStops(target, p.latency, flow, PulseLoop.MAX_ATTEMPTS, First(p));
    if flow <= PulseLoop.ClampedFlow(p.estimate) && first <= target - 0.03 {
      PulseLoop.StaysBelowFromEstimate(target, p.latency, flow, PulseLoop.MAX_ATTEMPTS, First(p));
    }
  }

  /** The button, and the screen that answers. */
  method BeginByWeight(c: GrindController, p: Plant, start: Senses, ask: bool, amount: real)
    requires c.Valid() && c.phase == Idle && c.grinder.ready && !start.fault && start.now > 0
    requires p.latency == c.motorLatency && p.estimate == p.seen * c.gain
    modifies c, c.history, c.grinder, c.grinder.symbols, c.logger, c.logger.buffer
    ensures c.Valid() && Underway(c, p, p.first, start.now) && c.phase == Initializing && c.startTime == start.now
    ensures Left(LookAt(c), start.now) == 371 && c.motorLatency == old(c.motorLatency)
  {
    hide GrindController.Valid, GrindController.Correction, End;
    c.StartGrind(start, p.target, 0, Weight, ask, amount, false);
    c.Acknowledge();
    c.PausedInPurge();
    HistoryHolds(c);
  }

  lemma Completion(c: GrindController, p: Plant, weight: real, now: int)
    requires Underway(c, p, weight, now) && c.phase == Completed
    ensures var e := End(p, PulseLoop.MAX_ATTEMPTS, First(p));
      c.finalWeight == e.settled && c.attempts == e.attempts && !c.grinder.grinding &&
      c.result == ResultOf(Weight, e.settled, p.target, e.attempts)
  {
  }

  /** The loop stops for a reason. */
  lemma {:induction false} RunStops(target: real, latency: real, f: real, n: nat, s: PulseLoop.Loop)
    requires s.attempts + n >= PulseLoop.MAX_ATTEMPTS
    ensures PulseLoop.Stops(target, PulseLoop.Run(target, latency, PulseLoop.Constant(f, n), true, s))
    decreases n
  {
    hide PulseLoop.Pulse;
    if n > 0 && !PulseLoop.Stops(target, s) {
      assert PulseLoop.Constant(f, n)[1..] == PulseLoop.Constant(f, n - 1);
      OneMore(target, latency, f, s);
      RunStops(target, latency, f, n - 1, PulseLoop.Pulse(target, latency, f, true, s));
    }
  }

  lemma OneMore(target: real, latency: real, f: real, s: PulseLoop.Loop)
    ensures PulseLoop.Pulse(target, latency, f, true, s).attempts == s.attempts + 1
  {
  }

  /** All the calls. */
  method GrindOn(c: GrindController, p: Plant, inputs: seq<Senses>, start: int) returns (weight: real, ghost now: int)
    requires c.Valid() && Underway(c, p, p.first, start) && Left(LookAt(c), start) <= 371 <= |inputs| && Paced(inputs, start)
    requires c.startTime == start && c.phase != Completed
    requires forall i :: 0 <= i < |inputs| ==> Calm(inputs[i]) && inputs[i].flow95 == p.seen
    requires PulseLoop.FLOW_MIN <= p.flow <= PulseLoop.PULSE_FLOW_MAX
    requires p.first >= 0.0 && (p.target < 1.0 || p.first >= NO_WEIGHT_G)
    modifies c, c.history, c.grinder, c.grinder.symbols, c.logger, c.logger.buffer
    ensures c.Valid() && Underway(c, p, weight, now) && c.phase == Completed
  {
    hide GrindController.Valid, Going, Left, End;
    weight, now := p.first, start;
    var i := 0;
    while i < |inputs| && c.phase != Completed
      invariant 0 <= i <= |inputs| && c.Valid() && Underway(c, p, weight, now)
      invariant now == Before(inputs, start, i) <= start + 100 * i
      invariant c.startTime == start && i + Left(LookAt(c), now) <= 371
      invariant c.phase == Completed || i < 371
    {
      assert Calm(inputs[i]) && 10 <= inputs[i].now - Before(inputs, start, i) <= 100;
      weight := Call(c, p, inputs[i], weight, now);
      now := inputs[i].now;
      i := i + 1;
      if c.phase != Completed {
        SomeLeft(c, p, weight, now);
      }
    }
  }

  // ---------------------------------------------------------------- by time

  /** The fields of the controller that decide how a calm grind by time goes on. */
  datatype Watch = Watch(phase: Phase, begun: int, uiReady: bool, result: Result, grinding: bool, finalWeight: real)

  function WatchOf(c: GrindController): Watch
    reads c, c.grinder
  {
    Watch(c.phase, c.timeGrindStart, c.uiReady, c.result, c.grinder.grinding, c.finalWeight)
  }

  /** What does not change during the grind, or goes without saying. */
  ghost predicate TimeSteady(c: GrindController, time: nat, start: int)
    reads c, c.history, c.grinder
  {
    && c.LoopOk() && c.mode == Time && c.targetTime == time && c.grinder.ready && c.pausedFor == 0
    && c.startTime == start && (c.paused <==> c.phase == PurgeConfirm)
  }

  /** At `now` the grind that began at `start` is under way; the motor runs exactly in its own phase. */
  predicate Timed(v: Watch, time: nat, start: int, now: int) {
    && v.phase in {Initializing, Setup, Taring, TareConfirm, TimeGrinding, FinalSettling, Completed}
    && (v.grinding <==> v.phase == TimeGrinding)
    && (v.phase == Initializing ==> v.uiReady)
    && v.result == (if v.phase == Completed then Success else Unknown)
    && now <= start + Latest(v.phase, time)
    && (v.phase == TimeGrinding ==>
      0 < v.begun <= start + 400 && v.begun <= now && (now == v.begun || now - v.begun < time))
  }

  function Latest(p: Phase, time: nat): int {
    match p
    case Initializing => 0
    case Setup => 100
    case Taring => 200
    case TareConfirm => 300
    case TimeGrinding => 400 + time
    case FinalSettling => 500 + time
    case _ => 600 + time
  }

  function TimeLeft(v: Watch, time: nat, now: int): int {
    var whole := (time + 9) / 10;
    match v.phase
    case Initializing => whole + 6
    case Setup => whole + 5
    case Taring => whole + 4
    case TareConfirm => whole + 3
    case TimeGrinding => 2 + (time + 9 - (now - v.begun)) / 10
    case FinalSettling => 1
    case _ => 0
  }

  /** Where a calm call leads to. */
  predicate TimeNext(v: Watch, w: Watch, time: nat, s: Senses, weight: real) {
    && (match v.phase
        case Initializing => w.phase == Setup
        case Setup => w.phase == Taring
        case Taring => w.phase == TareConfirm
        case TareConfirm => w.phase == TimeGrinding && w.begun == s.now
        case TimeGrinding =>
          w.begun == v.begun && w.phase == if time == 0 || s.now - v.begun >= time then FinalSettling else TimeGrinding
        case FinalSettling => w.phase == Completed && w.begun == v.begun && w.finalWeight == weight
        case _ => false)
    && (w.grinding <==> w.phase == TimeGrinding)
    && w.result == (if w.phase == Completed then Success else v.result)
  }

  lemma TimedGoes(v: Watch, w: Watch, time: nat, s: Senses, weight: real, start: int, before: int)
    requires Timed(v, time, start, before) && TimeNext(v, w, time, s, weight) && 10 <= s.now - before <= 100
    requires s.now > 0
    ensures Timed(w, time, start, s.now) && TimeLeft(w, time, s.now) < TimeLeft(v, time, before)
  {
  }

  lemma CalmTimeNext(c: GrindController, time: nat, s: Senses, weight: real)
    requires Calm(s) && c.mode == Time && c.targetTime == time && c.grinder.ready
    requires c.phase in {Initializing, Setup, Taring, TareConfirm, TimeGrinding, FinalSettling}
    requires (c.phase == Initializing ==> c.uiReady) && (c.phase == TimeGrinding ==> c.timeGrindStart != 0)
    requires c.grinder.grinding <==> c.phase == TimeGrinding
    ensures var n := c.NextPhase(OnScale(c, s, weight));
      && (match c.phase
          case Initializing => n == Setup
          case Setup => n == Taring
          case Taring => n == TareConfirm
          case TareConfirm => n == TimeGrinding
          case TimeGrinding => n == (if time == 0 || s.now - c.timeGrindStart >= time then FinalSettling else TimeGrinding)
          case _ => n == Completed)
      && (c.MotorNext(OnScale(c, s, weight)) <==> n == TimeGrinding)
      && c.ResultNext(OnScale(c, s, weight)) == (if n == Completed then Success else c.result)
  {
  }

  method TimeUpdate(c: GrindController, time: nat, s: Senses, weight: real, ghost start: int)
    requires c.Valid() && TimeSteady(c, time, start) && c.phase != Idle && c.phase != PurgeConfirm
    requires Calm(s) && weight >= 0.0 && s.now - start < GRIND_TIMEOUT_MS
    modifies c, c.history, c.grinder, c.grinder.symbols, c.logger, c.logger.buffer
    ensures c.Valid() && TimeSteady(c, time, start)
    ensures c.Advanced(old(OnScale(c, s, weight)))
  {
    hide GrindController.Valid, GrindController.LoopOk, GrindController.Advanced, GrindController.Rounded, OnScale, Calm;
    CalmUpdate(c, s, weight);
  }

  /** One call of a grind by time. */
  method TimeCall(c: GrindController, time: nat, s: Senses, weight: real, ghost start: int, ghost before: int)
    requires c.Valid() && TimeSteady(c, time, start) && Timed(WatchOf(c), time, start, before) && c.phase != Completed
    requires Calm(s) && weight >= 0.0 && 10 <= s.now - before <= 100 && time <= 59000 && s.now > 0
    modifies c, c.history, c.grinder, c.grinder.symbols, c.logger, c.logger.buffer
    ensures c.Valid() && TimeSteady(c, time, start)
    ensures TimeNext(old(WatchOf(c)), WatchOf(c), time, s, weight)
  {
    CalmTimeNext(c, time, s, weight);
    hide GrindController.Valid, TimeSteady, OnScale, Calm, GrindController.AdvancedFlow, GrindController.UseNoted;
    hide GrindController.NextPhase, GrindController.MotorNext, GrindController.ResultNext;
    TimeUpdate(c, time, s, weight, start);
  }

  lemma SomeTimeLeft(v: Watch, time: nat, start: int, now: int)
    requires Timed(v, time, start, now) && v.phase != Completed
    ensures TimeLeft(v, time, now) > 0
  {
  }

  /** The button, and the screen that answers. */
  method BeginByTime(c: GrindController, start: Senses, time: nat)
    requires c.Valid() && c.phase == Idle && c.grinder.ready && !start.fault && start.now > 0
    modifies c, c.history, c.grinder, c.grinder.symbols, c.logger, c.logger.buffer
    ensures c.Valid() && TimeSteady(c, time, start.now) && c.phase == Initializing
    ensures Timed(WatchOf(c), time, start.now, start.now)
    ensures TimeLeft(WatchOf(c), time, start.now) == (time + 9) / 10 + 6
  {
    hide GrindController.Valid, GrindController.Correction;
    c.StartGrind(start, 0.0, time, Time, false, 0.0, false);
    c.Acknowledge();
    c.PausedInPurge();
    HistoryHolds(c);
  }

  lemma HistoryHolds(c: GrindController)
    requires c.Valid()
    ensures c.attempts <= c.history.Length
  {
  }

  /**
    A grind by time, from idle, with calls every 10 to 100 ms and nothing in the way, is completed.  The
    motor has run for the time that was asked for and less than 100 ms more.
  */
  method GrindByTime(c: GrindController, start: Senses, inputs: seq<Senses>, time: nat, weight: real) returns (ran: int)
    requires c.Valid() && c.phase == Idle && c.grinder.ready && !start.fault && start.now > 0
    requires time <= 59000 && |inputs| >= (time + 9) / 10 + 6 && Paced(inputs, start.now) && weight >= 0.0
    requires forall i :: 0 <= i < |inputs| ==> Calm(inputs[i])
    modifies c, c.history, c.grinder, c.grinder.symbols, c.logger, c.logger.buffer
    ensures c.Valid() && c.phase == Completed && !c.grinder.grinding
    ensures c.result == Success && c.finalWeight == weight
    ensures time <= ran <= time + 100
  {
    hide GrindController.Valid, TimeSteady, Timed, TimeLeft, TimeNext, Calm;
    BeginByTime(c, start, time);
    ran := 0;
    var i := 0;
    ghost var now := start.now;
    while i < |inputs| && c.phase != Completed
      invariant 0 <= i <= |inputs| && c.Valid() && TimeSteady(c, time, start.now)
      invariant Timed(WatchOf(c), time, start.now, now) && now == Before(inputs, start.now, i) && now > 0
      invariant i + TimeLeft(WatchOf(c), time, now) <= (time + 9) / 10 + 6
      invariant c.phase == Completed || i < (time + 9) / 10 + 6
      invariant c.phase == FinalSettling || c.phase == Completed ==> time <= ran <= time + 100
      invariant c.phase == Completed ==> c.finalWeight == weight
    {
      var was := WatchOf(c);
      assert Calm(inputs[i]) && 10 <= inputs[i].now - Before(inputs, start.now, i) <= 100;
      TimeCall(c, time, inputs[i], weight, start.now, now);
      TimedGoes(was, WatchOf(c), time, inputs[i], weight, start.now, now);
      RunTime(was, WatchOf(c), time, inputs[i], weight, start.now, now);
      if was.phase == TimeGrinding && c.phase == FinalSettling {
        ran := inputs[i].now - was.begun;
      }
      now := inputs[i].now;
      i := i + 1;
      if c.phase != Completed {
        SomeTimeLeft(WatchOf(c), time, start.now, now);
      }
    }
    Concludes(WatchOf(c), time, start.now, now);
  }

  lemma RunTime(v: Watch, w: Watch, time: nat, s: Senses, weight: real, start: int, before: int)
    requires Timed(v, time, start, before) && TimeNext(v, w, time, s, weight) && 10 <= s.now - before <= 100
    ensures w.phase == FinalSettling ==> v.phase == TimeGrinding && time <= s.now - v.begun <= time + 100
    ensures w.phase == Completed ==> v.phase == FinalSettling && w.finalWeight == weight
  {
  }

  lemma Concludes(v: Watch, time: nat, start: int, now: int)
    requires Timed(v, time, start, now) && v.phase == Completed
    ensures v.result == Success && !v.grinding
  {
  }
}
