/**
  The tare handshake between two cores, as a state machine over their single accesses to the shared
  variables, in any interleaving.

  A caller asks for a tare and waits for it, or polls, or goes away; the sampling task counts samples
  and then claims the request.  Either the caller or the task takes the request back, by an atomic
  exchange.
*/
module TareHandshake {
  const DATA_SET := 18

  /** Where the caller is in `tare` (blocking), or in `tareNoDelay` and what follows it. */
  datatype Caller =
    | Away
    | TimesZeroed(blocking: bool)    // after tareTimes = 0
    | StatusCleared(blocking: bool)  // after tareStatus = false
    | Waiting                        // in the waiting loop of tare
    | Won                            // the task has claimed the request; waiting for a sample
    | Polling                        // a caller of tareNoDelay that asks now and then

  /** Where the task is in the tare branch of `sample_and_feed_filter`. */
  datatype Sampler =
    | Between
    | Armed               // doTare was seen
    | Counting(read: nat) // tareTimes was read, and is to be written back plus one
    | Claiming            // enough samples: about to exchange
    | Lost                // the exchange failed
    | Applying(stage: nat) // zero point, tareTimes, filters, tareStatus, in this order

  /**
    `Poll` asks `getTareStatus`, `Notice` asks `is_tare_in_progress`; with `Leave` a polling caller
    stops asking.
  */
  datatype Action =
    | ZeroTimes(blocking: bool) | ClearStatus | Arm | GiveUp | Return | Poll | Notice | Leave
    | Look | ReadTimes | WriteTimes | Claim | ResetTimes | MoveZero | RestartCount | ClearFilters | SetStatus

  /** What a request finds when it begins: the task, and perhaps a request nobody waits for any more. */
  datatype Start = Start(sampler: Sampler, pending: bool)

  /** The shared variables, the two program counters, and what has happened so far. */
  datatype State = State(
    doTare: bool, status: bool, times: nat, caller: Caller, sampler: Sampler,
    requests: nat,         // requests are numbered from 1
    began: seq<Start>,     // for each request
    passes: nat,           // samples counted since the last request was armed
    claims: seq<nat>,      // by the task
    counts: seq<nat>,      // samples counted for each claim
    moved: seq<nat>,       // the zero point was moved for these
    cleared: seq<nat>,     // the filters were cleared for these
    refused: set<nat>,     // tare returned false
    replaced: set<nat>,    // still pending when the next request was armed
    granted: set<nat>,     // tare returned true
    noticed: set<nat>,     // is_tare_in_progress returned false
    confirmed: set<nat>)   // getTareStatus returned true

  const INITIAL :=
    State(false, false, 0, Away, Between, 0, [], 0, [], [], [], [], {}, {}, {}, {}, {})

  predicate Enabled(s: State, a: Action) {
    match a
    case ZeroTimes(_) => s.caller.Away?
    case ClearStatus => s.caller.TimesZeroed?
    case Arm => s.caller.StatusCleared?
    case GiveUp => s.caller.Waiting?
    case Return => s.caller.Won?
    case Poll => s.caller.Polling?
    case Notice => s.caller.Polling?
    case Leave => s.caller.Polling?
    case Look => s.sampler.Between?
    case ReadTimes => s.sampler.Armed?
    case WriteTimes => s.sampler.Counting?
    case Claim => s.sampler.Claiming?
    case ResetTimes => s.sampler.Lost?
    case MoveZero => s.sampler == Applying(0)
    case RestartCount => s.sampler == Applying(1)
    case ClearFilters => s.sampler == Applying(2)
    case SetStatus => s.sampler == Applying(3)
  }

  function Next(s: State, a: Action): State
    requires Enabled(s, a)
  {
    match a
    case ZeroTimes(blocking) =>
      s.(times := 0, caller := TimesZeroed(blocking), began := s.began + [Start(s.sampler, s.doTare)])
    case ClearStatus => s.(status := false, caller := StatusCleared(s.caller.blocking))
    case Arm =>
      s.(doTare := true, requests := s.requests + 1, passes := 0,
        replaced := if s.doTare then s.replaced + {s.requests} else s.replaced,
        caller := if s.caller.blocking then Waiting else Polling)
    case GiveUp =>  // after the waiting loop: doTare.exchange(false)
      if s.doTare then s.(doTare := false, caller := Away, refused := s.refused + {s.requests})
      else s.(caller := Won)
    case Return => s.(caller := Away, granted := s.granted + {s.requests})
    case Poll =>    // tareStatus.exchange(false)
      if s.status then s.(status := false, caller := Away, confirmed := s.confirmed + {s.requests}) else s
    case Notice => if s.doTare then s else s.(caller := Away, noticed := s.noticed + {s.requests})
    case Leave => s.(caller := Away)
    case Look => if s.doTare then s.(sampler := Armed) else s
    case ReadTimes => if s.times < DATA_SET then s.(sampler := Counting(s.times)) else s.(sampler := Claiming)
    case WriteTimes => s.(times := s.sampler.read + 1, passes := s.passes + 1, sampler := Between)
    case Claim =>   // doTare.compare_exchange_strong(true, false)
      if s.doTare then
        s.(doTare := false, sampler := Applying(0), claims := s.claims + [s.requests], counts := s.counts + [s.passes])
      else s.(sampler := Lost)
    case ResetTimes => s.(times := 0, sampler := Between)
    case MoveZero =>
      if s.claims == [] then s else s.(moved := s.moved + [s.claims[|s.claims| - 1]], sampler := Applying(1))
    case RestartCount => s.(times := 0, sampler := Applying(2))
    case ClearFilters =>
      if s.claims == [] then s else s.(cleared := s.cleared + [s.claims[|s.claims| - 1]], sampler := Applying(3))
    case SetStatus => s.(status := true, sampler := Between)
  }

  predicate Possible(s: State, run: seq<Action>)
    decreases |run|
  {
    run == [] || (Enabled(s, run[0]) && Possible(Next(s, run[0]), run[1..]))
  }

  function After(s: State, run: seq<Action>): State
    requires Possible(s, run)
    decreases |run|
  {
    if run == [] then s else After(Next(s, run[0]), run[1..])
  }

  // ---------------------------------------------------------------- the invariant

  predicate Increasing(claims: seq<nat>, most: nat) {
    && (forall i :: 0 <= i < |claims| ==> 1 <= claims[i] <= most)
    && (forall i, j :: 0 <= i < j < |claims| ==> claims[i] < claims[j])
  }

  /** Nobody has decided about the last request yet. */
  predicate Pending(s: State, r: nat) {
    r == s.requests && s.doTare
  }

  /** Every request is pending, refused, replaced or claimed, and only one of these. */
  ghost predicate WonOnce(s: State) {
    && Increasing(s.claims, s.requests)
    && s.refused !! s.replaced
    && (forall r :: r in s.refused + s.replaced ==> 1 <= r <= s.requests && r !in s.claims && !Pending(s, r))
    && (s.doTare ==> 0 < s.requests && s.requests !in s.claims)
    && (forall r :: 1 <= r <= s.requests ==>
      r in s.claims || r in s.refused || r in s.replaced || Pending(s, r))
  }

  /** What is claimed is applied, in the order of the claims; only the last may still be under way. */
  predicate AppliedInOrder(s: State) {
    && (s.sampler.Applying? ==> s.sampler.stage <= 3 && s.claims != [])
    && s.claims == (if s.sampler == Applying(0) then s.moved + [s.claims[|s.claims| - 1]] else s.moved)
    && s.claims ==
      (if s.sampler.Applying? && s.sampler.stage <= 2 then s.cleared + [s.claims[|s.claims| - 1]] else s.cleared)
  }

  predicate Asking(s: State) {
    s.caller.Waiting? || s.caller.Won? || s.caller.Polling?
  }

  predicate Beginning(s: State) {
    s.caller.TimesZeroed? || s.caller.StatusCleared?
  }

  /** Whoever asks for a tare that is not pending any more finds it claimed. */
  predicate CallerKnows(s: State) {
    && |s.began| == (if Beginning(s) then s.requests + 1 else s.requests)
    && (Asking(s) ==> s.requests > 0)
    && (Asking(s) && !s.doTare ==> s.requests in s.claims)
    && (s.caller.Won? ==> !s.doTare)
    && (forall r :: r in s.granted + s.noticed ==> r in s.claims)
  }

  /** The task, or a request left behind, can still set the status after such a request has cleared it. */
  predicate StatusAtRisk(start: Start) {
    start.pending || start.sampler.Applying?
  }

  /** Samples can be counted for such a request before it is armed. */
  predicate CountAtRisk(start: Start) {
    start.pending || start.sampler.Armed? || start.sampler.Counting? || start.sampler.Claiming?
  }

  /** Unless it is at risk, the status that the last request sees is its own. */
  predicate OwnStatus(s: State) {
    && |s.began| == (if Beginning(s) then s.requests + 1 else s.requests)
    && (s.began != [] && !StatusAtRisk(s.began[|s.began| - 1]) ==>
      && (Beginning(s) ==> !s.doTare && !s.sampler.Applying?)
      && (s.caller.StatusCleared? ==> !s.status)
      && (s.caller.Polling? && s.doTare ==> !s.status && !s.sampler.Applying?)
      && (s.caller.Polling? && s.status ==> s.requests in s.moved))
    && (forall r :: r in s.confirmed ==> 1 <= r <= |s.began| && (r in s.moved || StatusAtRisk(s.began[r - 1])))
  }

  /** The count of the pending request: `exact` unless the next one has zeroed it meanwhile. */
  predicate CountingOwn(s: State, exact: bool) {
    match s.sampler
    case Between => s.times <= s.passes && (exact ==> s.times == s.passes)
    case Armed => s.times <= s.passes && (exact ==> s.times == s.passes)
    case Counting(n) => n <= s.passes && (exact ==> n == s.passes)
    case Claiming => s.passes >= DATA_SET && (exact ==> s.passes == DATA_SET)
    case Lost => s.passes == 0
    case Applying(stage) => s.passes == 0 && (stage >= 2 ==> s.times == 0)
  }

  /** Nothing has been counted before the request is armed. */
  predicate NothingCounted(s: State) {
    match s.sampler
    case Between => s.times == 0
    case Lost => true
    case Applying(stage) => stage >= 2 ==> s.times == 0
    case _ => false
  }

  /** Claimed with its own samples, or at risk of not being so. */
  predicate CountOk(count: nat, r: nat, began: seq<Start>) {
    && 1 <= r <= |began|
    && (CountAtRisk(began[r - 1]) ||
        if r < |began| && began[r].pending then count >= 18 else count == 18)
  }

  predicate Counted(s: State) {
    && |s.began| == (if Beginning(s) then s.requests + 1 else s.requests)
    && s.times <= DATA_SET && (s.sampler.Counting? ==> s.sampler.read < DATA_SET)
    && (Beginning(s) && !CountAtRisk(s.began[s.requests]) ==> !s.doTare && NothingCounted(s))
    && (Beginning(s) ==> (s.began[s.requests].pending <== s.doTare))
    && (s.doTare && s.requests > 0 && !CountAtRisk(s.began[s.requests - 1]) ==> CountingOwn(s, !Beginning(s)))
    && |s.counts| == |s.claims|
    && (forall i :: 0 <= i < |s.claims| ==> CountOk(s.counts[i], s.claims[i], s.began))
  }

  ghost predicate Safe(s: State) {
    WonOnce(s) && AppliedInOrder(s) && CallerKnows(s) && OwnStatus(s) && Counted(s)
  }

  lemma IncreasingMore(claims: seq<nat>, most: nat, next: nat)
    requires Increasing(claims, most) && next > 0
    requires forall i :: 0 <= i < |claims| ==> claims[i] < next
    ensures Increasing(claims + [next], if next > most then next else most)
  {
  }

  lemma ClaimIsNew(s: State)
    requires WonOnce(s) && s.doTare
    ensures forall i :: 0 <= i < |s.claims| ==> s.claims[i] < s.requests
  {
    forall i | 0 <= i < |s.claims|
      ensures s.claims[i] < s.requests
    {
      assert s.claims[i] in s.claims;
    }
  }

  predicate ByCaller(a: Action) {
    a.ZeroTimes? || a.ClearStatus? || a.Arm? || a.GiveUp? || a.Return? || a.Poll? || a.Notice? || a.Leave?
  }

  lemma ClaimWinsOnce(s: State)
    requires WonOnce(s) && Enabled(s, Claim)
    ensures WonOnce(Next(s, Claim))
  {
    if s.doTare {
      ClaimIsNew(s);
      IncreasingMore(s.claims, s.requests, s.requests);
    }
  }

  lemma ArmWinsOnce(s: State)
    requires WonOnce(s) && Enabled(s, Arm)
    ensures WonOnce(Next(s, Arm))
  {
  }

  lemma StepWinsOnce(s: State, a: Action)
    requires Safe(s) && Enabled(s, a)
    ensures WonOnce(Next(s, a))
  {
    hide Counted, OwnStatus, AppliedInOrder;
    if a.Claim? {
      ClaimWinsOnce(s);
    } else if a.Arm? {
      ArmWinsOnce(s);
    }
  }

  lemma StepAppliesInOrder(s: State, a: Action)
    requires Safe(s) && Enabled(s, a)
    ensures AppliedInOrder(Next(s, a))
  {
    hide WonOnce, Counted, CallerKnows, OwnStatus;
  }

  lemma StepKeepsCaller(s: State, a: Action)
    requires Safe(s) && Enabled(s, a)
    ensures CallerKnows(Next(s, a))
  {
    hide Counted, OwnStatus, AppliedInOrder;
  }

  lemma CallerKeepsStatus(s: State, a: Action)
    requires CallerKnows(s) && OwnStatus(s) && Enabled(s, a) && ByCaller(a)
    ensures OwnStatus(Next(s, a))
  {
  }

  lemma ApplyingKeepsStatus(s: State, a: Action)
    requires AppliedInOrder(s) && CallerKnows(s) && OwnStatus(s) && Enabled(s, a) && (a.MoveZero? || a.SetStatus?)
    ensures OwnStatus(Next(s, a))
  {
  }

  lemma TaskKeepsStatus(s: State, a: Action)
    requires OwnStatus(s) && Enabled(s, a) && !ByCaller(a) && !a.MoveZero? && !a.SetStatus?
    ensures OwnStatus(Next(s, a))
  {
  }

  lemma StepKeepsStatus(s: State, a: Action)
    requires Safe(s) && Enabled(s, a)
    ensures OwnStatus(Next(s, a))
  {
    hide Counted, WonOnce, OwnStatus, CallerKnows, AppliedInOrder, Next, Enabled, ByCaller;
    if ByCaller(a) {
      CallerKeepsStatus(s, a);
    } else if a.MoveZero? || a.SetStatus? {
      ApplyingKeepsStatus(s, a);
    } else {
      TaskKeepsStatus(s, a);
    }
  }

  lemma CallerCounts(s: State, a: Action)
    requires CallerKnows(s) && Counted(s) && Enabled(s, a) && ByCaller(a)
    ensures Counted(Next(s, a))
  {
  }

  lemma ClaimCounts(s: State)
    requires WonOnce(s) && CallerKnows(s) && Counted(s) && Enabled(s, Claim)
    ensures Counted(Next(s, Claim))
  {
  }

  lemma TaskCounts(s: State, a: Action)
    requires Counted(s) && Enabled(s, a) && !ByCaller(a) && !a.Claim?
    ensures Counted(Next(s, a))
  {
    hide CountOk;
  }

  lemma StepCounts(s: State, a: Action)
    requires Safe(s) && Enabled(s, a)
    ensures Counted(Next(s, a))
  {
    hide Counted, WonOnce, OwnStatus, CallerKnows, AppliedInOrder, Next, Enabled, ByCaller;
    if ByCaller(a) {
      CallerCounts(s, a);
    } else if a.Claim? {
      ClaimCounts(s);
    } else {
      TaskCounts(s, a);
    }
  }

  lemma StepIsSafe(s: State, a: Action)
    requires Safe(s) && Enabled(s, a)
    ensures Safe(Next(s, a))
  {
    StepWinsOnce(s, a);
    StepAppliesInOrder(s, a);
    StepKeepsCaller(s, a);
    StepKeepsStatus(s, a);
    StepCounts(s, a);
    hide Next, Enabled, WonOnce, AppliedInOrder, CallerKnows, OwnStatus, Counted;
  }

  lemma {:induction false} RunIsSafe(s: State, run: seq<Action>)
    requires Safe(s) && Possible(s, run)
    ensures Safe(After(s, run))
    decreases |run|
  {
    hide Safe, Next, Enabled;
    if run != [] {
      StepIsSafe(s, run[0]);
      RunIsSafe(Next(s, run[0]), run[1..]);
    }
  }

  /** What a request found when it began is not forgotten. */
  lemma {:induction false} BeganStays(s: State, run: seq<Action>)
    requires Possible(s, run)
    ensures s.began <= After(s, run).began
    decreases |run|
  {
    if run != [] {
      BeganStays(Next(s, run[0]), run[1..]);
    }
  }

  // ---------------------------------------------------------------- every run

  /** How often `r` occurs. */
  function Occurs(r: nat, in_: seq<nat>): nat {
    multiset(in_)[r]
  }

  lemma {:induction false} OnceAtMost(claims: seq<nat>, most: nat, r: nat)
    requires Increasing(claims, most)
    ensures Occurs(r, claims) == if r in claims then 1 else 0
    decreases |claims|
  {
    if claims != [] {
      var last := |claims| - 1;
      assert claims == claims[..last] + [claims[last]];
      OnceAtMost(claims[..last], most, r);
      if r == claims[last] {
        assert r !in claims[..last];
      }
    }
  }

  lemma PrefixIncreasing(prefix: seq<nat>, claims: seq<nat>, most: nat)
    requires Increasing(claims, most) && prefix <= claims
    ensures Increasing(prefix, most)
  {
    assert forall i :: 0 <= i < |prefix| ==> prefix[i] == claims[i];
  }

  /** What the invariant says about one request. */
  lemma OneRequest(s: State, r: nat)
    requires Safe(s)
    ensures r in s.refused + s.replaced ==>
      r !in s.granted && r !in s.noticed && r !in s.claims && r !in s.moved && r !in s.cleared
    ensures r in s.granted || r in s.noticed ==> r in s.claims
    ensures 1 <= r <= s.requests ==> r in s.claims || r in s.refused || r in s.replaced || Pending(s, r)
    ensures Occurs(r, s.moved) == if r in s.moved then 1 else 0
    ensures Occurs(r, s.cleared) == if r in s.cleared then 1 else 0
    ensures r in s.claims && !s.sampler.Applying? ==> r in s.moved && r in s.cleared
    ensures r in s.confirmed ==> 1 <= r <= |s.began| && (r in s.moved || StatusAtRisk(s.began[r - 1]))
  {
    hide Counted;
    PrefixIncreasing(s.moved, s.claims, s.requests);
    PrefixIncreasing(s.cleared, s.claims, s.requests);
    OnceAtMost(s.moved, s.requests, r);
    OnceAtMost(s.cleared, s.requests, r);
  }

  /**
    In every interleaving: a request is decided once; for a refused one the zero point and the filters
    are never touched; a granted one is claimed, and so is one that a caller has seen to be over; what
    is claimed is applied exactly once, as soon as the task is done with it; and a confirmed one has
    been applied, unless its status was at risk from the start.
  */
  lemma Handshake(run: seq<Action>, r: nat)
    requires Possible(INITIAL, run)
    ensures var s := After(INITIAL, run);
      && (r in s.refused ==>
        r !in s.granted && r !in s.noticed && r !in s.claims && Occurs(r, s.moved) == Occurs(r, s.cleared) == 0)
      && (r in s.granted || r in s.noticed ==> r in s.claims)
      && (1 <= r <= s.requests ==> r in s.claims || r in s.refused || r in s.replaced || Pending(s, r))
      && Occurs(r, s.moved) <= 1 && Occurs(r, s.cleared) <= 1
      && (r in s.claims && !s.sampler.Applying? ==> Occurs(r, s.moved) == Occurs(r, s.cleared) == 1)
      && (r in s.confirmed ==>
        1 <= r <= |s.began| && (Occurs(r, s.moved) == 1 || StatusAtRisk(s.began[r - 1])))
  {
    assert Safe(INITIAL);
    RunIsSafe(INITIAL, run);
    OneRequest(After(INITIAL, run), r);
    hide Safe, After, Possible, Occurs;
  }

  /**
    A request whose count is not at risk is claimed after exactly eighteen samples of its own, or after
    at least as many if the next request has zeroed the count meanwhile.
  */
  lemma EnoughSamples(run: seq<Action>, i: nat)
    requires Possible(INITIAL, run)
    ensures var s := After(INITIAL, run);
      && |s.counts| == |s.claims|
      && (i < |s.claims| ==> CountOk(s.counts[i], s.claims[i], s.began))
  {
    assert Safe(INITIAL);
    RunIsSafe(INITIAL, run);
    hide After, Possible, WonOnce, CountOk;
  }

  // ---------------------------------------------------------------- exactly when things can go wrong

  /** The request that `more` begins with is confirmed though the zero point has not been moved for it. */
  predicate Misleads(s: State, more: seq<Action>) {
    && more != [] && more[0] == ZeroTimes(false) && Possible(s, more)
    && var t := After(s, more);
      s.requests + 1 in t.confirmed && s.requests + 1 !in t.moved
  }

  /** The request that `more` begins with is claimed with fewer than eighteen samples of its own. */
  ghost predicate Hurries(s: State, blocking: bool, more: seq<Action>) {
    && more != [] && more[0] == ZeroTimes(blocking) && Possible(s, more)
    && var t := After(s, more);
      exists i :: 0 <= i < |t.claims| == |t.counts| && t.claims[i] == s.requests + 1 && t.counts[i] < 18
  }

  /** The task is between seeing a request and deciding about it. */
  predicate SeesRequest(s: State) {
    s.sampler.Armed? || s.sampler.Counting? || s.sampler.Claiming?
  }

  lemma FirstBegan(s: State, more: seq<Action>)
    requires Safe(s) && s.caller.Away? && Possible(s, more) && more != [] && more[0].ZeroTimes?
    ensures var t := After(s, more);
      Safe(t) && s.requests < |t.began| && t.began[s.requests] == Start(s.sampler, s.doTare)
  {
    RunIsSafe(s, more);
    BeganStays(Next(s, more[0]), more[1..]);
    hide After, Possible, WonOnce, AppliedInOrder, OwnStatus, Counted;
  }

  lemma MisledOnlyAtRisk(s: State, more: seq<Action>)
    requires Safe(s) && s.caller.Away? && Misleads(s, more)
    ensures s.doTare || s.sampler.Applying?
  {
    FirstBegan(s, more);
    hide After, Possible, WonOnce, AppliedInOrder, CallerKnows, Counted;
  }

  lemma HurriedOnlyAtRisk(s: State, blocking: bool, more: seq<Action>)
    requires Safe(s) && s.caller.Away? && Hurries(s, blocking, more)
    ensures s.doTare || SeesRequest(s)
  {
    FirstBegan(s, more);
    hide After, Possible, WonOnce, AppliedInOrder, CallerKnows, OwnStatus;
  }

  // The way of the task alone, towards each of the two.

  /** What the task does next. */
  function Task(s: State): Action {
    match s.sampler
    case Between => Look
    case Armed => ReadTimes
    case Counting(_) => WriteTimes
    case Claiming => Claim
    case Lost => ResetTimes
    case Applying(stage) =>
      if stage == 0 then MoveZero else if stage == 1 then RestartCount else if stage == 2 then ClearFilters else SetStatus
  }

  lemma {:induction false} Concat(s: State, run: seq<Action>, more: seq<Action>)
    requires Possible(s, run) && Possible(After(s, run), more)
    ensures Possible(s, run + more) && After(s, run + more) == After(After(s, run), more)
    decreases |run|
  {
    hide Next, Enabled;
    if run == [] {
      assert run + more == more;
    } else {
      Concat(Next(s, run[0]), run[1..], more);
      assert (run + more)[1..] == run[1..] + more;
    }
  }

  lemma One(s: State, a: Action)
    requires Enabled(s, a)
    ensures Possible(s, [a]) && After(s, [a]) == Next(s, a)
  {
    assert [a][1..] == [];
  }

  lemma TaskFirst(s: State, rest: seq<Action>)
    requires Safe(s) && Enabled(s, Task(s)) && Possible(Next(s, Task(s)), rest)
    ensures Possible(s, [Task(s)] + rest) && After(s, [Task(s)] + rest) == After(Next(s, Task(s)), rest)
  {
    hide Next, Enabled, Task, Safe;
    One(s, Task(s));
    Concat(s, [Task(s)], rest);
  }

  /** What the way of the task depends on. */
  predicate Sane(s: State) {
    && s.times <= DATA_SET && (s.sampler.Counting? ==> s.sampler.read < DATA_SET)
    && (s.sampler.Applying? ==> s.sampler.stage <= 3 && s.claims != [])
  }

  lemma TaskIsSafe(s: State)
    requires Safe(s)
    ensures Sane(s) && |s.counts| == |s.claims|
    ensures Enabled(s, Task(s)) && Safe(Next(s, Task(s))) && Sane(Next(s, Task(s)))
  {
    assert Sane(s) && Enabled(s, Task(s));
    StepIsSafe(s, Task(s));
    hide Next, Enabled, WonOnce, CallerKnows, OwnStatus, Task;
  }

  /** How far the task is from claiming the pending request. */
  function ToClaim(s: State): nat
    requires Sane(s)
  {
    match s.sampler
    case Claiming => 0
    case Between => 3 * (DATA_SET - s.times) + 2
    case Armed => 3 * (DATA_SET - s.times) + 1
    case Counting(n) => 3 * (DATA_SET - n)
    case Lost => 3 * DATA_SET + 3
    case Applying(stage) => 3 * DATA_SET + 7 - stage
  }

  /** Only the task has been at work. */
  predicate SameCaller(s: State, t: State) {
    t.caller == s.caller && t.requests == s.requests && t.began == s.began
  }

  /** More samples count for the pending request than were taken since it was armed. */
  predicate Ahead(s: State) {
    match s.sampler
    case Between => s.passes < s.times
    case Armed => s.passes < s.times
    case Counting(n) => s.passes < n
    case Claiming => s.passes < DATA_SET
    case _ => false
  }

  lemma TaskGetsCloser(s: State)
    requires Sane(s) && s.doTare && !s.sampler.Claiming?
    ensures Enabled(s, Task(s))
    ensures var t := Next(s, Task(s));
      && Sane(t) && t.doTare && SameCaller(s, t) && t.claims == s.claims && t.counts == s.counts
      && ToClaim(t) < ToClaim(s) && (Ahead(s) ==> Ahead(t))
  {
  }

  /** The pending request gets claimed, whatever the task is doing. */
  lemma {:induction false} ClaimComes(s: State) returns (run: seq<Action>)
    requires Safe(s) && Sane(s) && s.doTare
    ensures Possible(s, run)
    ensures var t := After(s, run);
      && SameCaller(s, t) && t.sampler == Applying(0) && t.claims == s.claims + [s.requests]
      && |t.counts| == |s.counts| + 1 && (Ahead(s) ==> t.counts[|s.counts|] < DATA_SET)
    decreases ToClaim(s)
  {
    hide Possible, After, Safe;
    if s.sampler.Claiming? {
      One(s, Claim);
      run := [Claim];
    } else {
      TaskIsSafe(s);
      TaskGetsCloser(s);
      hide Next, Enabled, ToClaim, Ahead, Task, Sane;
      run := ClaimComes(Next(s, Task(s)));
      TaskFirst(s, run);
      run := [Task(s)] + run;
    }
  }

  lemma TaskApplies(s: State)
    requires Sane(s) && s.sampler.Applying?
    ensures Enabled(s, Task(s))
    ensures var t := Next(s, Task(s));
      && SameCaller(s, t)
      && if s.sampler.stage == 3 then t.status else t.sampler == Applying(s.sampler.stage + 1)
  {
  }

  /** The task finishes what it is applying. */
  lemma {:induction false} StatusComes(s: State) returns (run: seq<Action>)
    requires Safe(s) && Sane(s) && s.sampler.Applying?
    ensures Possible(s, run)
    ensures SameCaller(s, After(s, run)) && After(s, run).status
    decreases 3 - s.sampler.stage
  {
    TaskIsSafe(s);
    TaskApplies(s);
    hide Possible, After, Safe, Next, Enabled, Task;
    if s.sampler.stage == 3 {
      One(s, Task(s));
      run := [Task(s)];
    } else {
      run := StatusComes(Next(s, Task(s)));
      TaskFirst(s, run);
      run := [Task(s)] + run;
    }
  }

  /** How far the task is from a sample that counts before the request is armed. */
  function ToCount(s: State): nat
    requires Sane(s)
  {
    match s.sampler
    case Claiming => 0
    case Counting(_) => 1
    case Armed => 2
    case Between => if s.times > 0 then 0 else 3
    case Lost => 4
    case Applying(stage) => 8 - stage
  }

  lemma TaskComesToCount(s: State)
    requires Sane(s) && (s.doTare || SeesRequest(s)) && ToCount(s) > 0
    ensures Enabled(s, Task(s))
    ensures var t := Next(s, Task(s));
      Sane(t) && SameCaller(s, t) && (t.doTare || SeesRequest(t) || ToCount(t) == 0) && ToCount(t) < ToCount(s)
  {
  }

  /** The task counts a sample, or has counted enough, before the next request is armed. */
  lemma {:induction false} CountComes(s: State) returns (run: seq<Action>)
    requires Safe(s) && Sane(s) && (s.doTare || SeesRequest(s) || ToCount(s) == 0)
    ensures Possible(s, run)
    ensures var t := After(s, run);
      SameCaller(s, t) && Sane(t) && ToCount(t) == 0
    decreases ToCount(s)
  {
    hide Possible, After, Safe, Next, Enabled, Task, ToCount, SeesRequest, Sane;
    if ToCount(s) == 0 {
      Nothing(s);
      run := [];
    } else {
      TaskIsSafe(s);
      TaskComesToCount(s);
      run := CountComes(Next(s, Task(s)));
      TaskFirst(s, run);
      run := [Task(s)] + run;
    }
  }

  lemma Nothing(s: State)
    ensures Possible(s, []) && After(s, []) == s
  {
  }

  lemma {:induction false} Then(s: State, run: seq<Action>, a: Action)
    requires Possible(s, run) && Enabled(After(s, run), a)
    ensures Possible(s, run + [a]) && After(s, run + [a]) == Next(After(s, run), a)
  {
    hide Possible, After, Next, Enabled;
    One(After(s, run), a);
    Concat(s, run, [a]);
  }

  lemma MisledAtRisk(s: State) returns (more: seq<Action>)
    requires Safe(s) && s.caller.Away? && (s.doTare || s.sampler.Applying?)
    ensures Misleads(s, more)
  {
    hide Possible, After, Safe;
    One(s, ZeroTimes(false));
    Then(s, [ZeroTimes(false)], ClearStatus);
    more := [ZeroTimes(false)] + [ClearStatus];
    RunIsSafe(s, more);
    var rest: seq<Action>;
    if !s.sampler.Applying? {
      TaskIsSafe(After(s, more));
      rest := ClaimComes(After(s, more));
      Concat(s, more, rest);
      more := more + rest;
      RunIsSafe(s, more);
    }
    TaskIsSafe(After(s, more));
    rest := StatusComes(After(s, more));
    Concat(s, more, rest);
    more := more + rest;
    Then(s, more, Arm);
    Then(s, more + [Arm], Poll);
    more := more + [Arm] + [Poll];
    RunIsSafe(s, more);
    NotMovedYet(After(s, more));
  }

  lemma NotMovedYet(s: State)
    requires Safe(s) && s.doTare
    ensures s.requests !in s.moved
  {
    hide CallerKnows, OwnStatus, Counted;
  }

  lemma HurriedAtRisk(s: State, blocking: bool) returns (more: seq<Action>)
    requires Safe(s) && s.caller.Away?
    requires s.doTare || SeesRequest(s)
    ensures Hurries(s, blocking, more)
  {
    hide Possible, After, Safe;
    One(s, ZeroTimes(blocking));
    more := [ZeroTimes(blocking)];
    RunIsSafe(s, more);
    TaskIsSafe(After(s, more));
    var rest := CountComes(After(s, more));
    Concat(s, more, rest);
    more := more + rest;
    Then(s, more, ClearStatus);
    Then(s, more + [ClearStatus], Arm);
    more := more + [ClearStatus] + [Arm];
    RunIsSafe(s, more);
    TaskIsSafe(After(s, more));
    rest := ClaimComes(After(s, more));
    Concat(s, more, rest);
    more := more + rest;
    var t := After(s, more);
    assert t.claims[|t.claims| - 1] == s.requests + 1;
  }

  /**
    Exactly when a new request of a polling caller can be confirmed before the zero point is moved for
    it: when it begins while an earlier tare is being applied, or while an earlier request that its
    caller has left is still pending.
  */
  lemma MisledExactly(run: seq<Action>)
    requires Possible(INITIAL, run) && After(INITIAL, run).caller.Away?
    ensures var s := After(INITIAL, run);
      (exists more :: Misleads(s, more)) <==> s.doTare || s.sampler.Applying?
  {
    assert Safe(INITIAL);
    RunIsSafe(INITIAL, run);
    var s := After(INITIAL, run);
    hide After, Possible, Safe, Misleads;
    if s.doTare || s.sampler.Applying? {
      var more := MisledAtRisk(s);
    }
    forall more | Misleads(s, more)
      ensures s.doTare || s.sampler.Applying?
    {
      MisledOnlyAtRisk(s, more);
    }
  }

  /**
    Exactly when a new request can be claimed with fewer than eighteen samples of its own: when it
    begins while the task is between seeing a request and deciding about it, or while an earlier
    request that its caller has left is still pending.
  */
  lemma HurriedExactly(run: seq<Action>, blocking: bool)
    requires Possible(INITIAL, run) && After(INITIAL, run).caller.Away?
    ensures var s := After(INITIAL, run);
      (exists more :: Hurries(s, blocking, more)) <==>
      s.doTare || SeesRequest(s)
  {
    assert Safe(INITIAL);
    RunIsSafe(INITIAL, run);
    var s := After(INITIAL, run);
    hide After, Possible, Safe, Hurries, SeesRequest;
    if s.doTare || SeesRequest(s) {
      var more := HurriedAtRisk(s, blocking);
    }
    forall more | Hurries(s, blocking, more)
      ensures s.doTare || SeesRequest(s)
    {
      HurriedOnlyAtRisk(s, blocking, more);
    }
  }

  // ---------------------------------------------------------------- two such runs

  lemma Then3(s: State, run: seq<Action>, a: Action, b: Action, c: Action) returns (longer: seq<Action>)
    requires Possible(s, run)
    requires Enabled(After(s, run), a) && Enabled(Next(After(s, run), a), b)
    requires Enabled(Next(Next(After(s, run), a), b), c)
    ensures Possible(s, longer) && After(s, longer) == Next(Next(Next(After(s, run), a), b), c)
  {
    hide Next, Enabled, Possible, After;
    Then(s, run, a);
    Then(s, run + [a], b);
    Then(s, run + [a] + [b], c);
    longer := run + [a] + [b] + [c];
  }

  /** The state after a first blocking request and `n` samples. */
  function Waited(n: nat): State {
    INITIAL.(doTare := true, times := n, caller := Waiting, requests := 1, began := [Start(Between, false)], passes := n)
  }

  lemma {:induction false} SamplesAreCounted(n: nat) returns (run: seq<Action>)
    requires n <= DATA_SET
    ensures Possible(INITIAL, run) && After(INITIAL, run) == Waited(n)
    decreases n
  {
    hide Possible, After;
    if n == 0 {
      Nothing(INITIAL);
      run := Then3(INITIAL, [], ZeroTimes(true), ClearStatus, Arm);
    } else {
      run := SamplesAreCounted(n - 1);
      run := Then3(INITIAL, run, Look, ReadTimes, WriteTimes);
    }
  }

  /** The task has decided to claim the first request, which is still waiting. */
  lemma AboutToClaim() returns (run: seq<Action>)
    ensures Possible(INITIAL, run) && After(INITIAL, run) == Waited(DATA_SET).(sampler := Claiming)
  {
    hide Possible, After;
    run := SamplesAreCounted(DATA_SET);
    Then(INITIAL, run, Look);
    Then(INITIAL, run + [Look], ReadTimes);
    run := run + [Look] + [ReadTimes];
  }

  /**
    A caller that gives up at that moment and asks again has its second request claimed at once, with
    no sample of its own.
  */
  lemma StaleClaim() returns (run: seq<Action>)
    ensures Possible(INITIAL, run)
    ensures var s := After(INITIAL, run);
      s.refused == {1} && s.requests == 2 && s.claims == [2] && s.counts == [0]
  {
    hide Possible, After;
    run := AboutToClaim();
    run := Then3(INITIAL, run, GiveUp, ZeroTimes(true), ClearStatus);
    Then(INITIAL, run, Arm);
    Then(INITIAL, run + [Arm], Claim);
    run := run + [Arm] + [Claim];
  }

  /**
    A polling caller that begins while an earlier tare is being applied can be told of that one's
    success, while its own request is still pending.
  */
  lemma ForeignStatus() returns (run: seq<Action>)
    ensures Possible(INITIAL, run)
    ensures var s := After(INITIAL, run);
      s.requests == 2 && 2 in s.confirmed && s.claims == s.moved == [1] && s.doTare
  {
    hide Possible, After;
    run := AboutToClaim();
    run := Then3(INITIAL, run, Claim, MoveZero, RestartCount);
    run := Then3(INITIAL, run, ClearFilters, GiveUp, Return);
    run := Then3(INITIAL, run, ZeroTimes(false), ClearStatus, SetStatus);
    Then(INITIAL, run, Arm);
    Then(INITIAL, run + [Arm], Poll);
    run := run + [Arm] + [Poll];
  }
}
