/** The event log of a grind: a buffer of fifty events, one for each phase that has ended. */
module GrindLog {
  const CAPACITY := 50  // MAX_EVENTS_PER_GRIND

  datatype Phase =
    | Idle | Initializing | Setup | Taring | TareConfirm | Predictive | PulseDecision | PulseExecute
    | PulseSettling | FinalSettling | TimeGrinding | TimeAdditionalPulse | Completed | Timeout | Prime
    | PrimeSettling | PurgeConfirm

  datatype Event = Event(
    phase: Phase, timestamp: int, duration: int, startWeight: real, endWeight: real, sequence: nat)

  const NO_EVENT := Event(Idle, 0, 0, 0.0, 0.0, 0)

  /** From the second event on, each starts when the one before it ends.  The first is the setup. */
  predicate Gapless(events: seq<Event>) {
    forall i :: 1 <= i < |events| - 1 ==> events[i].timestamp + events[i].duration == events[i + 1].timestamp
  }

  predicate Numbered(events: seq<Event>) {
    forall i :: 0 <= i < |events| ==> events[i].sequence == i
  }

  /** `next` is what follows `events`. */
  predicate Continues(events: seq<Event>, next: Event) {
    |events| >= 2 ==> events[|events| - 1].timestamp + events[|events| - 1].duration == next.timestamp
  }

  lemma GaplessMore(events: seq<Event>, e: Event)
    requires Gapless(events) && Continues(events, e)
    ensures Gapless(events + [e])
  {
  }

  class GrindLogger {
    const buffer: array<Event>
    var count: nat
    var sequence: nat
    var active: bool
    const hasBuffers: bool

    constructor (hasMemory: bool)
      ensures Valid() && Events() == [] && !active && fresh(buffer)
    {
      buffer := new Event[CAPACITY](i => NO_EVENT);
      hasBuffers := hasMemory;
      count, sequence, active := 0, 0, false;
    }

    predicate Valid()
      reads this, buffer
    {
      buffer.Length == CAPACITY && count <= CAPACITY && sequence == count && Numbered(buffer[..count])
    }

    function Events(): seq<Event>
      reads this, buffer
      requires Valid()
    {
      buffer[..count]
    }

    /** `start_grind_session` */
    method StartSession()
      requires Valid()
      modifies this`count, this`sequence, this`active
      ensures Valid() && (active ==> hasBuffers || old(active))
      ensures hasBuffers ==> active && Events() == []
      ensures !hasBuffers ==> active == old(active) && count == old(count)
    {
      if !hasBuffers {
        return;
      }
      count, sequence := 0, 0;
      active := true;
    }

    /** `log_event`: the event is numbered and stored, unless the buffer is full. */
    method LogEvent(e: Event)
      requires Valid()
      modifies this`count, this`sequence, buffer
      ensures Valid()
      ensures Events() == if active && |old(Events())| < 50
        then old(Events()) + [e.(sequence := |old(Events())|)] else old(Events())
    {
      if !active || count >= CAPACITY {
        return;
      }
      buffer[count] := e.(sequence := sequence);
      sequence := sequence + 1;
      count := count + 1;
    }

    /** `end_grind_session` and `discard_current_session`, as far as the buffer is concerned. */
    method EndSession()
      requires Valid()
      modifies this`count, this`sequence, this`active
      ensures Valid() && !active && (old(active) ==> Events() == [])
    {
      if !active {
        return;
      }
      count, sequence := 0, 0;
      active := false;
    }
  }
}
