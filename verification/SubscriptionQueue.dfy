/** `subscriptionQueue`: the mutable queue of one subscription, each of whose
    operations runs under its mutex, proved against the queue's values. */
module SubscriptionQueues {
  import opened Wrappers
  import opened SubscriptionLog

  /** The shared budget as one queue sees it: its own share of the charges, and
      what all other queues hold at the time of each reservation. */
  class SubscriptionBudget {
    const limit: nat
    const others: nat -> nat
    var share: int
    var reservations: nat

    constructor (limit: nat, others: nat -> nat)
      ensures this.limit == limit && this.others == others && share == 0 && reservations == 0
    {
      this.limit, this.others := limit, others;
      share, reservations := 0, 0;
    }

    function Left(): Allowance {
      (k: nat) => limit - others(k)
    }

    /** `reserve`: all or nothing, within the limit. */
    method Reserve(size: nat) returns (ok: bool)
      modifies this
      ensures reservations == old(reservations) + 1
      ensures ok <==> old(share) + size <= Left()(old(reservations))
      ensures share == old(share) + if ok then size else 0
    {
      var used := share + others(reservations);
      reservations := reservations + 1;
      if size > limit - used {
        return false;
      }
      share := share + size;
      return true;
    }

    /** `release`: a charge the balance does not cover is a panic, not a clamp. */
    method Release(size: int) returns (panicked: bool)
      modifies this`share
      ensures panicked <==> size < 0 || (size > 0 && size > old(share) + others(reservations))
      ensures share == old(share) - if panicked then 0 else size
    {
      if size == 0 {
        return false;
      }
      var used := share + others(reservations);
      if size < 0 || size > used {
        return true;
      }
      share := share - size;
      return false;
    }
  }

  /** The two halves of `appendLocked`: its own limits, then the budget. */
  lemma AppendRefuses(q: Queue, event: Event, critical: bool, allowance: Allowance)
    requires event.wire + SEQUENCE_CHARGE > MAXIMUM_EVENT_BYTES
             || TotalCharge(q.events) + event.wire + SEQUENCE_CHARGE > MAXIMUM_QUEUE_BYTES
             || |q.events| >= MAXIMUM_CAPACITY || (!critical && Ordinary(q.events) >= q.capacity)
    ensures Append(q, event, critical, allowance) ==
            Admission(q, Some(if event.wire + SEQUENCE_CHARGE > MAXIMUM_EVENT_BYTES
                                 || TotalCharge(q.events) + event.wire + SEQUENCE_CHARGE > MAXIMUM_QUEUE_BYTES
                              then ResourceExhausted else CriticalBackpressure))
  {
  }

  lemma AppendAsks(q: Queue, event: Event, critical: bool, allowance: Allowance)
    requires event.wire + SEQUENCE_CHARGE <= MAXIMUM_EVENT_BYTES
    requires TotalCharge(q.events) + event.wire + SEQUENCE_CHARGE <= MAXIMUM_QUEUE_BYTES
    requires |q.events| < MAXIMUM_CAPACITY && (critical || Ordinary(q.events) < q.capacity)
    ensures
      var asked, charge := q.(reservations := q.reservations + 1), event.wire + SEQUENCE_CHARGE;
      Append(q, event, critical, allowance) ==
      if TotalCharge(q.events) + charge > allowance(q.reservations) then Admission(asked, Some(ResourceExhausted))
      else Admission(asked.(events := q.events + [Queued(event, charge, critical)]), None)
  {
  }

  /** The lowest channel, found in whatever order they come. */
  method LowestOf(channels: set<nat>) returns (lowest: Option<nat>)
    ensures lowest.None? <==> channels == {}
    ensures lowest.Some? ==> IsLowest(lowest.value, channels)
  {
    lowest := None;
    var unseen := channels;
    ghost var seen: set<nat> := {};
    while unseen != {}
      invariant seen + unseen == channels
      invariant if lowest.None? then seen == {} else IsLowest(lowest.value, seen)
      decreases |unseen|
    {
      var channel :| channel in unseen;
      LowestStep(lowest, seen, channel);
      if lowest.None? || channel < lowest.value {
        lowest := Some(channel);
      }
      unseen, seen := unseen - {channel}, seen + {channel};
    }
  }

  lemma LowestStep(lowest: Option<nat>, seen: set<nat>, channel: nat)
    requires if lowest.None? then seen == {} else IsLowest(lowest.value, seen)
    ensures IsLowest(if lowest.None? || channel < lowest.value then channel else lowest.value, seen + {channel})
  {
  }

  class SubscriptionQueue {
    const capacity: nat
    const budget: SubscriptionBudget
    var events: seq<Queued>
    var bytes: int
    var nextPublication: nat
    var drops: map<nat, Drop>
    var finished: bool
    var terminal: Option<StreamError>
    var terminalEvent: Option<Event>
    var terminalReady: bool
    /** A token in the channel of capacity one. */
    var notify: bool

    ghost function Value(): Queue
      reads this, budget
    {
      Queue(capacity, events, nextPublication, drops, finished, terminal, terminalEvent, terminalReady, notify,
            budget.reservations)
    }

    /** The byte count and this queue's share of the budget are the charges of
        the queued events. */
    ghost predicate Booked()
      reads this, budget
    {
      bytes == TotalCharge(events) == budget.share
    }

    ghost predicate Valid()
      reads this, budget
    {
      Booked() && Bounded(Value())
    }

    constructor (capacity: nat, budget: SubscriptionBudget)
      requires 1 <= capacity <= MAXIMUM_CAPACITY && budget.share == 0
      ensures Valid() && this.budget == budget
      ensures Value() == Empty(capacity).(reservations := budget.reservations)
    {
      this.capacity, this.budget := capacity, budget;
      events, bytes, nextPublication, drops := [], 0, 0, map[];
      finished, terminal, terminalEvent, terminalReady, notify := false, None, None, false, false;
    }

    method CountOrdinary() returns (ordinary: nat)
      ensures ordinary == Ordinary(events)
    {
      ordinary := 0;
      for i := 0 to |events|
        invariant ordinary == Ordinary(events[..i])
      {
        assert events[..i + 1][..i] == events[..i];
        if !events[i].critical {
          ordinary := ordinary + 1;
        }
      }
      assert events[..|events|] == events;
    }

    /** `appendLocked`. */
    method AppendLocked(event: Event, critical: bool) returns (err: Option<StreamError>)
      requires Booked()
      modifies this`events, this`bytes, budget
      ensures Booked() && Admission(Value(), err) == Append(old(Value()), event, critical, budget.Left())
    {
      ghost var q := Value();
      var size := event.wire + SEQUENCE_CHARGE;
      if size > MAXIMUM_EVENT_BYTES {
        AppendRefuses(q, event, critical, budget.Left());
        return Some(ResourceExhausted);
      }
      var ordinary := CountOrdinary();
      if bytes + size > MAXIMUM_QUEUE_BYTES {
        AppendRefuses(q, event, critical, budget.Left());
        return Some(ResourceExhausted);
      }
      if |events| >= MAXIMUM_CAPACITY || (!critical && ordinary >= capacity) {
        AppendRefuses(q, event, critical, budget.Left());
        return Some(CriticalBackpressure);
      }
      err := ReserveAndAppend(event, size, critical);
      AppendAsks(q, event, critical, budget.Left());
    }

    /** The end of `appendLocked`, once the queue itself has room. */
    method ReserveAndAppend(event: Event, size: nat, critical: bool) returns (err: Option<StreamError>)
      requires Booked()
      modifies this`events, this`bytes, budget
      ensures Booked() && budget.reservations == old(budget.reservations) + 1
      ensures if TotalCharge(old(events)) + size > budget.Left()(old(budget.reservations))
              then err == Some(ResourceExhausted) && events == old(events)
              else err == None && events == old(events) + [Queued(event, size, critical)]
    {
      var reserved := budget.Reserve(size);
      if !reserved {
        return Some(ResourceExhausted);
      }
      ChargeAppend(events, Queued(event, size, critical));
      events := events + [Queued(event, size, critical)];
      bytes := bytes + size;
      return None;
    }

    method SignalLocked()
      modifies this`notify
      ensures notify
    {
      notify := true;
    }

    /** The loop of `enqueueState`: the pending state, if any, is cut out and its
        charge returned. */
    method RemovePendingState()
      requires Valid()
      modifies this`events, this`bytes, budget`share
      ensures Booked() && Value() == old(Value()).(events := NonState(old(events)))
    {
      var index := 0;
      while index < |events|
        invariant index <= |events|
        invariant forall k | 0 <= k < index :: !events[k].event.payload.State?
        invariant Booked() && events == old(events)
      {
        if events[index].event.payload.State? {
          CutState(events, index);
          bytes := bytes - events[index].charge;
          var panicked := budget.Release(events[index].charge);
          assert !panicked;
          events := events[..index] + events[index + 1..];
          return;
        }
        index := index + 1;
      }
      NoStatePending(events);
    }

    /** `enqueueState`: the new state replaces the pending one, at the end. */
    method EnqueueState(event: Event) returns (err: Option<StreamError>)
      requires Valid() && event.payload.State?
      modifies this`events, this`bytes, this`notify, budget
      ensures Valid()
      ensures Admission(Value(), err) == SubscriptionLog.EnqueueState(old(Value()), event, budget.Left())
    {
      StateIsBounded(Value(), event, budget.Left());
      if finished {
        return Some(ClosedPipe);
      }
      RemovePendingState();
      err := AppendAndSignal(event);
    }

    method AppendAndSignal(event: Event) returns (err: Option<StreamError>)
      requires Booked()
      modifies this`events, this`bytes, this`notify, budget
      ensures Booked()
      ensures
        var r := Append(old(Value()), event, false, budget.Left());
        Admission(Value(), err) == if r.error.None? then Admission(Signal(r.queue), None) else r
    {
      err := AppendLocked(event, false);
      if err.Some? {
        return;
      }
      SignalLocked();
    }

    method RecordDropLocked(channel: nat, capture: nat)
      modifies this`drops
      ensures Value() == RecordDrop(old(Value()), channel, capture)
    {
      var drop := Drop(0, 0, 0);
      if channel in drops {
        drop := drops[channel];
      } else {
        drop := drop.(first := capture);
      }
      drops := drops[channel := drop.(last := capture, count := drop.count + 1)];
    }

    /** `enqueueWaveform`: behind the gap that is due; refused for want of
        ordinary capacity, the capture joins the pending drop instead. */
    method EnqueueWaveform(channel: nat, capture: nat, wire: nat, gapWire: nat) returns (err: Option<StreamError>)
      requires Valid()
      modifies this`events, this`bytes, this`notify, this`drops, budget
      ensures Valid()
      ensures Admission(Value(), err) ==
              SubscriptionLog.EnqueueWaveform(old(Value()), channel, capture, wire, gapWire, budget.Left())
    {
      WaveformIsBounded(Value(), channel, capture, wire, gapWire, budget.Left());
      if finished {
        return Some(ClosedPipe);
      }
      if channel in drops {
        err := AppendLocked(GapEvent(channel, drops[channel], gapWire), true);
        if err.Some? {
          RecordDropLocked(channel, capture);
          return;
        }
        drops := drops - {channel};
      }
      err := EnqueueBehindGap(channel, capture, wire);
    }

    method EnqueueBehindGap(channel: nat, capture: nat, wire: nat) returns (err: Option<StreamError>)
      requires Booked()
      modifies this`events, this`bytes, this`notify, this`drops, budget
      ensures Booked()
      ensures Admission(Value(), err) == AppendWaveform(old(Value()), channel, capture, wire, budget.Left())
    {
      err := AppendLocked(Event(Waveform(channel, capture), wire), false);
      if err.Some? {
        if err.value.CriticalBackpressure? {
          RecordDropLocked(channel, capture);
          return None;
        }
        return;
      }
      SignalLocked();
    }

    /** `finish`: the first one counts. */
    method Finish(event: Option<Event>, error: Option<StreamError>)
      requires Valid()
      modifies this`finished, this`terminal, this`terminalEvent, this`notify
      ensures Valid() && Value() == SubscriptionLog.Finish(old(Value()), event, error)
    {
      if finished {
        return;
      }
      finished := true;
      terminal := error;
      terminalEvent := event;
      SignalLocked();
    }

    /** `close`: nothing stays queued, and nothing charged. */
    method Close()
      requires Valid()
      modifies this, budget`share
      ensures Valid() && Value() == SubscriptionLog.Close(old(Value())) && budget.share == 0
    {
      var panicked := budget.Release(bytes);
      assert !panicked;
      bytes := 0;
      events := [];
      drops := map[];
      finished := true;
      terminalReady := true;
      terminal := None;
      terminalEvent := None;
    }

    /** The search of `prepareTerminalLocked` over the drops, in whatever order
        the map yields them. */
    method LowestDrop() returns (lowest: Option<nat>)
      ensures lowest.None? <==> drops == map[]
      ensures lowest.Some? ==> IsLowest(lowest.value, drops.Keys)
    {
      lowest := LowestOf(drops.Keys);
      assert drops.Keys == {} <==> drops == map[];
    }

    /** `prepareTerminalLocked`: one event of metadata at a time, the lowest
        channel's gap first, the report last. */
    method PrepareTerminalLocked(gapWire: nat)
      requires Booked()
      modifies this`events, this`bytes, this`drops, this`terminal, this`terminalEvent, this`terminalReady, budget
      ensures Booked() && Value() == PrepareTerminal(old(Value()), gapWire, budget.Left())
    {
      var lowest := LowestDrop();
      if lowest.Some? {
        var err := AppendLocked(GapEvent(lowest.value, drops[lowest.value], gapWire), true);
        if err.Some? {
          terminal := Some(Joined(terminal, err.value));
          terminalReady := true;
          return;
        }
        drops := drops - {lowest.value};
        return;
      }
      if terminalEvent.Some? {
        var err := AppendLocked(terminalEvent.value, true);
        if err.Some? {
          terminal := Some(Joined(terminal, err.value));
          terminalReady := true;
          return;
        }
        terminalEvent := None;
      }
      terminalReady := true;
    }

    /** The head goes out, its charge back, under the next number. */
    method Dequeue() returns (ready: Ready)
      requires Booked() && events != []
      modifies this`events, this`bytes, this`nextPublication, budget`share
      ensures Booked() && ready == Item(old(events[0].event), old(nextPublication) + 1)
      ensures Value() ==
              old(Value()).(events := old(events)[1..], published := old(nextPublication) + 1)
    {
      var queued := events[0];
      TailShrinks(events);
      events := events[1..];
      bytes := bytes - queued.charge;
      var panicked := budget.Release(queued.charge);
      assert !panicked;
      nextPublication := nextPublication + 1;
      return Item(queued.event, nextPublication);
    }

    /** `nextReady`: the head of the queue with the next publication number, or
        the terminal error, or nothing yet. */
    method NextReady(gapWire: nat) returns (ready: Ready)
      requires Valid() && (terminalEvent.Some? ==> !terminalEvent.value.payload.State?)
      modifies this, budget
      ensures Valid() && Taken(Value(), ready) == SubscriptionLog.NextReady(old(Value()), gapWire, budget.Left())
    {
      NextIsBounded(Value(), gapWire, budget.Left());
      if events == [] && finished && !terminalReady {
        PrepareTerminalLocked(gapWire);
      }
      if events != [] {
        ready := Dequeue();
        return;
      }
      if finished && terminalReady {
        if terminal.None? {
          return Over(EndOfStream);
        }
        return Over(terminal.value);
      }
      return Nothing;
    }
  }

  /** `subscriptionProducer`, as far as it numbers the captures. */
  class SubscriptionProducer {
    const queue: SubscriptionQueue
    var waveformCapture: map<nat, nat>

    constructor (queue: SubscriptionQueue)
      ensures this.queue == queue && waveformCapture == map[]
    {
      this.queue := queue;
      waveformCapture := map[];
    }

    /** Every capture gets the next number of its channel, whether or not it is
        then admitted; an oversized one never reaches the queue. */
    method EnqueueWaveform(channel: nat, wire: nat, gapWire: nat) returns (err: Option<StreamError>)
      requires queue.Valid()
      modifies this, queue, queue.budget
      ensures queue.Valid()
      ensures
        var capture := (if channel in old(waveformCapture) then old(waveformCapture)[channel] else 0) + 1;
        && waveformCapture == old(waveformCapture)[channel := capture]
        && if wire + SEQUENCE_CHARGE > MAXIMUM_EVENT_BYTES then
             err == Some(WaveformTooLarge) && queue.Value() == old(queue.Value())
           else
             Admission(queue.Value(), err) ==
             SubscriptionLog.EnqueueWaveform(old(queue.Value()), channel, capture, wire, gapWire, queue.budget.Left())
    {
      var count := 0;
      if channel in waveformCapture {
        count := waveformCapture[channel];
      }
      waveformCapture := waveformCapture[channel := count + 1];
      if wire + SEQUENCE_CHARGE > MAXIMUM_EVENT_BYTES {
        return Some(WaveformTooLarge);
      }
      err := queue.EnqueueWaveform(channel, count + 1, wire, gapWire);
    }
  }

  /** `newSubscriptionQueueWithBudget`: zero asks for the default; the rest is
      taken as it is, up to the maximum. */
  method NewSubscriptionQueue(capacity: nat, budget: SubscriptionBudget) returns (queue: Option<SubscriptionQueue>)
    requires budget.share == 0
    ensures queue.None? <==> capacity > MAXIMUM_CAPACITY
    ensures queue.Some? ==>
              && fresh(queue.value) && queue.value.Valid() && queue.value.budget == budget
              && queue.value.capacity == (if capacity == 0 then DEFAULT_CAPACITY else capacity)
              && queue.value.events == [] && queue.value.drops == map[] && !queue.value.finished
  {
    if capacity > MAXIMUM_CAPACITY {
      return None;
    }
    var effective := capacity;
    if effective == 0 {
      effective := DEFAULT_CAPACITY;
    }
    var created := new SubscriptionQueue(effective, budget);
    return Some(created);
  }
}
