/** The queue of one subscription as a value: what each operation makes of it.
    Operations hold the queue's mutex, so each is one atomic step. */
module SubscriptionLog {
  import opened Wrappers

  const MAXIMUM_EVENT_BYTES := 0x200_0000 // 32 MiB
  const MAXIMUM_QUEUE_BYTES := 0x400_0000 // 64 MiB
  const MAXIMUM_CAPACITY := 1024
  const DEFAULT_CAPACITY := 8
  const SEQUENCE_CHARGE := 11

  /** Channels are numbered as in the wire enumeration, which orders them. */
  datatype Payload =
    | State(snapshot: nat)
    | Waveform(channel: nat, capture: nat)
    | Gap(channel: nat, first: nat, count: nat, last: nat)
    | ServiceError(report: nat)

  /** An event and its serialized size before it gets a publication number. */
  datatype Event = Event(payload: Payload, wire: nat)

  datatype Queued = Queued(event: Event, charge: nat, critical: bool)

  datatype Drop = Drop(first: nat, last: nat, count: nat)

  datatype StreamError =
    | ClosedPipe
    | ResourceExhausted
    | CriticalBackpressure
    | WaveformTooLarge
    | EndOfStream
    | Failure(cause: nat)
    | Joined(original: Option<StreamError>, admission: StreamError)

  /** What the shared budget leaves to this queue, other queues' charges
      deducted, at each of its reservations. */
  type Allowance = nat -> int

  datatype Queue = Queue(
    capacity: nat,
    events: seq<Queued>,
    published: nat,
    drops: map<nat, Drop>,
    finished: bool,
    terminal: Option<StreamError>,
    terminalEvent: Option<Event>,
    terminalReady: bool,
    notify: bool,
    reservations: nat)

  datatype Admission = Admission(queue: Queue, error: Option<StreamError>)

  datatype Ready = Item(event: Event, sequence: nat) | Over(error: StreamError) | Nothing

  datatype Taken = Taken(queue: Queue, ready: Ready)

  function TotalCharge(events: seq<Queued>): nat {
    if events == [] then 0 else TotalCharge(events[..|events| - 1]) + events[|events| - 1].charge
  }

  function Ordinary(events: seq<Queued>): nat {
    if events == [] then 0
    else Ordinary(events[..|events| - 1]) + if events[|events| - 1].critical then 0 else 1
  }

  function PendingStates(events: seq<Queued>): nat {
    if events == [] then 0
    else PendingStates(events[..|events| - 1]) + if events[|events| - 1].event.payload.State? then 1 else 0
  }

  function NonState(events: seq<Queued>): seq<Queued> {
    if events == [] then []
    else
      NonState(events[..|events| - 1]) +
      if events[|events| - 1].event.payload.State? then [] else [events[|events| - 1]]
  }

  function Empty(capacity: nat): Queue {
    Queue(capacity, [], 0, map[], false, None, None, false, false, 0)
  }

  /** `appendLocked`. */
  function Append(q: Queue, event: Event, critical: bool, allowance: Allowance): Admission {
    var charge := event.wire + SEQUENCE_CHARGE;
    if charge > MAXIMUM_EVENT_BYTES then Admission(q, Some(ResourceExhausted))
    else if TotalCharge(q.events) + charge > MAXIMUM_QUEUE_BYTES then Admission(q, Some(ResourceExhausted))
    else if |q.events| >= MAXIMUM_CAPACITY || (!critical && Ordinary(q.events) >= q.capacity) then
      Admission(q, Some(CriticalBackpressure))
    else
      var asked := q.(reservations := q.reservations + 1);
      if TotalCharge(q.events) + charge > allowance(q.reservations) then Admission(asked, Some(ResourceExhausted))
      else Admission(asked.(events := q.events + [Queued(event, charge, critical)]), None)
  }

  /** `recordDropLocked`. */
  function RecordDrop(q: Queue, channel: nat, capture: nat): Queue {
    var drop := if channel in q.drops then q.drops[channel] else Drop(capture, capture, 0);
    q.(drops := q.drops[channel := Drop(drop.first, capture, drop.count + 1)])
  }

  function GapEvent(channel: nat, drop: Drop, wire: nat): Event {
    Event(Gap(channel, drop.first, drop.count, drop.last), wire)
  }

  function Signal(q: Queue): Queue {
    q.(notify := true)
  }

  /** `enqueueState`. */
  function EnqueueState(q: Queue, event: Event, allowance: Allowance): Admission {
    if q.finished then Admission(q, Some(ClosedPipe))
    else
      var r := Append(q.(events := NonState(q.events)), event, false, allowance);
      if r.error.None? then Admission(Signal(r.queue), None) else r
  }

  /** `enqueueWaveform`; `gapWire` is the size of the gap event if one is due. */
  function EnqueueWaveform(q: Queue, channel: nat, capture: nat, wire: nat, gapWire: nat,
                           allowance: Allowance): Admission {
    if q.finished then Admission(q, Some(ClosedPipe))
    else if channel in q.drops then
      var gap := Append(q, GapEvent(channel, q.drops[channel], gapWire), true, allowance);
      EnqueueBehindGap(q, channel, capture, wire, gap, allowance)
    else AppendWaveform(q, channel, capture, wire, allowance)
  }

  /** `gap` is what came of the gap event. */
  function EnqueueBehindGap(q: Queue, channel: nat, capture: nat, wire: nat, gap: Admission,
                            allowance: Allowance): Admission {
    if gap.error.Some? then Admission(RecordDrop(gap.queue, channel, capture), gap.error)
    else AppendWaveform(gap.queue.(drops := q.drops - {channel}), channel, capture, wire, allowance)
  }

  /** The part of `enqueueWaveform` behind the gap. */
  function AppendWaveform(q: Queue, channel: nat, capture: nat, wire: nat, allowance: Allowance): Admission {
    var w := Append(q, Event(Waveform(channel, capture), wire), false, allowance);
    match w.error
    case None => Admission(Signal(w.queue), None)
    case Some(CriticalBackpressure) => Admission(RecordDrop(w.queue, channel, capture), None)
    case Some(_) => w
  }

  /** `finish`. */
  function Finish(q: Queue, report: Option<Event>, error: Option<StreamError>): Queue {
    if q.finished then q
    else Signal(q.(finished := true, terminal := error, terminalEvent := report))
  }

  /** `close`. */
  function Close(q: Queue): Queue {
    q.(events := [], drops := map[], finished := true, terminalReady := true, terminal := None, terminalEvent := None)
  }

  ghost predicate IsLowest(channel: nat, channels: set<nat>) {
    channel in channels && forall c | c in channels :: channel <= c
  }

  ghost function Lowest(channels: set<nat>): (channel: nat)
    requires channels != {}
    ensures IsLowest(channel, channels)
  {
    LowestExists(channels);
    var channel :| IsLowest(channel, channels);
    channel
  }

  lemma {:induction false} LowestExists(channels: set<nat>)
    requires channels != {}
    ensures exists channel :: IsLowest(channel, channels)
    decreases |channels|
  {
    var c :| c in channels;
    if channels == {c} {
      assert IsLowest(c, channels);
    } else {
      assert channels - {c} != {};
      LowestExists(channels - {c});
      var d :| IsLowest(d, channels - {c});
      var lowest := if c < d then c else d;
      forall e | e in channels ensures lowest <= e {
        assert e == c || e in channels - {c};
      }
      assert IsLowest(lowest, channels);
    }
  }

  /** `prepareTerminalLocked`. */
  ghost function PrepareTerminal(q: Queue, gapWire: nat, allowance: Allowance): Queue {
    if q.drops != map[] then
      assert q.drops.Keys != {};
      var channel := Lowest(q.drops.Keys);
      var g := Append(q, GapEvent(channel, q.drops[channel], gapWire), true, allowance);
      if g.error.Some? then g.queue.(terminal := Some(Joined(q.terminal, g.error.value)), terminalReady := true)
      else g.queue.(drops := q.drops - {channel})
    else if q.terminalEvent.Some? then
      var t := Append(q, q.terminalEvent.value, true, allowance);
      if t.error.Some? then t.queue.(terminal := Some(Joined(q.terminal, t.error.value)), terminalReady := true)
      else t.queue.(terminalEvent := None, terminalReady := true)
    else q.(terminalReady := true)
  }

  /** `nextReady`. */
  ghost function NextReady(q: Queue, gapWire: nat, allowance: Allowance): Taken {
    var p := if q.events == [] && q.finished && !q.terminalReady then PrepareTerminal(q, gapWire, allowance) else q;
    if p.events != [] then
      Taken(p.(events := p.events[1..], published := p.published + 1), Item(p.events[0].event, p.published + 1))
    else if p.finished && p.terminalReady then
      Taken(p, Over(if p.terminal.None? then EndOfStream else p.terminal.value))
    else Taken(p, Nothing)
  }

  // ---- Bounds -----------------------------------------------------------------

  /** Never more than one pending state, ordinary events within the configured
      capacity, everything within the hard limits. */
  ghost predicate Bounded(q: Queue) {
    && 1 <= q.capacity <= MAXIMUM_CAPACITY
    && |q.events| <= MAXIMUM_CAPACITY
    && TotalCharge(q.events) <= MAXIMUM_QUEUE_BYTES
    && Ordinary(q.events) <= q.capacity
    && PendingStates(q.events) <= 1
  }

  /** An admitted event goes to the end; a refused one leaves every event in
      place. */
  lemma AppendIsOrderly(q: Queue, event: Event, critical: bool, allowance: Allowance)
    ensures
      var r := Append(q, event, critical, allowance);
      && (r.error.None? ==> r.queue.events == q.events + [Queued(event, event.wire + SEQUENCE_CHARGE, critical)])
      && (r.error.Some? ==> r.queue.events == q.events)
      && r.queue == q.(events := r.queue.events, reservations := r.queue.reservations)
      && (r.error.None? ==> TotalCharge(r.queue.events) <= allowance(q.reservations))
  {
    var charge := event.wire + SEQUENCE_CHARGE;
    assert (q.events + [Queued(event, charge, critical)])[..|q.events|] == q.events;
  }

  lemma ChargeAppend(events: seq<Queued>, e: Queued)
    ensures TotalCharge(events + [e]) == TotalCharge(events) + e.charge
  {
    assert (events + [e])[..|events|] == events;
  }

  lemma CountsAppend(events: seq<Queued>, e: Queued)
    ensures Ordinary(events + [e]) == Ordinary(events) + if e.critical then 0 else 1
    ensures PendingStates(events + [e]) == PendingStates(events) + if e.event.payload.State? then 1 else 0
  {
    assert (events + [e])[..|events|] == events;
  }

  lemma AppendIsBounded(q: Queue, event: Event, critical: bool, allowance: Allowance)
    requires Bounded(q) && (event.payload.State? ==> PendingStates(q.events) == 0)
    ensures Bounded(Append(q, event, critical, allowance).queue)
  {
    ChargeAppend(q.events, Queued(event, event.wire + SEQUENCE_CHARGE, critical));
    CountsAppend(q.events, Queued(event, event.wire + SEQUENCE_CHARGE, critical));
  }

  lemma {:induction false} NonStateShrinks(events: seq<Queued>)
    ensures |NonState(events)| <= |events| && TotalCharge(NonState(events)) <= TotalCharge(events)
    ensures Ordinary(NonState(events)) <= Ordinary(events) && PendingStates(NonState(events)) == 0
  {
    if events != [] {
      var front, last := events[..|events| - 1], events[|events| - 1];
      NonStateShrinks(front);
      assert NonState(front) + [] == NonState(front);
      assert (NonState(front) + [last])[..|NonState(front)|] == NonState(front);
    }
  }

  lemma {:induction false} NoStatePending(events: seq<Queued>)
    requires forall k | 0 <= k < |events| :: !events[k].event.payload.State?
    ensures NonState(events) == events
  {
    if events != [] {
      NoStatePending(events[..|events| - 1]);
    }
  }

  lemma {:induction false} StateCounted(events: seq<Queued>, i: nat)
    requires i < |events| && events[i].event.payload.State?
    ensures PendingStates(events) >= 1
  {
    if i < |events| - 1 {
      StateCounted(events[..|events| - 1], i);
    }
  }

  /** If only the last event is a state, the others stay as they are. */
  lemma OnlyLastIsState(front: seq<Queued>, last: Queued)
    requires last.event.payload.State? && PendingStates(front + [last]) <= 1
    ensures NonState(front) == front
  {
    assert (front + [last])[..|front|] == front;
    forall k | 0 <= k < |front| ensures !front[k].event.payload.State? {
      if front[k].event.payload.State? {
        StateCounted(front, k);
      }
    }
    NoStatePending(front);
  }

  lemma NonStateAppend(front: seq<Queued>, last: Queued)
    ensures NonState(front + [last]) == NonState(front) + if last.event.payload.State? then [] else [last]
    ensures PendingStates(front + [last]) == PendingStates(front) + if last.event.payload.State? then 1 else 0
    ensures TotalCharge(front + [last]) == TotalCharge(front) + last.charge
  {
    assert (front + [last])[..|front|] == front;
  }

  /** The one pending state can be cut out where it is found. */
  lemma {:induction false} CutState(events: seq<Queued>, i: nat)
    requires i < |events| && events[i].event.payload.State? && PendingStates(events) <= 1
    ensures NonState(events) == events[..i] + events[i + 1..]
    ensures TotalCharge(events) == TotalCharge(events[..i] + events[i + 1..]) + events[i].charge
  {
    var n := |events| - 1;
    var front, last := events[..n], events[n];
    assert events == front + [last];
    NonStateAppend(front, last);
    if i == n {
      OnlyLastIsState(front, last);
      assert events[..i] + events[i + 1..] == front;
    } else {
      StateCounted(front, i);
      CutState(front, i);
      var kept := front[..i] + front[i + 1..];
      assert events[..i] + events[i + 1..] == kept + [last];
      NonStateAppend(kept, last);
    }
  }

  // ---- Outcomes ---------------------------------------------------------------

  /** An event of this size is beyond the byte limits of the queue. */
  predicate IsTooLarge(q: Queue, wire: nat) {
    wire + 11 > 0x200_0000 || TotalCharge(q.events) + wire + 11 > 0x400_0000
  }

  /** The counts leave no room: 1024 events at most, and of ordinary ones no more
      than the capacity. */
  predicate IsFull(q: Queue, critical: bool) {
    |q.events| >= 1024 || (!critical && Ordinary(q.events) >= q.capacity)
  }

  /** The shared budget has room for one more event of this size. */
  predicate IsGranted(q: Queue, wire: nat, allowance: Allowance) {
    TotalCharge(q.events) + wire + 11 <= allowance(q.reservations)
  }

  /** `q` after the reservation that `event` needs. */
  function Asked(q: Queue): Queue {
    q.(reservations := q.reservations + 1)
  }

  function Appended(q: Queue, event: Event, critical: bool): Queue {
    Asked(q).(events := q.events + [Queued(event, event.wire + 11, critical)])
  }

  /** Admission, by cases: too large for the queue, no room in it, no budget left,
      or appended. */
  lemma AppendOutcome(q: Queue, event: Event, critical: bool, allowance: Allowance)
    ensures
      Append(q, event, critical, allowance) ==
      if IsTooLarge(q, event.wire) then Admission(q, Some(ResourceExhausted))
      else if IsFull(q, critical) then Admission(q, Some(CriticalBackpressure))
      else if !IsGranted(q, event.wire, allowance) then Admission(Asked(q), Some(ResourceExhausted))
      else Admission(Appended(q, event, critical), None)
  {
  }

  /** What becomes of a capture with no drop of its channel pending: it is a drop
      of its own if the queue has no room, and no error; it is the last event,
      and signalled, if everything grants it; otherwise nothing is recorded and
      the stream is out of resources. */
  lemma WaveformOutcome(q: Queue, channel: nat, capture: nat, wire: nat, gapWire: nat, allowance: Allowance)
    requires !q.finished && channel !in q.drops
    ensures
      EnqueueWaveform(q, channel, capture, wire, gapWire, allowance) == WithoutGap(q, channel, capture, wire, allowance)
  {
    AppendOutcome(q, Event(Waveform(channel, capture), wire), false, allowance);
  }

  function WithoutGap(q: Queue, channel: nat, capture: nat, wire: nat, allowance: Allowance): Admission {
    var drop := if channel in q.drops then q.drops[channel] else Drop(capture, capture, 0);
    if IsTooLarge(q, wire) then Admission(q, Some(ResourceExhausted))
    else if IsFull(q, false) then
      Admission(q.(drops := q.drops[channel := Drop(drop.first, capture, drop.count + 1)]), None)
    else if !IsGranted(q, wire, allowance) then Admission(Asked(q), Some(ResourceExhausted))
    else Admission(Appended(q, Event(Waveform(channel, capture), wire), false).(notify := true), None)
  }

  /** With a drop pending its gap goes first, past the ordinary capacity; if it
      cannot, the capture joins the drop and the refusal is the stream's error. */
  lemma GapOutcome(q: Queue, channel: nat, capture: nat, wire: nat, gapWire: nat, allowance: Allowance)
    requires !q.finished && channel in q.drops
    ensures
      var drop := q.drops[channel];
      var gap := Event(Gap(channel, drop.first, drop.count, drop.last), gapWire);
      var joined := q.drops[channel := Drop(drop.first, capture, drop.count + 1)];
      EnqueueWaveform(q, channel, capture, wire, gapWire, allowance) ==
      if IsTooLarge(q, gapWire) then Admission(q.(drops := joined), Some(ResourceExhausted))
      else if |q.events| >= 1024 then Admission(q.(drops := joined), Some(CriticalBackpressure))
      else if !IsGranted(q, gapWire, allowance) then Admission(Asked(q).(drops := joined), Some(ResourceExhausted))
      else WithoutGap(Appended(q, gap, true).(drops := q.drops - {channel}), channel, capture, wire, allowance)
  {
    var drop := q.drops[channel];
    var gap := Event(Gap(channel, drop.first, drop.count, drop.last), gapWire);
    AppendOutcome(q, gap, true, allowance);
    AppendOutcome(Appended(q, gap, true).(drops := q.drops - {channel}), Event(Waveform(channel, capture), wire), false,
                  allowance);
  }

  /** A state takes the place of the pending one before it asks for room. */
  lemma StateOutcome(q: Queue, event: Event, allowance: Allowance)
    requires !q.finished
    ensures
      var rest := q.(events := NonState(q.events));
      EnqueueState(q, event, allowance) ==
      if IsTooLarge(rest, event.wire) then Admission(rest, Some(ResourceExhausted))
      else if IsFull(rest, false) then Admission(rest, Some(CriticalBackpressure))
      else if !IsGranted(rest, event.wire, allowance) then Admission(Asked(rest), Some(ResourceExhausted))
      else Admission(Appended(rest, event, false).(notify := true), None)
  {
    AppendOutcome(q.(events := NonState(q.events)), event, false, allowance);
  }

  /** The first `finish` stages its report and its error, and wakes the handler;
      after it, whatever is finished with or offered is refused. */
  lemma FinishOutcome(q: Queue, report: Option<Event>, error: Option<StreamError>, later: Option<Event>,
                      laterError: Option<StreamError>, event: Event, channel: nat, capture: nat, gapWire: nat,
                      allowance: Allowance)
    requires !q.finished
    ensures
      var f := Finish(q, report, error);
      && f.terminalEvent == report && f.terminal == error && f.finished && f.notify
      && f.events == q.events && f.drops == q.drops && f.terminalReady == q.terminalReady
      && Finish(f, later, laterError) == f
      && EnqueueState(f, event, allowance) == Admission(f, Some(ClosedPipe))
      && EnqueueWaveform(f, channel, capture, event.wire, gapWire, allowance) == Admission(f, Some(ClosedPipe))
  {
  }

  // ---- Bounds of the operations --------------------------------------------------

  lemma StateIsBounded(q: Queue, event: Event, allowance: Allowance)
    requires Bounded(q)
    ensures Bounded(EnqueueState(q, event, allowance).queue)
  {
    if !q.finished {
      NonStateShrinks(q.events);
      AppendIsBounded(q.(events := NonState(q.events)), event, false, allowance);
    }
  }

  lemma WaveformIsBounded(q: Queue, channel: nat, capture: nat, wire: nat, gapWire: nat, allowance: Allowance)
    requires Bounded(q)
    ensures Bounded(EnqueueWaveform(q, channel, capture, wire, gapWire, allowance).queue)
  {
    if !q.finished && channel in q.drops {
      var gap := GapEvent(channel, q.drops[channel], gapWire);
      AppendIsBounded(q, gap, true, allowance);
      var g := Append(q, gap, true, allowance);
      AppendWaveformIsBounded(g.queue.(drops := q.drops - {channel}), channel, capture, wire, allowance);
    } else {
      AppendWaveformIsBounded(q, channel, capture, wire, allowance);
    }
  }

  lemma AppendWaveformIsBounded(q: Queue, channel: nat, capture: nat, wire: nat, allowance: Allowance)
    requires Bounded(q)
    ensures Bounded(AppendWaveform(q, channel, capture, wire, allowance).queue)
  {
    AppendIsBounded(q, Event(Waveform(channel, capture), wire), false, allowance);
  }

  lemma {:induction false} TailShrinks(events: seq<Queued>)
    requires events != []
    ensures TotalCharge(events) == events[0].charge + TotalCharge(events[1..])
    ensures Ordinary(events[1..]) <= Ordinary(events) && PendingStates(events[1..]) <= PendingStates(events)
  {
    if |events| > 1 {
      TailShrinks(events[..|events| - 1]);
      assert events[..|events| - 1][1..] == events[1..][..|events| - 2];
    }
  }

  /** `q.terminalEvent` is the producer's report, not a state. */
  lemma NextIsBounded(q: Queue, gapWire: nat, allowance: Allowance)
    requires Bounded(q) && (q.terminalEvent.Some? ==> !q.terminalEvent.value.payload.State?)
    ensures Bounded(NextReady(q, gapWire, allowance).queue)
  {
    var p := q;
    if q.events == [] && q.finished && !q.terminalReady {
      if q.drops != map[] {
        assert q.drops.Keys != {};
        var channel := Lowest(q.drops.Keys);
        AppendIsBounded(q, GapEvent(channel, q.drops[channel], gapWire), true, allowance);
      } else if q.terminalEvent.Some? {
        AppendIsBounded(q, q.terminalEvent.value, true, allowance);
      }
      p := PrepareTerminal(q, gapWire, allowance);
    }
    if p.events != [] {
      TailShrinks(p.events);
    }
  }
}
