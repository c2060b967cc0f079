/** What every run of a subscription guarantees, in any interleaving and with
    any allowance the other streams leave of the shared budget. */
module SubscriptionTheorems {
  import opened Wrappers
  import opened SubscriptionLog
  import opened SubscriptionStream

  // ---- The invariant ---------------------------------------------------------------

  /** Every capture of `channel` is delivered, queued or in the pending drop;
      the last one only if it was not refused with an error. */
  predicate ChannelAccounted(s: Stream, channel: nat) {
    var sent := Sent(s.delivered, s.queue);
    || Accounted(sent, s.queue.drops, channel, Captured(s, channel))
    || (s.lost == Some(channel) && Captured(s, channel) > 0 &&
        Accounted(sent, s.queue.drops, channel, Captured(s, channel) - 1))
  }

  /** What the client got of `channel` covers the captures from 1 on without
      holes, and no more than were taken. */
  predicate DeliveryAccounted(s: Stream, channel: nat) {
    && Covered(s.delivered, channel).Some?
    && Covered(s.delivered, channel).value <= Captured(s, channel)
  }

  ghost predicate Accounts(s: Stream) {
    if s.consumer.Gone? then forall channel :: DeliveryAccounted(s, channel)
    else forall channel :: ChannelAccounted(s, channel)
  }

  predicate Numbered(s: Stream) {
    && |s.numbers| == |s.delivered| == s.queue.published
    && forall i | 0 <= i < |s.numbers| :: s.numbers[i] == i + 1
  }

  predicate Phases(s: Stream) {
    && (s.queue.finished <==> s.producer.Stopped?)
    && ReportOnly(s.queue.terminalEvent)
    && (s.producer.Owing? ==> ReportOnly(s.producer.report))
    && (s.lost.Some? ==> !s.producer.Polling?)
    && (s.consumer.Gone? ==>
          s.producer.Stopped? && s.queue.events == [] && s.queue.drops == map[] &&
          s.queue.terminalReady && s.queue.terminal.None?)
  }

  /** A waiting handler that has missed nothing: if there is something to see,
      the notification is there or the producer still has its `finish` to do. */
  predicate Awake(s: Stream) {
    s.consumer.Waiting? && (s.queue.events != [] || s.queue.finished) ==> s.queue.notify || s.producer.Owing?
  }

  ghost predicate Inv(s: Stream) {
    Bounded(s.queue) && Phases(s) && Numbered(s) && Awake(s) && Accounts(s)
  }

  lemma StartInv(capacity: nat)
    requires 1 <= capacity <= MAXIMUM_CAPACITY
    ensures Inv(Start(capacity))
  {
    var s := Start(capacity);
    forall channel ensures ChannelAccounted(s, channel) {
      assert Sent(s.delivered, s.queue) == [];
    }
  }

  // ---- Each kind of turn ---------------------------------------------------------------

  /** Frame: what the queue's operations leave alone. */
  lemma AppendFrame(q: Queue, event: Event, critical: bool, allowance: Allowance)
    ensures
      var r := Append(q, event, critical, allowance);
      r.queue == q.(events := r.queue.events, reservations := r.queue.reservations)
  {
  }

  lemma StateFrame(q: Queue, event: Event, allowance: Allowance)
    ensures
      var r := EnqueueState(q, event, allowance);
      && r.queue == q.(events := r.queue.events, reservations := r.queue.reservations, notify := r.queue.notify)
      && (r.error.None? ==> r.queue.notify) && (q.notify ==> r.queue.notify)
  {
  }

  lemma WaveformFrame(q: Queue, channel: nat, capture: nat, wire: nat, gapWire: nat, allowance: Allowance)
    ensures
      var r := EnqueueWaveform(q, channel, capture, wire, gapWire, allowance);
      && r.queue == q.(events := r.queue.events, reservations := r.queue.reservations, notify := r.queue.notify,
                       drops := r.queue.drops)
      && (q.notify ==> r.queue.notify)
  {
    if channel in q.drops {
      var gap := GapEvent(channel, q.drops[channel], gapWire);
      AppendFrame(q, gap, true, allowance);
      AppendWaveformFrame(Append(q, gap, true, allowance).queue.(drops := q.drops - {channel}), channel, capture, wire,
                          allowance);
    } else {
      AppendWaveformFrame(q, channel, capture, wire, allowance);
    }
  }

  lemma AppendWaveformFrame(q: Queue, channel: nat, capture: nat, wire: nat, allowance: Allowance)
    ensures
      var r := AppendWaveform(q, channel, capture, wire, allowance);
      && r.queue == q.(events := r.queue.events, reservations := r.queue.reservations, notify := r.queue.notify,
                       drops := r.queue.drops)
      && (q.notify ==> r.queue.notify)
  {
  }

  /** The path that appends a gap, drops the waveform and signals nobody is taken
      only if something was queued before. */
  lemma QuietOnlyIfBusy(q: Queue, channel: nat, capture: nat, wire: nat, gapWire: nat, allowance: Allowance)
    requires Bounded(q) && q.events == []
    ensures
      var r := EnqueueWaveform(q, channel, capture, wire, gapWire, allowance);
      r.error.None? ==> r.queue.notify
  {
    if !q.finished && channel in q.drops {
      AppendIsOrderly(q, GapEvent(channel, q.drops[channel], gapWire), true, allowance);
    }
  }

  lemma PollStateTurn(s: Stream, event: Event, reportWire: nat, allowance: Allowance)
    requires Inv(s) && s.producer.Polling? && event.payload.State?
    ensures Inv(AfterPoll(s, EnqueueState(s.queue, event, allowance), reportWire))
  {
    var r := EnqueueState(s.queue, event, allowance);
    var s' := AfterPoll(s, r, reportWire);
    StateFrame(s.queue, event, allowance);
    StateIsBounded(s.queue, event, allowance);
    forall channel ensures ChannelAccounted(s', channel) {
      assert ChannelAccounted(s, channel);
      StateAccounts(s.delivered, s.queue, event, allowance, channel, Captured(s, channel));
    }
  }

  /** What the queue's answer `r` to the next capture of `channel` must keep. */
  predicate OfferAccounted(s: Stream, channel: nat, r: Admission, other: nat) {
    var n := Captured(s, other);
    var sent := Sent(s.delivered, r.queue);
    if other != channel then Accounted(sent, r.queue.drops, other, n)
    else
      || Accounted(sent, r.queue.drops, channel, n + 1)
      || (r.error.Some? && Accounted(sent, r.queue.drops, channel, n))
  }

  lemma OfferAccounts(s: Stream, channel: nat, wire: nat, gapWire: nat, allowance: Allowance, r: Admission, other: nat)
    requires Accounted(Sent(s.delivered, s.queue), s.queue.drops, other, Captured(s, other))
    requires r == EnqueueWaveform(s.queue, channel, Captured(s, channel) + 1, wire, gapWire, allowance)
    ensures OfferAccounted(s, channel, r, other)
  {
    if other == channel {
      OwnWaveformAccounts(s.delivered, s.queue, channel, Captured(s, channel), wire, gapWire, allowance, r);
    } else {
      OtherWaveformAccounts(s.delivered, s.queue, channel, Captured(s, channel) + 1, wire, gapWire, allowance, r,
                            other, Captured(s, other));
    }
  }

  lemma CaptureFrame(s: Stream, channel: nat, wire: nat, r: Admission, reportWire: nat)
    ensures
      var s' := CaptureWaveform(s, channel, wire, r, reportWire);
      && s'.delivered == s.delivered && s'.captured == s.captured[channel := Captured(s, channel) + 1]
      && (s'.queue == r.queue || (s'.queue == s.queue && s'.lost == Some(channel)))
      && (s'.lost == Some(channel) || (s'.lost == s.lost && s'.queue == r.queue && r.error.None?))
  {
  }

  lemma CaptureAccounts(s: Stream, channel: nat, wire: nat, r: Admission, reportWire: nat, other: nat)
    requires s.lost.None? && ChannelAccounted(s, other) && OfferAccounted(s, channel, r, other)
    ensures ChannelAccounted(CaptureWaveform(s, channel, wire, r, reportWire), other)
  {
    CaptureFrame(s, channel, wire, r, reportWire);
  }

  /** The turn, for any answer of the queue that keeps the books. */
  lemma CaptureTurn(s: Stream, channel: nat, wire: nat, r: Admission, reportWire: nat)
    requires Inv(s) && s.producer.Polling?
    requires Bounded(r.queue) && (s.queue.events == [] && r.error.None? ==> r.queue.notify)
    requires r.queue == s.queue.(events := r.queue.events, reservations := r.queue.reservations,
                                 notify := r.queue.notify, drops := r.queue.drops)
    requires s.queue.notify ==> r.queue.notify
    requires forall other :: OfferAccounted(s, channel, r, other)
    ensures Inv(CaptureWaveform(s, channel, wire, r, reportWire))
  {
    forall other ensures ChannelAccounted(CaptureWaveform(s, channel, wire, r, reportWire), other) {
      assert ChannelAccounted(s, other) && OfferAccounted(s, channel, r, other);
      CaptureAccounts(s, channel, wire, r, reportWire, other);
    }
  }

  lemma PollWaveformTurn(s: Stream, channel: nat, wire: nat, gapWire: nat, reportWire: nat, allowance: Allowance,
                         s': Stream)
    requires Inv(s) && s.producer.Polling?
    requires
      var r := EnqueueWaveform(s.queue, channel, Captured(s, channel) + 1, wire, gapWire, allowance);
      s' == CaptureWaveform(s, channel, wire, r, reportWire)
    ensures Inv(s')
  {
    var capture := Captured(s, channel) + 1;
    var r := EnqueueWaveform(s.queue, channel, capture, wire, gapWire, allowance);
    WaveformFrame(s.queue, channel, capture, wire, gapWire, allowance);
    WaveformIsBounded(s.queue, channel, capture, wire, gapWire, allowance);
    if s.queue.events == [] {
      QuietOnlyIfBusy(s.queue, channel, capture, wire, gapWire, allowance);
    }
    forall other ensures OfferAccounted(s, channel, r, other) {
      assert ChannelAccounted(s, other);
      OfferAccounts(s, channel, wire, gapWire, allowance, r, other);
    }
    CaptureTurn(s, channel, wire, r, reportWire);
  }

  lemma NextFrame(q: Queue, gapWire: nat, allowance: Allowance)
    ensures
      var t := NextReady(q, gapWire, allowance);
      && t.queue.finished == q.finished && t.queue.notify == q.notify && t.queue.capacity == q.capacity
      && (q.terminalEvent.None? || t.queue.terminalEvent.None? || t.queue.terminalEvent == q.terminalEvent)
      && (q.terminalEvent.None? ==> t.queue.terminalEvent.None?)
      && t.queue.published == q.published + (if t.ready.Item? then 1 else 0)
      && (t.ready.Item? ==> t.ready.sequence == q.published + 1)
      && (t.ready.Nothing? ==> t.queue == q && q.events == [] && !q.finished)
  {
    if q.events == [] && q.finished && !q.terminalReady {
      PrepareFrame(q, gapWire, allowance);
    }
  }

  lemma PrepareFrame(q: Queue, gapWire: nat, allowance: Allowance)
    requires q.events == []
    ensures
      var p := PrepareTerminal(q, gapWire, allowance);
      && p.finished == q.finished && p.notify == q.notify && p.capacity == q.capacity && p.published == q.published
      && (p.terminalEvent.None? || p.terminalEvent == q.terminalEvent)
      && (p.terminalReady || p.events != [])
  {
    if q.drops != map[] {
      assert q.drops.Keys != {};
    }
  }

  lemma LookTurn(s: Stream, gapWire: nat, allowance: Allowance)
    requires Inv(s) && s.consumer.Looking?
    ensures Inv(LookOnce(s, gapWire, allowance))
  {
    var t := NextReady(s.queue, gapWire, allowance);
    var s' := LookOnce(s, gapWire, allowance);
    NextFrame(s.queue, gapWire, allowance);
    NextIsBounded(s.queue, gapWire, allowance);
    forall channel ensures ChannelAccounted(s', channel) {
      assert ChannelAccounted(s, channel);
      LookTurnAccounts(s, gapWire, allowance, channel);
    }
  }

  lemma LookTurnAccounts(s: Stream, gapWire: nat, allowance: Allowance, channel: nat)
    requires ReportOnly(s.queue.terminalEvent) && ChannelAccounted(s, channel)
    ensures ChannelAccounted(LookOnce(s, gapWire, allowance), channel)
  {
    var n := Captured(s, channel);
    var t := NextReady(s.queue, gapWire, allowance);
    assert s.delivered + [] == s.delivered;
    if Accounted(Sent(s.delivered, s.queue), s.queue.drops, channel, n) {
      NextAccounts(s.delivered, s.queue, gapWire, allowance, channel, n);
    } else {
      NextAccounts(s.delivered, s.queue, gapWire, allowance, channel, n - 1);
    }
  }

  lemma DeliveredIsAccounted(s: Stream, channel: nat)
    requires ChannelAccounted(s, channel)
    ensures DeliveryAccounted(s, channel)
  {
    CoverPrefix(s.delivered, Payloads(s.queue.events), channel);
  }

  lemma CloseTurn(s: Stream)
    requires Inv(s) && s.consumer.Leaving? && s.producer.Stopped?
    ensures Inv(s.(queue := Close(s.queue), consumer := Gone))
  {
    var s' := s.(queue := Close(s.queue), consumer := Gone);
    forall channel ensures DeliveryAccounted(s', channel) {
      assert ChannelAccounted(s, channel);
      DeliveredIsAccounted(s, channel);
    }
  }

  /** Turns that touch neither what was sent nor the drops nor the counters. */
  lemma AccountsKept(s: Stream, s': Stream)
    requires Accounts(s) && s'.consumer.Gone? == s.consumer.Gone?
    requires s'.delivered == s.delivered && s'.queue.events == s.queue.events && s'.queue.drops == s.queue.drops
    requires s'.captured == s.captured && s'.lost == s.lost
    ensures Accounts(s')
  {
    forall channel ensures if s.consumer.Gone? then DeliveryAccounted(s', channel) else ChannelAccounted(s', channel) {
      assert if s.consumer.Gone? then DeliveryAccounted(s, channel) else ChannelAccounted(s, channel);
    }
  }

  lemma StepKeepsInv(s: Stream, turn: Turn, allowance: Allowance)
    requires Inv(s)
    ensures Inv(Step(s, turn, allowance))
  {
    if turn.PollState? || turn.PollWaveform? {
      if s.producer.Polling? {
        PollTurn(s, turn, allowance);
      }
    } else if turn.Look? {
      if s.consumer.Looking? {
        LookTurn(s, turn.gapWire, allowance);
      }
    } else {
      OtherTurn(s, turn, allowance);
    }
  }

  lemma PollTurn(s: Stream, turn: Turn, allowance: Allowance)
    requires Inv(s) && s.producer.Polling? && (turn.PollState? || turn.PollWaveform?)
    ensures Inv(Polled(s, turn, allowance))
  {
    if turn.PollState? {
      PollStateStep(s, turn.snapshot, turn.wire, turn.reportWire, allowance);
    } else {
      PollWaveformStep(s, turn.channel, turn.wire, turn.gapWire, turn.reportWire, allowance);
    }
  }

  lemma PollStateStep(s: Stream, snapshot: nat, wire: nat, reportWire: nat, allowance: Allowance)
    requires Inv(s) && s.producer.Polling?
    ensures Inv(Polled(s, PollState(snapshot, wire, reportWire), allowance))
  {
    PollStateTurn(s, Event(State(snapshot), wire), reportWire, allowance);
  }

  lemma PollWaveformStep(s: Stream, channel: nat, wire: nat, gapWire: nat, reportWire: nat, allowance: Allowance)
    requires Inv(s) && s.producer.Polling?
    ensures Inv(Polled(s, PollWaveform(channel, wire, gapWire, reportWire), allowance))
  {
    PollWaveformTurn(s, channel, wire, gapWire, reportWire, allowance,
                     Polled(s, PollWaveform(channel, wire, gapWire, reportWire), allowance));
  }

  lemma OtherTurn(s: Stream, turn: Turn, allowance: Allowance)
    requires Inv(s) && !turn.PollState? && !turn.PollWaveform? && !turn.Look?
    ensures Inv(Step(s, turn, allowance))
  {
    if !turn.CloseQueue? {
      AccountsKept(s, Step(s, turn, allowance));
    } else if s.consumer.Leaving? && s.producer.Stopped? {
      CloseTurn(s);
    }
  }

  lemma {:induction false} RunKeepsInv(capacity: nat, turns: seq<Turn>, allowance: Allowance)
    requires 1 <= capacity <= MAXIMUM_CAPACITY
    ensures Inv(Run(capacity, turns, allowance))
  {
    if turns == [] {
      StartInv(capacity);
    } else {
      RunKeepsInv(capacity, turns[..|turns| - 1], allowance);
      StepKeepsInv(Run(capacity, turns[..|turns| - 1], allowance), turns[|turns| - 1], allowance);
    }
  }

  /** A new state goes behind everything that was pending, and is the only one
      pending. */
  lemma NewestStateGoesLast(q: Queue, event: Event, allowance: Allowance)
    requires event.payload.State? && EnqueueState(q, event, allowance).error.None?
    ensures
      var events := EnqueueState(q, event, allowance).queue.events;
      && events != [] && events[|events| - 1].event == event && PendingStates(events) == 1
      && Payloads(events[..|events| - 1]) == Payloads(NonState(q.events))
  {
    NonStateShrinks(q.events);
    var pruned := q.(events := NonState(q.events));
    AppendIsOrderly(pruned, event, false, allowance);
    var events := Append(pruned, event, false, allowance).queue.events;
    assert events[..|events| - 1] == NonState(q.events);
  }

  // ---- Results ---------------------------------------------------------------------------

  /** Loss accounting. While the producer polls, what was delivered, is queued
      and is pending as a drop covers exactly the captures 1 to the last, for
      every channel. Once it failed, at most the last capture of one channel is
      unaccounted for. What the client has received covers, at any time and also
      after the queue was closed, captures from 1 on without holes. */
  lemma EveryCaptureIsAccounted(capacity: nat, turns: seq<Turn>, allowance: Allowance, channel: nat)
    requires 1 <= capacity <= MAXIMUM_CAPACITY
    ensures
      var s := Run(capacity, turns, allowance);
      && DeliveryAccounted(s, channel)
      && (!s.consumer.Gone? ==> ChannelAccounted(s, channel))
      && (s.producer.Polling? ==>
            Accounted(Sent(s.delivered, s.queue), s.queue.drops, channel, Captured(s, channel)))
  {
    RunKeepsInv(capacity, turns, allowance);
    var s := Run(capacity, turns, allowance);
    if s.consumer.Gone? {
      assert DeliveryAccounted(s, channel);
    } else {
      assert ChannelAccounted(s, channel);
      DeliveredIsAccounted(s, channel);
    }
  }

  /** A polling error reaches the queue with its report, a cancellation without
      one; either ends the producer and wakes the handler. */
  lemma FailureIsStaged(s: Stream, cause: nat, reportWire: nat, allowance: Allowance)
    requires s.producer.Polling? && !s.queue.finished
    ensures
      var failed := Step(Step(s, PollFails(cause, reportWire), allowance), FinishQueue, allowance);
      var cancelled := Step(Step(s, ProducerCanceled(cause), allowance), FinishQueue, allowance);
      var finished := s.queue.(finished := true, notify := true, terminal := Some(Failure(cause)));
      && cancelled == s.(producer := Stopped, queue := finished.(terminalEvent := None))
      && failed ==
         s.(producer := Stopped, queue := finished.(terminalEvent := Some(Event(ServiceError(0), reportWire))))
  {
  }

  /** What one look finds: the head, published under the next number; nothing,
      while the stream goes on with an empty queue; or the way to the end. */
  lemma LookOutcome(q: Queue, gapWire: nat, allowance: Allowance)
    ensures q.events != [] ==>
              NextReady(q, gapWire, allowance) ==
              Taken(q.(events := q.events[1..], published := q.published + 1),
                    Item(q.events[0].event, q.published + 1))
    ensures q.events == [] && !q.finished ==> NextReady(q, gapWire, allowance) == Taken(q, Nothing)
    ensures q.events == [] && q.finished ==> !NextReady(q, gapWire, allowance).ready.Nothing?
  {
    NextFrame(q, gapWire, allowance);
  }

  /** A full queue is the slow client's loss, not the stream's end: in every run,
      a capture of a channel with no drop pending never leaves the producer with
      a backpressure error. */
  lemma FullQueueOnlyDrops(capacity: nat, turns: seq<Turn>, allowance: Allowance, channel: nat, wire: nat, gapWire: nat,
                           reportWire: nat)
    requires 1 <= capacity <= MAXIMUM_CAPACITY
    requires Run(capacity, turns, allowance).producer.Polling?
    requires channel !in Run(capacity, turns, allowance).queue.drops
    ensures
      var s := Run(capacity, turns, allowance);
      var s' := Step(s, PollWaveform(channel, wire, gapWire, reportWire), allowance);
      && (s'.producer.Owing? ==>
            (s'.producer.error == WaveformTooLarge <==> wire + 11 > 0x200_0000)
            && (s'.producer.error == ResourceExhausted <==> wire + 11 <= 0x200_0000))
      && (wire + 11 <= 0x200_0000 && !IsTooLarge(s.queue, wire) && IsFull(s.queue, false) ==>
            s'.producer.Polling? && s'.queue.events == s.queue.events
            && channel in s'.queue.drops
            && s'.queue.drops[channel] == Drop(Captured(s', channel), Captured(s', channel), 1))
  {
    RunKeepsInv(capacity, turns, allowance);
    PollOutcome(Run(capacity, turns, allowance), channel, wire, gapWire, reportWire, allowance);
  }

  lemma PollOutcome(s: Stream, channel: nat, wire: nat, gapWire: nat, reportWire: nat, allowance: Allowance)
    requires s.producer.Polling? && !s.queue.finished && channel !in s.queue.drops
    ensures
      var s' := Step(s, PollWaveform(channel, wire, gapWire, reportWire), allowance);
      var r := WithoutGap(s.queue, channel, Captured(s, channel) + 1, wire, allowance);
      s' == CaptureWaveform(s, channel, wire, r, reportWire)
  {
    WaveformOutcome(s.queue, channel, Captured(s, channel) + 1, wire, gapWire, allowance);
  }

  /** The limits hold at any time; publication numbers are 1, 2, 3, … */
  lemma LimitsAndNumbers(capacity: nat, turns: seq<Turn>, allowance: Allowance)
    requires 1 <= capacity <= MAXIMUM_CAPACITY
    ensures
      var s := Run(capacity, turns, allowance);
      && TotalCharge(s.queue.events) <= MAXIMUM_QUEUE_BYTES
      && |s.queue.events| <= MAXIMUM_CAPACITY && Ordinary(s.queue.events) <= s.queue.capacity
      && PendingStates(s.queue.events) <= 1
      && |s.numbers| == |s.delivered|
      && forall i | 0 <= i < |s.numbers| :: s.numbers[i] == i + 1
  {
    RunKeepsInv(capacity, turns, allowance);
  }

  /** No lost wake-up. If a waiting handler would find anything, it can wake up
      now, or it can as soon as the failed producer has finished the queue. */
  lemma NoLostWakeUp(capacity: nat, turns: seq<Turn>, allowance: Allowance, gapWire: nat)
    requires 1 <= capacity <= MAXIMUM_CAPACITY
    requires Run(capacity, turns, allowance).consumer.Waiting?
    requires !NextReady(Run(capacity, turns, allowance).queue, gapWire, allowance).ready.Nothing?
    ensures
      var s := Run(capacity, turns, allowance);
      || Step(s, Wake, allowance).consumer.Looking?
      || (s.producer.Owing? && Step(Step(s, FinishQueue, allowance), Wake, allowance).consumer.Looking?)
  {
    RunKeepsInv(capacity, turns, allowance);
    NextFrame(Run(capacity, turns, allowance).queue, gapWire, allowance);
  }

  /** What may still be attempted on a queue when its handler is gone. */
  datatype Operation =
    | OfferState(state: Event)
    | OfferWaveform(channel: nat, capture: nat, wire: nat, gapWire: nat)
    | FinishWith(report: Option<Event>, error: Option<StreamError>)
    | TakeNext(nextGapWire: nat)
    | CloseAgain

  ghost function Operate(q: Queue, operation: Operation, allowance: Allowance): Queue {
    match operation
    case OfferState(state) => EnqueueState(q, state, allowance).queue
    case OfferWaveform(channel, capture, wire, gapWire) =>
      EnqueueWaveform(q, channel, capture, wire, gapWire, allowance).queue
    case FinishWith(report, error) => Finish(q, report, error)
    case TakeNext(gapWire) => NextReady(q, gapWire, allowance).queue
    case CloseAgain => Close(q)
  }

  ghost function OperateAll(q: Queue, operations: seq<Operation>, allowance: Allowance): Queue {
    if operations == [] then q
    else Operate(OperateAll(q, operations[..|operations| - 1], allowance), operations[|operations| - 1], allowance)
  }

  /** A closed queue holds nothing, and whatever is attempted on it asks nothing
      of the shared budget, adds nothing and finds the end of the stream. */
  lemma {:induction false} ClosedReservesNothing(q: Queue, operations: seq<Operation>, allowance: Allowance,
                                                 gapWire: nat)
    ensures
      var closed := OperateAll(Close(q), operations, allowance);
      && closed.events == [] && TotalCharge(closed.events) == 0 && closed.drops == map[]
      && closed.reservations == q.reservations && closed.notify == q.notify
      && NextReady(closed, gapWire, allowance).ready == Over(EndOfStream)
    ensures OperateAll(Close(q), operations, allowance) == Close(q)
  {
    if operations != [] {
      ClosedReservesNothing(q, operations[..|operations| - 1], allowance, gapWire);
    }
  }

  /** Once `Subscribe` has returned, nothing of the stream is charged to the
      shared budget, and no turn changes anything any more. */
  lemma ClosedForGood(capacity: nat, turns: seq<Turn>, allowance: Allowance, turn: Turn)
    requires 1 <= capacity <= MAXIMUM_CAPACITY
    requires Run(capacity, turns, allowance).consumer.Gone?
    ensures
      var s := Run(capacity, turns, allowance);
      TotalCharge(s.queue.events) == 0 && Step(s, turn, allowance) == s
  {
    RunKeepsInv(capacity, turns, allowance);
  }
}
