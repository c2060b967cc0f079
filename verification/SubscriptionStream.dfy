/** One subscription as a whole: the producer that polls the instrument, the
    queue, and the stream handler that publishes, interleaved in any order. Each
    step is one critical section of the queue's mutex, or one wait. */
module SubscriptionStream {
  import opened Wrappers
  import opened SubscriptionLog

  // ---- The machine --------------------------------------------------------------

  /** The producer polls until something fails, then owes the queue its
      `finish`. */
  datatype Producer = Polling | Owing(report: Option<Event>, error: StreamError) | Stopped

  /** The handler looks into the queue, or waits for the notification after it
      saw nothing ready, until it leaves the loop; then it closes the queue. */
  datatype Consumer = Looking | Waiting | Leaving | Gone

  /** Besides the queue: the capture counters, the channel whose last capture
      was refused, and what was published under which numbers. */
  datatype Stream = Stream(
    queue: Queue,
    producer: Producer,
    consumer: Consumer,
    captured: map<nat, nat>,
    lost: Option<nat>,
    delivered: seq<Payload>,
    numbers: seq<nat>)

  datatype Turn =
    | PollState(snapshot: nat, wire: nat, reportWire: nat)
    | PollWaveform(channel: nat, wire: nat, gapWire: nat, reportWire: nat)
    | PollFails(cause: nat, reportWire: nat)
    | ProducerCanceled(cause: nat)
    | FinishQueue
    | Look(gapWire: nat)
    | Wake
    | Leave
    | CloseQueue

  function Captured(s: Stream, channel: nat): nat {
    if channel in s.captured then s.captured[channel] else 0
  }

  /** A polling error is staged with a report of its own; the report's text does
      not matter here, its size is `wire`. */
  function Failed(s: Stream, error: StreamError, wire: nat): Stream {
    s.(producer := Owing(Some(Event(ServiceError(0), wire)), error))
  }

  function AfterPoll(s: Stream, r: Admission, reportWire: nat): Stream {
    var after := s.(queue := r.queue);
    if r.error.None? then after else Failed(after, r.error.value, reportWire)
  }

  /** `subscriptionProducer.enqueueWaveform`: the counter advances before the
      size check and before admission. `r` is what the queue makes of the new
      capture, if it gets to see it. */
  function CaptureWaveform(s: Stream, channel: nat, wire: nat, r: Admission, reportWire: nat): Stream {
    var counted := s.(captured := s.captured[channel := Captured(s, channel) + 1]);
    if wire + SEQUENCE_CHARGE > MAXIMUM_EVENT_BYTES then
      Failed(counted.(lost := Some(channel)), WaveformTooLarge, reportWire)
    else AfterPoll(if r.error.None? then counted else counted.(lost := Some(channel)), r, reportWire)
  }

  ghost function LookOnce(s: Stream, gapWire: nat, allowance: Allowance): Stream {
    var taken := NextReady(s.queue, gapWire, allowance);
    match taken.ready
    case Item(event, sequence) =>
      s.(queue := taken.queue, delivered := s.delivered + [event.payload], numbers := s.numbers + [sequence])
    case Over(_) => s.(queue := taken.queue, consumer := Leaving)
    case Nothing => s.(queue := taken.queue, consumer := Waiting)
  }

  /** What a polling producer does with a state or a waveform. */
  function Polled(s: Stream, turn: Turn, allowance: Allowance): Stream
    requires turn.PollState? || turn.PollWaveform?
  {
    if turn.PollState? then
      AfterPoll(s, EnqueueState(s.queue, Event(State(turn.snapshot), turn.wire), allowance), turn.reportWire)
    else
      var capture := Captured(s, turn.channel) + 1;
      var r := EnqueueWaveform(s.queue, turn.channel, capture, turn.wire, turn.gapWire, allowance);
      CaptureWaveform(s, turn.channel, turn.wire, r, turn.reportWire)
  }

  /** One turn; a turn that is not possible now changes nothing. */
  ghost function Step(s: Stream, turn: Turn, allowance: Allowance): Stream {
    match turn
    case PollState(_, _, _) => if !s.producer.Polling? then s else Polled(s, turn, allowance)
    case PollWaveform(_, _, _, _) => if !s.producer.Polling? then s else Polled(s, turn, allowance)
    case PollFails(cause, reportWire) =>
      if !s.producer.Polling? then s else Failed(s, Failure(cause), reportWire)
    case ProducerCanceled(cause) =>
      if !s.producer.Polling? then s else s.(producer := Owing(None, Failure(cause)))
    case FinishQueue =>
      if !s.producer.Owing? then s
      else s.(queue := Finish(s.queue, s.producer.report, Some(s.producer.error)), producer := Stopped)
    case Look(gapWire) => if !s.consumer.Looking? then s else LookOnce(s, gapWire, allowance)
    case Wake =>
      if !s.consumer.Waiting? || !s.queue.notify then s
      else s.(queue := s.queue.(notify := false), consumer := Looking)
    case Leave => if s.consumer.Gone? then s else s.(consumer := Leaving)
    case CloseQueue =>
      // Subscribe defers closing the queue until the producer is done.
      if !s.consumer.Leaving? || !s.producer.Stopped? then s
      else s.(queue := Close(s.queue), consumer := Gone)
  }

  function Start(capacity: nat): Stream {
    Stream(Empty(capacity), Polling, Looking, map[], None, [], [])
  }

  ghost function Run(capacity: nat, turns: seq<Turn>, allowance: Allowance): Stream {
    if turns == [] then Start(capacity)
    else Step(Run(capacity, turns[..|turns| - 1], allowance), turns[|turns| - 1], allowance)
  }

  // ---- Accounting ----------------------------------------------------------------

  function Payloads(events: seq<Queued>): seq<Payload> {
    if events == [] then [] else Payloads(events[..|events| - 1]) + [events[|events| - 1].event.payload]
  }

  /** Everything of the stream that was published or is queued, in order. */
  function Sent(delivered: seq<Payload>, q: Queue): seq<Payload> {
    delivered + Payloads(q.events)
  }

  /** If the waveforms and gaps of `channel` in `history` are adjacent intervals
      of capture numbers, starting at 1, with every gap counted exactly: the last
      number covered. Otherwise nothing. */
  function Covered(history: seq<Payload>, channel: nat): Option<nat> {
    if history == [] then Some(0)
    else
      var before := Covered(history[..|history| - 1], channel);
      match history[|history| - 1]
      case Waveform(c, capture) =>
        if c != channel then before
        else if before.Some? && capture == before.value + 1 then Some(capture)
        else None
      case Gap(c, first, count, last) =>
        if c != channel then before
        else if before.Some? && first == before.value + 1 && first <= last && count == last - first + 1 then Some(last)
        else None
      case _ => before
  }

  /** What was sent and then the pending drop of `channel` cover 1 to `n`. */
  predicate Accounted(sent: seq<Payload>, drops: map<nat, Drop>, channel: nat, n: nat) {
    if channel in drops then
      var drop := drops[channel];
      && 1 <= drop.first <= drop.last == n && drop.count == drop.last - drop.first + 1
      && Covered(sent, channel) == Some(drop.first - 1)
    else Covered(sent, channel) == Some(n)
  }

  lemma PayloadsAppend(events: seq<Queued>, e: Queued)
    ensures Payloads(events + [e]) == Payloads(events) + [e.event.payload]
  {
    assert (events + [e])[..|events|] == events;
  }

  /** One more event of another channel, or none, covers nothing. */
  lemma CoverOther(history: seq<Payload>, p: Payload, channel: nat)
    requires p.State? || p.ServiceError? || p.channel != channel
    ensures Covered(history + [p], channel) == Covered(history, channel)
  {
    assert (history + [p])[..|history|] == history;
  }

  lemma CoverWaveform(history: seq<Payload>, channel: nat, n: nat)
    requires Covered(history, channel) == Some(n)
    ensures Covered(history + [Waveform(channel, n + 1)], channel) == Some(n + 1)
  {
    var p := Waveform(channel, n + 1);
    assert (history + [p])[..|history|] == history;
  }

  lemma CoverGap(history: seq<Payload>, channel: nat, drop: Drop)
    requires Accounted(history, map[channel := drop], channel, drop.last)
    ensures Covered(history + [Gap(channel, drop.first, drop.count, drop.last)], channel) == Some(drop.last)
  {
    var p := Gap(channel, drop.first, drop.count, drop.last);
    assert (history + [p])[..|history|] == history;
  }

  lemma CoverSame(a: seq<Payload>, b: seq<Payload>, p: Payload, channel: nat)
    requires Covered(a, channel) == Covered(b, channel)
    ensures Covered(a + [p], channel) == Covered(b + [p], channel)
  {
    assert (a + [p])[..|a|] == a && (b + [p])[..|b|] == b;
  }

  /** Dropping the pending state disturbs no channel. */
  lemma {:induction false} CoverWithoutState(before: seq<Payload>, events: seq<Queued>, channel: nat)
    ensures Covered(before + Payloads(NonState(events)), channel) == Covered(before + Payloads(events), channel)
  {
    if events != [] {
      var front, last := events[..|events| - 1], events[|events| - 1];
      CoverWithoutState(before, front, channel);
      var p := last.event.payload;
      var all, kept := before + Payloads(front), before + Payloads(NonState(front));
      assert before + Payloads(events) == all + [p];
      if p.State? {
        CoverOther(all, p, channel);
        assert NonState(events) == NonState(front);
      } else {
        CoverSame(all, kept, p, channel);
        PayloadsAppend(NonState(front), last);
        assert before + Payloads(NonState(events)) == kept + [p];
      }
    }
  }

  /** What is covered was covered from 1 on at any earlier time, too: in
      particular, what has been delivered so far. */
  lemma {:induction false} CoverPrefix(delivered: seq<Payload>, rest: seq<Payload>, channel: nat)
    requires Covered(delivered + rest, channel).Some?
    ensures Covered(delivered, channel).Some?
    ensures Covered(delivered, channel).value <= Covered(delivered + rest, channel).value
    decreases |rest|
  {
    if rest == [] {
      assert delivered + rest == delivered;
    } else {
      assert (delivered + rest)[..|delivered| + |rest| - 1] == delivered + rest[..|rest| - 1];
      CoverPrefix(delivered, rest[..|rest| - 1], channel);
    }
  }

  /** An admitted event extends what was sent; a refused one does not. */
  lemma AppendSends(delivered: seq<Payload>, q: Queue, event: Event, critical: bool, allowance: Allowance)
    ensures
      var r := Append(q, event, critical, allowance);
      && r.queue.drops == q.drops
      && Sent(delivered, r.queue) == Sent(delivered, q) + if r.error.None? then [event.payload] else []
  {
    AppendIsOrderly(q, event, critical, allowance);
    PayloadsAppend(q.events, Queued(event, event.wire + SEQUENCE_CHARGE, critical));
  }

  lemma DropAccounts(sent: seq<Payload>, q: Queue, channel: nat, n: nat)
    requires Accounted(sent, q.drops, channel, n)
    ensures Accounted(sent, RecordDrop(q, channel, n + 1).drops, channel, n + 1)
  {
  }

  lemma StateAccounts(delivered: seq<Payload>, q: Queue, event: Event, allowance: Allowance, channel: nat, n: nat)
    requires event.payload.State? && Accounted(Sent(delivered, q), q.drops, channel, n)
    ensures var r := EnqueueState(q, event, allowance);
            Accounted(Sent(delivered, r.queue), r.queue.drops, channel, n)
  {
    if !q.finished {
      var pruned := q.(events := NonState(q.events));
      CoverWithoutState(delivered, q.events, channel);
      AppendSends(delivered, pruned, event, false, allowance);
      CoverOther(Sent(delivered, pruned), event.payload, channel);
      assert Sent(delivered, pruned) + [] == Sent(delivered, pruned);
    }
  }

  /** The capture that is offered next is delivered, queued or in the pending
      drop afterwards; only if it was refused with an error it may be missing,
      and nothing else with it. */
  lemma OwnWaveformAccounts(delivered: seq<Payload>, q: Queue, channel: nat, n: nat, wire: nat, gapWire: nat,
                            allowance: Allowance, r: Admission)
    requires Accounted(Sent(delivered, q), q.drops, channel, n)
    requires r == EnqueueWaveform(q, channel, n + 1, wire, gapWire, allowance)
    ensures OwnAccounted(delivered, r, channel, n)
  {
    if q.finished {
    } else if channel in q.drops {
      OwnGapAccounts(delivered, q, channel, n, wire, GapEvent(channel, q.drops[channel], gapWire), allowance, r);
    } else {
      AppendWaveformAccounts(delivered, q, channel, n, wire, allowance, r);
    }
  }

  predicate OwnAccounted(delivered: seq<Payload>, r: Admission, channel: nat, n: nat) {
    || Accounted(Sent(delivered, r.queue), r.queue.drops, channel, n + 1)
    || (r.error.Some? && Accounted(Sent(delivered, r.queue), r.queue.drops, channel, n))
  }

  lemma OwnGapAccounts(delivered: seq<Payload>, q: Queue, channel: nat, n: nat, wire: nat, gap: Event,
                       allowance: Allowance, r: Admission)
    requires channel in q.drops && Accounted(Sent(delivered, q), q.drops, channel, n)
    requires gap.payload == GapEvent(channel, q.drops[channel], gap.wire).payload
    requires r == EnqueueBehindGap(q, channel, n + 1, wire, Append(q, gap, true, allowance), allowance)
    ensures OwnAccounted(delivered, r, channel, n)
  {
    var g := Append(q, gap, true, allowance);
    AppendSends(delivered, q, gap, true, allowance);
    if g.error.Some? {
      assert Sent(delivered, g.queue) == Sent(delivered, q);
      DropAccounts(Sent(delivered, g.queue), g.queue, channel, n);
    } else {
      CoverGap(Sent(delivered, q), channel, q.drops[channel]);
      AppendWaveformAccounts(delivered, g.queue.(drops := q.drops - {channel}), channel, n, wire, allowance, r);
    }
  }

  lemma AppendWaveformAccounts(delivered: seq<Payload>, q: Queue, channel: nat, n: nat, wire: nat,
                               allowance: Allowance, r: Admission)
    requires channel !in q.drops && Accounted(Sent(delivered, q), q.drops, channel, n)
    requires r == AppendWaveform(q, channel, n + 1, wire, allowance)
    ensures OwnAccounted(delivered, r, channel, n)
  {
    var waveform := Event(Waveform(channel, n + 1), wire);
    var w := Append(q, waveform, false, allowance);
    AppendSends(delivered, q, waveform, false, allowance);
    if w.error.None? {
      CoverWaveform(Sent(delivered, q), channel, n);
    } else {
      assert Sent(delivered, w.queue) == Sent(delivered, q);
      DropAccounts(Sent(delivered, w.queue), w.queue, channel, n);
    }
  }

  /** Other channels are not disturbed. */
  lemma OtherWaveformAccounts(delivered: seq<Payload>, q: Queue, channel: nat, capture: nat, wire: nat, gapWire: nat,
                              allowance: Allowance, r: Admission, other: nat, n: nat)
    requires other != channel && Accounted(Sent(delivered, q), q.drops, other, n)
    requires r == EnqueueWaveform(q, channel, capture, wire, gapWire, allowance)
    ensures Accounted(Sent(delivered, r.queue), r.queue.drops, other, n)
  {
    if q.finished {
    } else if channel in q.drops {
      OtherGapAccounts(delivered, q, channel, capture, wire, GapEvent(channel, q.drops[channel], gapWire), allowance,
                       r, other, n);
    } else {
      OtherAppendAccounts(delivered, q, channel, capture, wire, allowance, r, other, n);
    }
  }

  lemma OtherGapAccounts(delivered: seq<Payload>, q: Queue, channel: nat, capture: nat, wire: nat, gap: Event,
                         allowance: Allowance, r: Admission, other: nat, n: nat)
    requires other != channel && Accounted(Sent(delivered, q), q.drops, other, n)
    requires gap.payload.Gap? && gap.payload.channel == channel
    requires r == EnqueueBehindGap(q, channel, capture, wire, Append(q, gap, true, allowance), allowance)
    ensures Accounted(Sent(delivered, r.queue), r.queue.drops, other, n)
  {
    var g := Append(q, gap, true, allowance);
    AppendSends(delivered, q, gap, true, allowance);
    if g.error.None? {
      CoverOther(Sent(delivered, q), gap.payload, other);
      OtherBehindGap(delivered, q, channel, capture, wire, allowance, g, r, other, n);
    } else {
      assert Sent(delivered, q) + [] == Sent(delivered, q);
      OtherDropAccounts(Sent(delivered, q), g.queue, channel, capture, other, n);
    }
  }

  lemma OtherDropAccounts(sent: seq<Payload>, q: Queue, channel: nat, capture: nat, other: nat, n: nat)
    requires other != channel && Accounted(sent, q.drops, other, n)
    ensures Accounted(sent, RecordDrop(q, channel, capture).drops, other, n)
  {
  }

  lemma OtherBehindGap(delivered: seq<Payload>, q: Queue, channel: nat, capture: nat, wire: nat,
                       allowance: Allowance, g: Admission, r: Admission, other: nat, n: nat)
    requires other != channel && g.error.None? && g.queue.drops == q.drops
    requires Accounted(Sent(delivered, g.queue), q.drops, other, n)
    requires r == EnqueueBehindGap(q, channel, capture, wire, g, allowance)
    ensures Accounted(Sent(delivered, r.queue), r.queue.drops, other, n)
  {
    var behind := g.queue.(drops := q.drops - {channel});
    assert Accounted(Sent(delivered, behind), behind.drops, other, n);
    OtherAppendAccounts(delivered, behind, channel, capture, wire, allowance, r, other, n);
  }

  lemma OtherAppendAccounts(delivered: seq<Payload>, q: Queue, channel: nat, capture: nat, wire: nat,
                            allowance: Allowance, r: Admission, other: nat, n: nat)
    requires other != channel && Accounted(Sent(delivered, q), q.drops, other, n)
    requires r == AppendWaveform(q, channel, capture, wire, allowance)
    ensures Accounted(Sent(delivered, r.queue), r.queue.drops, other, n)
  {
    var waveform := Event(Waveform(channel, capture), wire);
    AppendSends(delivered, q, waveform, false, allowance);
    CoverOther(Sent(delivered, q), waveform.payload, other);
    assert Sent(delivered, q) + [] == Sent(delivered, q);
  }

  predicate ReportOnly(report: Option<Event>) {
    report.Some? ==> report.value.payload.ServiceError?
  }

  /** Staging metadata turns a pending drop into a gap of the same extent. */
  lemma PrepareAccounts(delivered: seq<Payload>, q: Queue, gapWire: nat, allowance: Allowance, channel: nat, n: nat)
    requires ReportOnly(q.terminalEvent) && Accounted(Sent(delivered, q), q.drops, channel, n)
    ensures var p := PrepareTerminal(q, gapWire, allowance);
            Accounted(Sent(delivered, p), p.drops, channel, n)
  {
    if q.drops != map[] {
      assert q.drops.Keys != {};
      GapAccounts(delivered, q, Lowest(q.drops.Keys), gapWire, allowance, channel, n);
    } else if q.terminalEvent.Some? {
      AppendSends(delivered, q, q.terminalEvent.value, true, allowance);
      CoverOther(Sent(delivered, q), q.terminalEvent.value.payload, channel);
      assert Sent(delivered, q) + [] == Sent(delivered, q);
    }
  }

  lemma GapAccounts(delivered: seq<Payload>, q: Queue, dropped: nat, gapWire: nat, allowance: Allowance,
                    channel: nat, n: nat)
    requires dropped in q.drops && Accounted(Sent(delivered, q), q.drops, channel, n)
    ensures
      var g := Append(q, GapEvent(dropped, q.drops[dropped], gapWire), true, allowance);
      Accounted(Sent(delivered, g.queue), if g.error.None? then q.drops - {dropped} else q.drops, channel, n)
  {
    var gap := GapEvent(dropped, q.drops[dropped], gapWire);
    AppendSends(delivered, q, gap, true, allowance);
    assert Sent(delivered, q) + [] == Sent(delivered, q);
    if dropped == channel {
      CoverGap(Sent(delivered, q), channel, q.drops[channel]);
    } else {
      CoverOther(Sent(delivered, q), gap.payload, channel);
    }
  }

  lemma {:induction false} PayloadsTail(events: seq<Queued>)
    requires events != []
    ensures Payloads(events) == [events[0].event.payload] + Payloads(events[1..])
  {
    if |events| > 1 {
      PayloadsTail(events[..|events| - 1]);
      assert events[..|events| - 1][1..] == events[1..][..|events| - 2];
    }
  }

  /** Publishing only moves the head from the queue to the client. */
  lemma NextAccounts(delivered: seq<Payload>, q: Queue, gapWire: nat, allowance: Allowance, channel: nat, n: nat)
    requires ReportOnly(q.terminalEvent) && Accounted(Sent(delivered, q), q.drops, channel, n)
    ensures
      var t := NextReady(q, gapWire, allowance);
      var delivered' := delivered + if t.ready.Item? then [t.ready.event.payload] else [];
      Accounted(Sent(delivered', t.queue), t.queue.drops, channel, n)
  {
    var p := q;
    if q.events == [] && q.finished && !q.terminalReady {
      PrepareAccounts(delivered, q, gapWire, allowance, channel, n);
      p := PrepareTerminal(q, gapWire, allowance);
    }
    if p.events != [] {
      PayloadsTail(p.events);
      var head := p.events[0].event.payload;
      assert delivered + [head] + Payloads(p.events[1..]) == delivered + Payloads(p.events);
    } else {
      assert delivered + [] == delivered;
    }
  }
}
