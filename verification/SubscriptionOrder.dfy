/** The order of a subscription's events, over whole runs. */
module SubscriptionOrder {
  import opened SubscriptionLog
  import opened SubscriptionStream
  import opened SubscriptionTheorems

  /** From one moment of a stream to a later one: everything sent keeps its
      place; or, if a newer state was polled, everything but the one pending
      state, which was coalesced. What is new stands behind. */
  predicate Extends(delivered: seq<Payload>, q: Queue, delivered': seq<Payload>, q': Queue, polled: bool) {
    && delivered <= delivered'
    && (|| Sent(delivered, q) <= Sent(delivered', q')
        || (polled && delivered + Payloads(NonState(q.events)) <= Sent(delivered', q')))
  }

  // ---- Extension is transitive ---------------------------------------------------------

  predicate NoState(pending: seq<Payload>) {
    forall k | 0 <= k < |pending| :: !pending[k].State?
  }

  /** `kept` is `pending` without its state, which stands at `i`; or there is
      none. */
  predicate Coalesced(pending: seq<Payload>, kept: seq<Payload>, i: nat) {
    && NoState(kept)
    && if i < |pending| then pending[i].State? && kept == pending[..i] + pending[i + 1..] else kept == pending
  }

  lemma {:induction false} PayloadsAt(events: seq<Queued>, k: nat)
    requires k < |events|
    ensures |Payloads(events)| == |events| && Payloads(events)[k] == events[k].event.payload
  {
    if k < |events| - 1 {
      PayloadsAt(events[..|events| - 1], k);
    } else if k > 0 {
      PayloadsAt(events[..|events| - 1], k - 1);
    }
  }

  lemma {:induction false} PayloadsJoin(a: seq<Queued>, b: seq<Queued>)
    ensures Payloads(a + b) == Payloads(a) + Payloads(b)
    decreases |b|
  {
    if b == [] {
      assert a + b == a;
    } else {
      assert (a + b)[..|a| + |b| - 1] == a + b[..|b| - 1];
      PayloadsJoin(a, b[..|b| - 1]);
    }
  }

  lemma {:induction false} FindState(events: seq<Queued>) returns (i: nat)
    ensures i < |events| ==> events[i].event.payload.State?
    ensures i >= |events| ==> forall k | 0 <= k < |events| :: !events[k].event.payload.State?
  {
    if events == [] {
      i := 0;
    } else if events[|events| - 1].event.payload.State? {
      i := |events| - 1;
    } else {
      i := FindState(events[..|events| - 1]);
      if i >= |events| - 1 {
        i := |events|;
      }
    }
  }

  lemma {:induction false} KeptAt(events: seq<Queued>, k: nat)
    requires k < |NonState(events)|
    ensures !NonState(events)[k].event.payload.State?
  {
    var front := events[..|events| - 1];
    if k < |NonState(front)| {
      KeptAt(front, k);
    }
  }

  lemma KeptHasNoState(events: seq<Queued>)
    ensures NoState(Payloads(NonState(events)))
  {
    var kept := NonState(events);
    if kept != [] {
      PayloadsAt(kept, 0);
    }
    forall k | 0 <= k < |Payloads(kept)| ensures !Payloads(kept)[k].State? {
      PayloadsAt(kept, k);
      KeptAt(events, k);
    }
  }

  lemma Coalescing(events: seq<Queued>) returns (i: nat)
    requires PendingStates(events) <= 1
    ensures Coalesced(Payloads(events), Payloads(NonState(events)), i)
  {
    i := FindState(events);
    KeptHasNoState(events);
    if i < |events| {
      CutState(events, i);
      PayloadsAt(events, i);
      PayloadsCut(events, i);
    } else {
      NoStatePending(events);
      i := |Payloads(events)|;
    }
  }

  lemma PayloadsCut(events: seq<Queued>, i: nat)
    requires i < |events|
    ensures |Payloads(events)| == |events|
    ensures Payloads(events[..i] + events[i + 1..]) == Payloads(events)[..i] + Payloads(events)[i + 1..]
  {
    var a, b := events[..i], events[i + 1..];
    assert events == a + [events[i]] + b;
    PayloadsAt(events, i);
    PayloadsJoin(a, b);
    PayloadsAppend(a, events[i]);
    PayloadsJoin(a + [events[i]], b);
    if i > 0 {
      PayloadsAt(a, 0);
    }
  }

  lemma PrefixOfCut(x: seq<Payload>, m: seq<Payload>, at: nat, late: seq<Payload>)
    requires x <= m && |x| <= at < |m| && m[..at] + m[at + 1..] <= late
    ensures x <= late
  {
    assert forall k | 0 <= k < |x| :: late[k] == (m[..at] + m[at + 1..])[k] == m[k] == x[k];
  }

  lemma CutOfPrefix(x: seq<Payload>, m: seq<Payload>, at: nat, late: seq<Payload>)
    requires x <= m && at < |x| && m[..at] + m[at + 1..] <= late
    ensures x[..at] + x[at + 1..] <= late
  {
    var y := x[..at] + x[at + 1..];
    assert forall k | 0 <= k < |y| :: y[k] == (m[..at] + m[at + 1..])[k] == late[k];
  }

  lemma CutBehind(d: seq<Payload>, p: seq<Payload>, i: nat)
    requires i < |p|
    ensures d + (p[..i] + p[i + 1..]) == (d + p)[..|d| + i] + (d + p)[|d| + i + 1..]
  {
  }

  /** Two coalesced stretches in a row. */
  lemma Chain(d: seq<Payload>, p: seq<Payload>, kept: seq<Payload>, i: nat, d1: seq<Payload>, p1: seq<Payload>,
              kept1: seq<Payload>, j: nat, late: seq<Payload>)
    requires Coalesced(p, kept, i) && Coalesced(p1, kept1, j) && d <= d1
    requires d + p <= d1 + p1 || d + kept <= d1 + p1
    requires d1 + p1 <= late || d1 + kept1 <= late
    ensures d + p <= late || d + kept <= late
  {
    if !(d1 + p1 <= late) {
      var at := |d1| + j;
      CutBehind(d1, p1, j);
      if d + p <= d1 + p1 {
        if |d + p| <= at {
          PrefixOfCut(d + p, d1 + p1, at, late);
        } else {
          assert p[at - |d|] == (d + p)[at] == (d1 + p1)[at] == p1[j];
          OnlyState(p, kept, i);
          CutBehind(d, p, i);
          CutOfPrefix(d + p, d1 + p1, at, late);
        }
      } else {
        BeforeState(d, kept, d1 + p1, at);
        PrefixOfCut(d + kept, d1 + p1, at, late);
      }
    }
  }

  lemma OnlyState(pending: seq<Payload>, kept: seq<Payload>, i: nat)
    requires Coalesced(pending, kept, i)
    ensures forall k | 0 <= k < |pending| && k != i :: !pending[k].State?
  {
    forall k | 0 <= k < |pending| && k != i ensures !pending[k].State? {
      assert pending[k] == kept[if k < i then k else k - 1];
    }
  }

  lemma BeforeState(d: seq<Payload>, kept: seq<Payload>, m: seq<Payload>, at: nat)
    requires NoState(kept) && d + kept <= m && |d| <= at < |m| && m[at].State?
    ensures |d + kept| <= at
  {
    forall x | |d| <= x < |d + kept| ensures !m[x].State? {
      assert m[x] == (d + kept)[x] == kept[x - |d|];
    }
  }

  lemma ExtendsTransitive(d: seq<Payload>, q: Queue, d1: seq<Payload>, q1: Queue, d2: seq<Payload>, q2: Queue,
                          polled: bool, polled1: bool)
    requires PendingStates(q.events) <= 1 && PendingStates(q1.events) <= 1
    requires Extends(d, q, d1, q1, polled) && Extends(d1, q1, d2, q2, polled1)
    ensures Extends(d, q, d2, q2, polled || polled1)
  {
    var i := Coalescing(q.events);
    var j := Coalescing(q1.events);
    Chain(d, Payloads(q.events), Payloads(NonState(q.events)), i, d1, Payloads(q1.events),
          Payloads(NonState(q1.events)), j, Sent(d2, q2));
  }

  // ---- One turn --------------------------------------------------------------------------

  lemma AppendExtends(delivered: seq<Payload>, q: Queue, event: Event, critical: bool, allowance: Allowance)
    ensures Sent(delivered, q) <= Sent(delivered, Append(q, event, critical, allowance).queue)
  {
    AppendSends(delivered, q, event, critical, allowance);
  }

  lemma StateExtends(delivered: seq<Payload>, q: Queue, event: Event, allowance: Allowance)
    ensures Extends(delivered, q, delivered, EnqueueState(q, event, allowance).queue, true)
  {
    if !q.finished {
      AppendExtends(delivered, q.(events := NonState(q.events)), event, false, allowance);
    }
  }

  lemma BehindGapExtends(delivered: seq<Payload>, q: Queue, channel: nat, capture: nat, wire: nat, allowance: Allowance)
    ensures Sent(delivered, q) <= Sent(delivered, AppendWaveform(q, channel, capture, wire, allowance).queue)
  {
    AppendExtends(delivered, q, Event(Waveform(channel, capture), wire), false, allowance);
  }

  lemma WaveformExtends(delivered: seq<Payload>, q: Queue, channel: nat, capture: nat, wire: nat, gapWire: nat,
                        allowance: Allowance)
    ensures Sent(delivered, q) <=
            Sent(delivered, EnqueueWaveform(q, channel, capture, wire, gapWire, allowance).queue)
  {
    if q.finished {
    } else if channel in q.drops {
      var gap := GapEvent(channel, q.drops[channel], gapWire);
      AppendExtends(delivered, q, gap, true, allowance);
      var g := Append(q, gap, true, allowance);
      BehindGapExtends(delivered, g.queue.(drops := q.drops - {channel}), channel, capture, wire, allowance);
    } else {
      BehindGapExtends(delivered, q, channel, capture, wire, allowance);
    }
  }

  lemma NextExtends(delivered: seq<Payload>, q: Queue, gapWire: nat, allowance: Allowance)
    ensures
      var t := NextReady(q, gapWire, allowance);
      Sent(delivered, q) <= Sent(delivered + if t.ready.Item? then [t.ready.event.payload] else [], t.queue)
  {
    var p := q;
    if q.events == [] && q.finished && !q.terminalReady {
      p := PrepareTerminal(q, gapWire, allowance);
      if q.drops != map[] {
        assert q.drops.Keys != {};
        var channel := Lowest(q.drops.Keys);
        AppendExtends(delivered, q, GapEvent(channel, q.drops[channel], gapWire), true, allowance);
      } else if q.terminalEvent.Some? {
        AppendExtends(delivered, q, q.terminalEvent.value, true, allowance);
      }
    }
    if p.events != [] {
      PayloadsTail(p.events);
      var head := p.events[0].event.payload;
      assert delivered + [head] + Payloads(p.events[1..]) == delivered + Payloads(p.events);
    } else {
      assert delivered + [] == delivered;
    }
  }

  ghost predicate Continues(s: Stream, s': Stream, polled: bool) {
    && s.delivered <= s'.delivered && (s.consumer.Gone? ==> s'.consumer.Gone?)
    && (!s'.consumer.Gone? ==> Extends(s.delivered, s.queue, s'.delivered, s'.queue, polled))
  }

  lemma AfterPollContinues(s: Stream, r: Admission, reportWire: nat, s': Stream)
    requires Extends(s.delivered, s.queue, s.delivered, r.queue, true) && s' == AfterPoll(s, r, reportWire)
    ensures Continues(s, s', true)
  {
  }

  lemma CaptureContinues(s: Stream, channel: nat, wire: nat, r: Admission, reportWire: nat, s': Stream)
    requires Sent(s.delivered, s.queue) <= Sent(s.delivered, r.queue)
    requires s' == CaptureWaveform(s, channel, wire, r, reportWire)
    ensures Continues(s, s', false)
  {
  }

  lemma PollStateContinues(s: Stream, snapshot: nat, wire: nat, reportWire: nat, allowance: Allowance)
    ensures Continues(s, Polled(s, PollState(snapshot, wire, reportWire), allowance), true)
  {
    var event := Event(State(snapshot), wire);
    StateExtends(s.delivered, s.queue, event, allowance);
    AfterPollContinues(s, EnqueueState(s.queue, event, allowance), reportWire,
                       Polled(s, PollState(snapshot, wire, reportWire), allowance));
  }

  lemma PollWaveformContinues(s: Stream, channel: nat, wire: nat, gapWire: nat, reportWire: nat, allowance: Allowance)
    ensures Continues(s, Polled(s, PollWaveform(channel, wire, gapWire, reportWire), allowance), false)
  {
    WaveformContinues(s, channel, wire, gapWire, reportWire, allowance,
                      Polled(s, PollWaveform(channel, wire, gapWire, reportWire), allowance));
  }

  lemma WaveformContinues(s: Stream, channel: nat, wire: nat, gapWire: nat, reportWire: nat, allowance: Allowance,
                          s': Stream)
    requires
      var r := EnqueueWaveform(s.queue, channel, Captured(s, channel) + 1, wire, gapWire, allowance);
      s' == CaptureWaveform(s, channel, wire, r, reportWire)
    ensures Continues(s, s', false)
  {
    var capture := Captured(s, channel) + 1;
    WaveformExtends(s.delivered, s.queue, channel, capture, wire, gapWire, allowance);
    var r := EnqueueWaveform(s.queue, channel, capture, wire, gapWire, allowance);
    CaptureContinues(s, channel, wire, r, reportWire, s');
  }

  lemma LookContinues(s: Stream, gapWire: nat, allowance: Allowance)
    requires s.consumer.Looking?
    ensures Continues(s, LookOnce(s, gapWire, allowance), false)
  {
    NextExtends(s.delivered, s.queue, gapWire, allowance);
    assert s.delivered + [] == s.delivered;
  }

  lemma SameContinues(s: Stream, s': Stream)
    requires s'.delivered == s.delivered && (s.consumer.Gone? ==> s'.consumer.Gone?)
    requires s'.queue.events == s.queue.events
    ensures Continues(s, s', false)
  {
  }

  lemma PollContinues(s: Stream, turn: Turn, allowance: Allowance)
    requires turn.PollState? || turn.PollWaveform?
    ensures Continues(s, Polled(s, turn, allowance), turn.PollState?)
  {
    if turn.PollState? {
      PollStateContinues(s, turn.snapshot, turn.wire, turn.reportWire, allowance);
    } else {
      PollWaveformContinues(s, turn.channel, turn.wire, turn.gapWire, turn.reportWire, allowance);
    }
  }

  lemma OtherContinues(s: Stream, turn: Turn, allowance: Allowance)
    requires !turn.PollState? && !turn.PollWaveform? && !turn.Look?
    ensures Continues(s, Step(s, turn, allowance), false)
  {
    if !turn.CloseQueue? {
      SameContinues(s, Step(s, turn, allowance));
    }
  }

  lemma StepContinues(s: Stream, turn: Turn, allowance: Allowance)
    ensures Continues(s, Step(s, turn, allowance), turn.PollState?)
  {
    if turn.PollState? || turn.PollWaveform? {
      SameContinues(s, s);
      PollContinues(s, turn, allowance);
    } else if !turn.Look? {
      OtherContinues(s, turn, allowance);
    } else if s.consumer.Looking? {
      LookContinues(s, turn.gapWire, allowance);
    }
  }

  // ---- Whole runs ------------------------------------------------------------------------

  predicate StatePolled(turns: seq<Turn>, i: nat) {
    exists k | i <= k < |turns| :: turns[k].PollState?
  }

  /** The stream refines an append-only log from which only a coalesced state is
      ever deleted. Whatever was delivered or queued at any time, states included,
      stands at the same place at any later time, and new events behind it; or,
      if a state was polled in between, all of it but the state then pending does,
      which gave way. So no state overtakes what was queued before it. */
  lemma {:induction false} OrderIsKept(capacity: nat, turns: seq<Turn>, allowance: Allowance, i: nat)
    requires 1 <= capacity <= MAXIMUM_CAPACITY && i <= |turns|
    ensures
      var early, late := Run(capacity, turns[..i], allowance), Run(capacity, turns, allowance);
      && early.delivered <= late.delivered && (early.consumer.Gone? ==> late.consumer.Gone?)
      && (!late.consumer.Gone? ==>
            || Sent(early.delivered, early.queue) <= Sent(late.delivered, late.queue)
            || (StatePolled(turns, i) &&
                early.delivered + Payloads(NonState(early.queue.events)) <= Sent(late.delivered, late.queue)))
  {
    if i == |turns| {
      assert turns[..i] == turns;
    } else {
      var n := |turns| - 1;
      assert turns[..n][..i] == turns[..i];
      OrderIsKept(capacity, turns[..n], allowance, i);
      var early, middle := Run(capacity, turns[..i], allowance), Run(capacity, turns[..n], allowance);
      var late := Run(capacity, turns, allowance);
      StepContinues(middle, turns[n], allowance);
      RunKeepsInv(capacity, turns[..i], allowance);
      RunKeepsInv(capacity, turns[..n], allowance);
      StatePolledLater(turns, i);
      if !late.consumer.Gone? {
        ExtendsTransitive(early.delivered, early.queue, middle.delivered, middle.queue, late.delivered, late.queue,
                          StatePolled(turns[..n], i), turns[n].PollState?);
      }
    }
  }

  lemma StatePolledLater(turns: seq<Turn>, i: nat)
    requires i < |turns|
    ensures StatePolled(turns[..|turns| - 1], i) || turns[|turns| - 1].PollState? ==> StatePolled(turns, i)
  {
    if StatePolled(turns[..|turns| - 1], i) {
      var k :| i <= k < |turns| - 1 && turns[..|turns| - 1][k].PollState?;
      assert turns[k].PollState?;
    }
  }
}
