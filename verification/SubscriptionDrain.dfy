/** How a finished subscription ends: what is left in the queue, then the
    losses, then the producer's report, then the terminal error for good. */
module SubscriptionDrain {
  import opened Wrappers
  import opened SubscriptionLog
  import opened SubscriptionStream

  /** One gap per pending drop, by ascending channel. */
  ghost function GapsOf(drops: map<nat, Drop>): seq<Payload>
    decreases |drops|
  {
    if drops == map[] then []
    else
      assert drops.Keys != {};
      var channel := Lowest(drops.Keys);
      var drop := drops[channel];
      Fewer(drops, channel);
      [Gap(channel, drop.first, drop.count, drop.last)] + GapsOf(drops - {channel})
  }

  lemma Fewer(drops: map<nat, Drop>, channel: nat)
    requires channel in drops
    ensures |drops - {channel}| < |drops|
  {
    var fewer := drops - {channel};
    assert fewer[channel := drops[channel]] == drops;
    assert fewer.Keys == drops.Keys - {channel};
    assert |fewer.Keys| == |fewer| && |drops.Keys| == |drops|;
  }

  /** The first gap is the lowest channel's; the others are those of the rest. */
  lemma GapsUnfold(drops: map<nat, Drop>) returns (channel: nat, rest: map<nat, Drop>)
    requires drops != map[]
    ensures IsLowest(channel, drops.Keys) && rest == drops - {channel} && |rest| < |drops|
    ensures GapsOf(drops) ==
            [Gap(channel, drops[channel].first, drops[channel].count, drops[channel].last)] + GapsOf(rest)
  {
    assert drops.Keys != {};
    channel := Lowest(drops.Keys);
    rest := drops - {channel};
    Fewer(drops, channel);
  }

  lemma {:induction false} GapAt(drops: map<nat, Drop>, i: nat)
    requires i < |GapsOf(drops)|
    ensures
      var p := GapsOf(drops)[i];
      p.Gap? && p.channel in drops && drops[p.channel] == Drop(p.first, p.last, p.count)
    decreases |drops|
  {
    var channel, rest := GapsUnfold(drops);
    if i > 0 {
      GapAt(rest, i - 1);
    }
  }

  lemma {:induction false} GapsOrdered(drops: map<nat, Drop>, i: nat, j: nat)
    requires i < j < |GapsOf(drops)|
    ensures GapsOf(drops)[i].Gap? && GapsOf(drops)[j].Gap?
    ensures GapsOf(drops)[i].channel < GapsOf(drops)[j].channel
    decreases |drops|
  {
    var channel, rest := GapsUnfold(drops);
    GapAt(rest, j - 1);
    if i > 0 {
      GapsOrdered(rest, i - 1, j - 1);
    }
  }

  lemma {:induction false} EveryDropHasAGap(drops: map<nat, Drop>, c: nat)
    requires c in drops
    ensures Gap(c, drops[c].first, drops[c].count, drops[c].last) in GapsOf(drops)
    decreases |drops|
  {
    var channel, rest := GapsUnfold(drops);
    if c != channel {
      EveryDropHasAGap(rest, c);
    }
  }

  function ReportOf(report: Option<Event>): seq<Payload> {
    if report.Some? then [report.value.payload] else []
  }

  /** What a finished queue is still to publish, if all of it is admitted. */
  ghost function Remaining(q: Queue): seq<Payload> {
    Payloads(q.events) + if q.terminalReady then [] else GapsOf(q.drops) + ReportOf(q.terminalEvent)
  }

  function Ending(terminal: Option<StreamError>): StreamError {
    if terminal.None? then EndOfStream else terminal.value
  }

  predicate IsOver(q: Queue, error: StreamError) {
    q.finished && q.terminalReady && q.events == [] && error == Ending(q.terminal)
  }

  /** Room for the metadata that may be due, whatever the other streams do. */
  ghost predicate Roomy(q: Queue, gapWire: nat, allowance: Allowance, bound: nat) {
    && bound <= MAXIMUM_EVENT_BYTES && gapWire + SEQUENCE_CHARGE <= bound
    && (q.terminalEvent.Some? ==> q.terminalEvent.value.wire + SEQUENCE_CHARGE <= bound)
    && (forall k: nat :: allowance(k) >= bound)
  }

  /** Into an empty queue an event is admitted if and only if it is within the
      event limit and the budget's rest; backpressure is out of the question. */
  lemma AdmitIntoEmpty(q: Queue, event: Event, allowance: Allowance)
    requires q.events == []
    ensures
      var r := Append(q, event, true, allowance);
      var charge := event.wire + SEQUENCE_CHARGE;
      && (r.error.None? <==> charge <= MAXIMUM_EVENT_BYTES && charge <= allowance(q.reservations))
      && (r.error.Some? ==> r.error.value == ResourceExhausted && r.queue.events == [])
  {
  }

  /** What staging metadata made of `q`: the same is left to publish and can be
      published now; or it is over. */
  ghost predicate Drains(q: Queue, p: Queue, roomy: bool) {
    && p.finished
    && if p.events != [] then Remaining(p) == Remaining(q) && p.terminal == q.terminal
       else
         || (Remaining(q) == [] && IsOver(p, Ending(q.terminal)))
         || (IsOver(p, Joined(q.terminal, ResourceExhausted)) && !roomy)
  }

  lemma PrepareDrains(q: Queue, gapWire: nat, allowance: Allowance, bound: nat)
    requires q.finished && !q.terminalReady && q.events == []
    ensures Drains(q, PrepareTerminal(q, gapWire, allowance), Roomy(q, gapWire, allowance, bound))
  {
    if q.drops != map[] {
      PrepareGapDrains(q, gapWire, allowance, bound);
    } else if q.terminalEvent.Some? {
      PrepareReportDrains(q, gapWire, allowance, bound);
    }
  }

  /** Admission of the metadata `event` into the empty queue `q`. */
  lemma AdmittedAlone(q: Queue, event: Event, allowance: Allowance)
    requires q.events == []
    ensures var r := Append(q, event, true, allowance);
            && r.queue == q.(events := r.queue.events, reservations := r.queue.reservations)
            && (if r.error.None? then r.queue.events != [] && Payloads(r.queue.events) == [event.payload]
                else r.error.value == ResourceExhausted && r.queue.events == [])
  {
    AdmitIntoEmpty(q, event, allowance);
    AppendIsOrderly(q, event, true, allowance);
    PayloadsAppend(q.events, Queued(event, event.wire + SEQUENCE_CHARGE, true));
  }

  lemma RoomAdmits(q: Queue, event: Event, gapWire: nat, allowance: Allowance, bound: nat)
    requires q.events == [] && Roomy(q, gapWire, allowance, bound)
    requires event.wire == gapWire || q.terminalEvent == Some(event)
    ensures Append(q, event, true, allowance).error.None?
  {
    AdmitIntoEmpty(q, event, allowance);
  }

  /** What staging the lowest channel's gap makes of `q`; `g` is its admission. */
  lemma GapStaged(q: Queue, channel: nat, g: Admission, p: Queue, roomy: bool)
    requires q.finished && !q.terminalReady && q.events == [] && q.drops != map[] && channel in q.drops
    requires channel == (assert q.drops.Keys != {}; Lowest(q.drops.Keys))
    requires g.queue == q.(events := g.queue.events, reservations := g.queue.reservations)
    requires if g.error.None?
             then g.queue.events != [] && Payloads(g.queue.events) == [GapEvent(channel, q.drops[channel], 0).payload]
             else g.error.value == ResourceExhausted && g.queue.events == [] && !roomy
    requires p == if g.error.Some?
                  then g.queue.(terminal := Some(Joined(q.terminal, g.error.value)), terminalReady := true)
                  else g.queue.(drops := q.drops - {channel})
    ensures Drains(q, p, roomy)
  {
    if g.error.None? {
      var report := ReportOf(q.terminalEvent);
      var lowest, rest := GapsUnfold(q.drops);
      assert Remaining(p) == Payloads(p.events) + (GapsOf(rest) + report);
      assert Remaining(q) == [GapEvent(channel, q.drops[channel], 0).payload] + (GapsOf(rest) + report);
    }
  }

  lemma PrepareGapDrains(q: Queue, gapWire: nat, allowance: Allowance, bound: nat)
    requires q.finished && !q.terminalReady && q.events == [] && q.drops != map[]
    ensures Drains(q, PrepareTerminal(q, gapWire, allowance), Roomy(q, gapWire, allowance, bound))
  {
    assert q.drops.Keys != {};
    var channel := Lowest(q.drops.Keys);
    var gap := GapEvent(channel, q.drops[channel], gapWire);
    AdmittedAlone(q, gap, allowance);
    if Roomy(q, gapWire, allowance, bound) {
      RoomAdmits(q, gap, gapWire, allowance, bound);
    }
    GapStaged(q, channel, Append(q, gap, true, allowance), PrepareTerminal(q, gapWire, allowance),
              Roomy(q, gapWire, allowance, bound));
  }

  lemma ReportStaged(q: Queue, event: Event, t: Admission, p: Queue, roomy: bool)
    requires q.finished && !q.terminalReady && q.events == [] && q.drops == map[] && q.terminalEvent == Some(event)
    requires t.queue == q.(events := t.queue.events, reservations := t.queue.reservations)
    requires if t.error.None? then t.queue.events != [] && Payloads(t.queue.events) == [event.payload]
             else t.error.value == ResourceExhausted && t.queue.events == [] && !roomy
    requires p == if t.error.Some?
                  then t.queue.(terminal := Some(Joined(q.terminal, t.error.value)), terminalReady := true)
                  else t.queue.(terminalEvent := None, terminalReady := true)
    ensures Drains(q, p, roomy)
  {
    if t.error.None? {
      assert Remaining(p) == [event.payload];
      assert Remaining(q) == [event.payload];
    }
  }

  lemma PrepareReportDrains(q: Queue, gapWire: nat, allowance: Allowance, bound: nat)
    requires q.finished && !q.terminalReady && q.events == [] && q.drops == map[] && q.terminalEvent.Some?
    ensures Drains(q, PrepareTerminal(q, gapWire, allowance), Roomy(q, gapWire, allowance, bound))
  {
    var event := q.terminalEvent.value;
    AdmittedAlone(q, event, allowance);
    if Roomy(q, gapWire, allowance, bound) {
      RoomAdmits(q, event, gapWire, allowance, bound);
    }
    ReportStaged(q, event, Append(q, event, true, allowance), PrepareTerminal(q, gapWire, allowance),
                 Roomy(q, gapWire, allowance, bound));
  }

  /** Publishing the head takes it from what remains. */
  lemma HeadDrains(p: Queue, rest: Queue)
    requires p.events != [] && rest == p.(events := p.events[1..], published := p.published + 1)
    ensures Remaining(p) == [p.events[0].event.payload] + Remaining(rest)
  {
    PayloadsTail(p.events);
    var staged := if p.terminalReady then [] else GapsOf(p.drops) + ReportOf(p.terminalEvent);
    assert Remaining(rest) == Payloads(p.events[1..]) + staged;
    assert Remaining(p) == [p.events[0].event.payload] + Payloads(p.events[1..]) + staged;
  }

  /** One look at a finished queue: the next of what remains, or the end. */
  ghost predicate Drained(q: Queue, t: Taken, roomy: bool) {
    && t.queue.finished && !t.ready.Nothing?
    && (t.ready.Item? ==>
          t.queue.terminal == q.terminal && Remaining(q) == [t.ready.event.payload] + Remaining(t.queue))
    && (t.ready.Over? ==>
          && IsOver(t.queue, t.ready.error)
          && (|| (Remaining(q) == [] && t.ready.error == Ending(q.terminal))
              || (t.ready.error == Joined(q.terminal, ResourceExhausted) && !roomy)))
  }

  lemma StagedDrains(q: Queue, p: Queue, t: Taken, roomy: bool)
    requires q.finished && (p == q || Drains(q, p, roomy)) && (p == q ==> q.events != [] || q.terminalReady)
    requires t == if p.events != [] then
                    Taken(p.(events := p.events[1..], published := p.published + 1),
                          Item(p.events[0].event, p.published + 1))
                  else if p.finished && p.terminalReady then Taken(p, Over(Ending(p.terminal)))
                  else Taken(p, Nothing)
    ensures Drained(q, t, roomy)
  {
    if p.events != [] {
      HeadDrains(p, t.queue);
    }
  }

  lemma NextDrains(q: Queue, gapWire: nat, allowance: Allowance, bound: nat)
    requires q.finished
    ensures Drained(q, NextReady(q, gapWire, allowance), Roomy(q, gapWire, allowance, bound))
  {
    var roomy := Roomy(q, gapWire, allowance, bound);
    if q.events == [] && !q.terminalReady {
      PrepareDrains(q, gapWire, allowance, bound);
      StagedDrains(q, PrepareTerminal(q, gapWire, allowance), NextReady(q, gapWire, allowance), roomy);
    } else {
      StagedDrains(q, q, NextReady(q, gapWire, allowance), roomy);
    }
  }

  /** The error comes again with every look. */
  lemma OverForGood(q: Queue, error: StreamError, gapWire: nat, allowance: Allowance)
    requires IsOver(q, error)
    ensures NextReady(q, gapWire, allowance) == Taken(q, Over(error))
  {
  }

  /** Successive looks, with no operation but these. */
  datatype Looks = Looks(queue: Queue, results: seq<Ready>)

  ghost function LookAll(q: Queue, gapWires: seq<nat>, allowance: Allowance): (r: Looks)
    ensures |r.results| == |gapWires|
  {
    if gapWires == [] then Looks(q, [])
    else
      var before := LookAll(q, gapWires[..|gapWires| - 1], allowance);
      var t := NextReady(before.queue, gapWires[|gapWires| - 1], allowance);
      Looks(t.queue, before.results + [t.ready])
  }

  /** `m` of `all` were published and the rest is still to come; or `all` was
      cut at `m`, and `error` is all there is from now on. */
  ghost predicate Progress(all: seq<Payload>, terminal: Option<StreamError>, q: Queue, looks: nat, m: nat,
                           error: StreamError)
  {
    && m <= looks && m <= |all| && q.finished
    && if m == looks then q.terminal == terminal && Remaining(q) == all[m..]
       else
         && IsOver(q, error)
         && (error == Joined(terminal, ResourceExhausted) || (m == |all| && error == Ending(terminal)))
  }

  lemma ProgressStep(all: seq<Payload>, terminal: Option<StreamError>, q: Queue, looks: nat, m: nat,
                     error: StreamError, gapWire: nat, allowance: Allowance, bound: nat)
    returns (m': nat, error': StreamError)
    requires Progress(all, terminal, q, looks, m, error)
    ensures
      var t := NextReady(q, gapWire, allowance);
      && Progress(all, terminal, t.queue, looks + 1, m', error')
      && (if m' == m + 1 then m == looks && t.ready.Item? && t.ready.event.payload == all[m]
          else m' == m && t.ready == Over(error'))
      && (m < looks ==> m' == m && error' == error)
      && (m == looks && m' == m && Roomy(q, gapWire, allowance, bound) ==>
            m == |all| && error' == Ending(terminal))
  {
    m', error' := m, error;
    if m == looks {
      NextDrains(q, gapWire, allowance, bound);
      var t := NextReady(q, gapWire, allowance);
      if t.ready.Item? {
        assert all[m..] == [t.ready.event.payload] + Remaining(t.queue);
        assert all[m..][1..] == all[m + 1..];
        m' := m + 1;
      } else {
        error' := t.ready.error;
      }
    } else {
      OverForGood(q, error, gapWire, allowance);
    }
  }

  /** The first `m` results publish the first `m` of `all`; the others are one
      and the same error. */
  predicate Shows(results: seq<Ready>, all: seq<Payload>, m: nat, error: StreamError) {
    && m <= |all| && m <= |results|
    && (forall i | 0 <= i < m :: results[i].Item? && results[i].event.payload == all[i])
    && (forall i | m <= i < |results| :: results[i] == Over(error))
  }

  lemma ShowsAppend(results: seq<Ready>, all: seq<Payload>, m: nat, error: StreamError, ready: Ready, m': nat,
                    error': StreamError)
    requires Shows(results, all, m, error)
    requires
      if m' == m + 1 then m == |results| && m < |all| && ready.Item? && ready.event.payload == all[m]
      else m' == m && ready == Over(error') && (m < |results| ==> error' == error)
    ensures Shows(results + [ready], all, m', error')
  {
  }

  /** At every look there was room for whatever metadata was due. */
  ghost predicate AlwaysRoomy(q: Queue, gapWires: seq<nat>, allowance: Allowance, bound: nat) {
    gapWires == [] ||
    (var n := |gapWires| - 1;
     && AlwaysRoomy(q, gapWires[..n], allowance, bound)
     && Roomy(LookAll(q, gapWires[..n], allowance).queue, gapWires[n], allowance, bound))
  }

  lemma LookNext(q: Queue, gapWires: seq<nat>, allowance: Allowance)
    requires gapWires != []
    ensures
      var n := |gapWires| - 1;
      var before := LookAll(q, gapWires[..n], allowance);
      var t := NextReady(before.queue, gapWires[n], allowance);
      LookAll(q, gapWires, allowance) == Looks(t.queue, before.results + [t.ready])
  {
  }

  /** Any number of looks at a finished queue see the first `m` of what remains,
      in order, and then one and the same error for good: the terminal one after
      everything, or, at the first admission that fails, the terminal one joined
      with the failure. With room for the metadata, nothing is cut short. */
  lemma {:induction false} DrainOrder(q: Queue, gapWires: seq<nat>, allowance: Allowance, bound: nat)
    returns (m: nat, error: StreamError)
    requires q.finished
    ensures
      var r := LookAll(q, gapWires, allowance);
      && Progress(Remaining(q), q.terminal, r.queue, |gapWires|, m, error)
      && Shows(r.results, Remaining(q), m, error)
    ensures AlwaysRoomy(q, gapWires, allowance, bound) ==>
              m == |gapWires| || (m == |Remaining(q)| && error == Ending(q.terminal))
  {
    if gapWires == [] {
      m, error := 0, EndOfStream;
    } else {
      var n := |gapWires| - 1;
      var k, e := DrainOrder(q, gapWires[..n], allowance, bound);
      LookNext(q, gapWires, allowance);
      m, error := DrainStep(Remaining(q), q.terminal, LookAll(q, gapWires[..n], allowance), k, e, gapWires[n],
                            allowance, bound);
    }
  }

  lemma DrainStep(all: seq<Payload>, terminal: Option<StreamError>, before: Looks, k: nat, e: StreamError,
                  gapWire: nat, allowance: Allowance, bound: nat)
    returns (m: nat, error: StreamError)
    requires Progress(all, terminal, before.queue, |before.results|, k, e) && Shows(before.results, all, k, e)
    ensures
      var t := NextReady(before.queue, gapWire, allowance);
      && Progress(all, terminal, t.queue, |before.results| + 1, m, error)
      && Shows(before.results + [t.ready], all, m, error)
    ensures k < |before.results| ==> m == k && error == e
    ensures k == |before.results| && Roomy(before.queue, gapWire, allowance, bound) ==>
              m == |before.results| + 1 || (m == |all| && error == Ending(terminal))
  {
    m, error := ProgressStep(all, terminal, before.queue, |before.results|, k, e, gapWire, allowance, bound);
    ShowsAppend(before.results, all, k, e, NextReady(before.queue, gapWire, allowance).ready, m, error);
  }
}
