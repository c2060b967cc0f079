/** What a client may conclude when its stream has come to its own end. */
module SubscriptionOutcome {
  import opened Wrappers
  import opened SubscriptionLog
  import opened SubscriptionStream
  import opened SubscriptionTheorems

  /** Metadata was refused, and the error says so. */
  predicate IsCutShort(q: Queue) {
    q.terminal.Some? && q.terminal.value.Joined?
  }

  /** A queue whose terminal error is due has staged all its metadata, or says
      that it has not. */
  predicate EndsWhole(q: Queue) {
    && (q.terminalReady ==> q.finished)
    && (q.terminalReady && !IsCutShort(q) ==> q.drops == map[] && q.terminalEvent.None?)
  }

  lemma PrepareEndsWhole(q: Queue, gapWire: nat, allowance: Allowance)
    requires q.finished && !q.terminalReady
    ensures EndsWhole(PrepareTerminal(q, gapWire, allowance))
  {
    if q.drops != map[] {
      assert q.drops.Keys != {};
      var channel := Lowest(q.drops.Keys);
      AppendFrame(q, GapEvent(channel, q.drops[channel], gapWire), true, allowance);
    } else if q.terminalEvent.Some? {
      AppendFrame(q, q.terminalEvent.value, true, allowance);
    }
  }

  lemma NextEndsWhole(q: Queue, gapWire: nat, allowance: Allowance)
    requires EndsWhole(q)
    ensures EndsWhole(NextReady(q, gapWire, allowance).queue)
  {
    if q.events == [] && q.finished && !q.terminalReady {
      PrepareEndsWhole(q, gapWire, allowance);
    }
  }

  lemma LookEndsWhole(s: Stream, gapWire: nat, allowance: Allowance)
    requires EndsWhole(s.queue)
    ensures EndsWhole(LookOnce(s, gapWire, allowance).queue)
  {
    NextEndsWhole(s.queue, gapWire, allowance);
  }

  /** A polling producer meets a queue that is not finished, and leaves it so. */
  lemma StateEndsWhole(s: Stream, event: Event, reportWire: nat, allowance: Allowance)
    requires !s.queue.finished && EndsWhole(s.queue)
    ensures EndsWhole(AfterPoll(s, EnqueueState(s.queue, event, allowance), reportWire).queue)
  {
    StateFrame(s.queue, event, allowance);
  }

  lemma WaveformEndsWhole(s: Stream, channel: nat, wire: nat, gapWire: nat, reportWire: nat, allowance: Allowance,
                          r: Admission)
    requires !s.queue.finished && EndsWhole(s.queue)
    requires r == EnqueueWaveform(s.queue, channel, Captured(s, channel) + 1, wire, gapWire, allowance)
    ensures EndsWhole(CaptureWaveform(s, channel, wire, r, reportWire).queue)
  {
    WaveformFrame(s.queue, channel, Captured(s, channel) + 1, wire, gapWire, allowance);
    CaptureFrame(s, channel, wire, r, reportWire);
  }

  lemma PollStateEndsWhole(s: Stream, snapshot: nat, wire: nat, reportWire: nat, allowance: Allowance)
    requires !s.queue.finished && EndsWhole(s.queue)
    ensures EndsWhole(Polled(s, PollState(snapshot, wire, reportWire), allowance).queue)
  {
    StateEndsWhole(s, Event(State(snapshot), wire), reportWire, allowance);
  }

  lemma PollWaveformEndsWhole(s: Stream, channel: nat, wire: nat, gapWire: nat, reportWire: nat,
                              allowance: Allowance, s': Stream)
    requires !s.queue.finished && EndsWhole(s.queue)
    requires
      var r := EnqueueWaveform(s.queue, channel, Captured(s, channel) + 1, wire, gapWire, allowance);
      s' == CaptureWaveform(s, channel, wire, r, reportWire)
    ensures EndsWhole(s'.queue)
  {
    WaveformEndsWhole(s, channel, wire, gapWire, reportWire, allowance,
                      EnqueueWaveform(s.queue, channel, Captured(s, channel) + 1, wire, gapWire, allowance));
  }

  lemma PollEndsWhole(s: Stream, turn: Turn, allowance: Allowance)
    requires !s.queue.finished && EndsWhole(s.queue) && (turn.PollState? || turn.PollWaveform?)
    ensures EndsWhole(Polled(s, turn, allowance).queue)
  {
    if turn.PollState? {
      PollStateEndsWhole(s, turn.snapshot, turn.wire, turn.reportWire, allowance);
    } else {
      PollWaveformEndsWhole(s, turn.channel, turn.wire, turn.gapWire, turn.reportWire, allowance,
                            Polled(s, turn, allowance));
    }
  }

  lemma StepEndsWhole(s: Stream, turn: Turn, allowance: Allowance)
    requires Phases(s) && EndsWhole(s.queue)
    ensures EndsWhole(Step(s, turn, allowance).queue)
  {
    if turn.PollState? || turn.PollWaveform? {
      if s.producer.Polling? {
        PollEndsWhole(s, turn, allowance);
      }
    } else if turn.Look? {
      LookEndsWhole(s, turn.gapWire, allowance);
    }
  }

  lemma {:induction false} RunEndsWhole(capacity: nat, turns: seq<Turn>, allowance: Allowance)
    requires 1 <= capacity <= MAXIMUM_CAPACITY
    ensures EndsWhole(Run(capacity, turns, allowance).queue)
  {
    if turns != [] {
      var front := turns[..|turns| - 1];
      RunEndsWhole(capacity, front, allowance);
      RunKeepsInv(capacity, front, allowance);
      StepEndsWhole(Run(capacity, front, allowance), turns[|turns| - 1], allowance);
    }
  }

  /** How many captures of `channel` the stream answers for: all, but for the one
      whose refusal ended it. */
  function Owed(s: Stream, channel: nat): nat {
    if s.lost == Some(channel) && Captured(s, channel) > 0 then Captured(s, channel) - 1 else Captured(s, channel)
  }

  /** A stream that comes to its own end has told everything. In every run, once
      the stream's own error is due, no drop and no report is left; what was
      published and is still queued covers, for every channel, the captures from
      1 to the last without holes, or to the last but one if the last was refused
      and ended the stream. With the queue empty, the client has it all. */
  lemma EndTellsEverything(capacity: nat, turns: seq<Turn>, allowance: Allowance, channel: nat)
    requires 1 <= capacity <= MAXIMUM_CAPACITY
    ensures
      var s := Run(capacity, turns, allowance);
      !s.consumer.Gone? && s.queue.terminalReady && !IsCutShort(s.queue) ==>
        && s.queue.drops == map[] && s.queue.terminalEvent.None?
        && var sent := Covered(Sent(s.delivered, s.queue), channel);
        && (sent == Some(Captured(s, channel)) || sent == Some(Owed(s, channel)))
        && (s.queue.events == [] ==> Covered(s.delivered, channel) == sent)
  {
    var s := Run(capacity, turns, allowance);
    RunEndsWhole(capacity, turns, allowance);
    EveryCaptureIsAccounted(capacity, turns, allowance, channel);
    assert s.delivered + [] == s.delivered;
  }
}
