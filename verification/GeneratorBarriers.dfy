/** The bounded readback loops of the generator, and the transaction they query,
    whose every reply may fail or lie. */
module GeneratorBarriers {
  import opened Commands
  import opened Wrappers
  import opened GeneratorCommands

  const MAXIMUM_OBSERVATIONS := 8

  datatype Failure =
    | Admission(cause: nat)
    | Lost(cause: nat)
    | MalformedReply
    | Nonconvergence
    | Canceled
    | Joined(first: Failure, second: Failure)

  datatype Outcome = Replied(response: string) | Failed(cause: nat)

  datatype Interaction = Interaction(command: Command, outcome: Outcome)

  /** An admitted transaction: what becomes of every command, and when the
      operation's context has ended, is up to the surroundings. */
  class Transaction {
    const outcomes: nat -> Outcome
    const endings: nat -> bool
    var executed: nat
    var checked: nat
    ghost var log: seq<Interaction>
    ghost var canceled: bool

    constructor (outcomes: nat -> Outcome, endings: nat -> bool)
      ensures this.outcomes == outcomes && this.endings == endings && log == [] && !canceled
    {
      this.outcomes, this.endings := outcomes, endings;
      executed, checked, log, canceled := 0, 0, [], false;
    }

    method Execute(command: Command) returns (outcome: Outcome)
      modifies this`executed, this`log
      ensures log == old(log) + [Interaction(command, outcome)] && outcome == outcomes(old(executed))
    {
      outcome := outcomes(executed);
      executed := executed + 1;
      log := log + [Interaction(command, outcome)];
    }

    method ContextEnded() returns (ended: bool)
      modifies this`checked, this`canceled
      ensures canceled <==> old(canceled) || ended
      ensures ended == endings(old(checked)) && checked == old(checked) + 1
    {
      ended := endings(checked);
      checked := checked + 1;
      canceled := canceled || ended;
    }

    /** `waitForGeneratorObservationPacing`: the context is looked at before and
        after the pause. */
    method Pace() returns (ended: bool)
      modifies this`checked, this`canceled
      ensures canceled <==> old(canceled) || ended
      ensures checked > old(checked) && ended == endings(checked - 1)
    {
      ended := ContextEnded();
      if ended {
        return;
      }
      ended := ContextEnded();
    }
  }

  // ---- What a barrier does ---------------------------------------------------------------

  datatype Answer<+T> = Gone(cause: nat) | Read(reading: Reading<T>)

  function AnswerOf<T>(parse: string -> Reading<T>, outcome: Outcome): Answer<T> {
    match outcome
    case Failed(cause) => Gone(cause)
    case Replied(response) => Read(parse(response))
  }

  function Answers<T>(parse: string -> Reading<T>, log: seq<Interaction>): seq<Answer<T>> {
    if log == [] then []
    else Answers(parse, log[..|log| - 1]) + [AnswerOf(parse, log[|log| - 1].outcome)]
  }

  predicate QueriesOnly(log: seq<Interaction>, query: Command) {
    log == [] || (QueriesOnly(log[..|log| - 1], query) && log[|log| - 1].command == query)
  }

  /** An answer the loop goes on after. */
  predicate Tolerable<T>(answer: Answer<T>) {
    answer.Read? && !answer.reading.Malformed?
  }

  predicate OnTarget<T(==)>(answer: Answer<T>, target: Option<T>) {
    answer.Read? && answer.reading.Observed? && (target.None? || answer.reading.value == target.value)
  }

  /** The last two answers are valid, equal and on target. */
  predicate Converged<T(==)>(answers: seq<Answer<T>>, target: Option<T>) {
    var n := |answers|;
    n >= 2 && answers[n - 2] == answers[n - 1] && OnTarget(answers[n - 1], target)
  }

  /** Nothing decided after any of these answers. */
  predicate Pending<T(==)>(answers: seq<Answer<T>>, target: Option<T>) {
    var n := |answers|;
    n == 0 || (Pending(answers[..n - 1], target) && Tolerable(answers[n - 1]) && !Converged(answers, target))
  }

  /** Whether `answer`, the `n`-th, ends the loop with `err`. */
  predicate Ends<T(==)>(answer: Answer<T>, converged: bool, n: nat, err: Option<Failure>) {
    match err
    case None => converged
    case Some(Lost(cause)) => answer == Gone(cause)
    case Some(MalformedReply) => answer == Read(Malformed)
    case Some(Nonconvergence) => n == MAXIMUM_OBSERVATIONS && Tolerable(answer) && !converged
    case Some(Canceled) => Tolerable(answer) && (converged || n < MAXIMUM_OBSERVATIONS)
    case Some(_) => false
  }

  /** The run of a barrier: at most eight queries; it ends at the first answer
      that is lost or malformed, or that makes the last two agree on the target,
      or at the eighth; or the context ends it. */
  predicate BarrierRun<T(==)>(answers: seq<Answer<T>>, target: Option<T>, err: Option<Failure>) {
    var n := |answers|;
    && 1 <= n <= MAXIMUM_OBSERVATIONS
    && Pending(answers[..n - 1], target)
    && Ends(answers[n - 1], Converged(answers, target), n, err)
  }

  lemma {:induction false} PendingPrefix<T>(answers: seq<Answer<T>>, target: Option<T>, k: nat)
    requires Pending(answers, target) && 0 < k <= |answers|
    ensures Pending(answers[..k], target) && Tolerable(answers[k - 1]) && !Converged(answers[..k], target)
  {
    if k == |answers| {
      assert answers[..k] == answers;
    } else {
      assert answers[..|answers| - 1][..k] == answers[..k];
      PendingPrefix(answers[..|answers| - 1], target, k);
    }
  }

  /** The answers alone decide how a barrier ends, and after how many queries,
      unless the context ends it. */
  lemma BarrierIsExact<T>(stream: seq<Answer<T>>, target: Option<T>, m: nat, first: Option<Failure>, n: nat,
                          second: Option<Failure>)
    requires m <= n <= |stream|
    requires BarrierRun(stream[..m], target, first) && BarrierRun(stream[..n], target, second)
    requires first != Some(Canceled) && second != Some(Canceled)
    ensures m == n && first == second
  {
    assert stream[..n][..n - 1] == stream[..n - 1];
    if m < n && Ends(stream[m - 1], Converged(stream[..m], target), m, first) {
      assert stream[..n - 1][..m] == stream[..m];
      PendingPrefix(stream[..n - 1], target, m);
    }
  }

  /** A barrier passes at the first two successive answers that are valid, equal
      and on target, and not before. */
  lemma PassedMeansTwice<T>(answers: seq<Answer<T>>, target: Option<T>)
    requires BarrierRun(answers, target, None)
    ensures
      var n := |answers|;
      && n >= 2 && answers[n - 1].Read? && answers[n - 1].reading.Observed? && answers[n - 2] == answers[n - 1]
      && (target.Some? ==> answers[n - 1].reading.value == target.value)
      && (forall k | 0 < k < n - 1 :: answers[k - 1] != answers[k] || !OnTarget(answers[k], target))
  {
    var n := |answers|;
    forall k | 0 < k < n - 1 ensures answers[k - 1] != answers[k] || !OnTarget(answers[k], target) {
      PendingPrefix(answers[..n - 1], target, k + 1);
      assert answers[..n - 1][..k + 1] == answers[..k + 1];
    }
  }

  /** The reading kept as the last observation. */
  function LastRead<T>(answers: seq<Answer<T>>): Option<Reading<T>> {
    if answers == [] then None
    else if answers[|answers| - 1].Read? then Some(answers[|answers| - 1].reading)
    else LastRead(answers[..|answers| - 1])
  }

  /** A stretch of the log that is one barrier's. */
  predicate Barrier<T(==)>(log: seq<Interaction>, query: Command, parse: string -> Reading<T>, target: Option<T>,
                           err: Option<Failure>)
  {
    QueriesOnly(log, query) && BarrierRun(Answers(parse, log), target, err)
  }

  // ---- The loops ---------------------------------------------------------------------------

  lemma Ended<T>(answers: seq<Answer<T>>, answer: Answer<T>, target: Option<T>, err: Option<Failure>)
    requires |answers| < MAXIMUM_OBSERVATIONS && Pending(answers, target)
    requires Ends(answer, Converged(answers + [answer], target), |answers| + 1, err)
    ensures BarrierRun(answers + [answer], target, err)
  {
    assert (answers + [answer])[..|answers|] == answers;
  }

  lemma StillPending<T>(answers: seq<Answer<T>>, answer: Answer<T>, target: Option<T>)
    requires Pending(answers, target) && Tolerable(answer) && !Converged(answers + [answer], target)
    ensures Pending(answers + [answer], target)
  {
    assert (answers + [answer])[..|answers|] == answers;
  }

  function LastAnswer<T>(answers: seq<Answer<T>>): Option<Answer<T>> {
    if answers == [] then None else Some(answers[|answers| - 1])
  }

  lemma ConvergedAppend<T>(answers: seq<Answer<T>>, answer: Answer<T>, target: Option<T>)
    ensures Converged(answers + [answer], target) <==> LastAnswer(answers) == Some(answer) && OnTarget(answer, target)
    ensures LastAnswer(answers + [answer]) == Some(answer)
  {
  }

  lemma LastReadAppend<T>(answers: seq<Answer<T>>, answer: Answer<T>)
    ensures LastRead(answers + [answer]) == if answer.Read? then Some(answer.reading) else LastRead(answers)
  {
    assert (answers + [answer])[..|answers|] == answers;
  }

  /** The end of both loops' bodies: a second match passes the barrier if the
      context is still live, the last observation ends it, else a pause. */
  method Conclude(device: Transaction, matches: nat, observations: nat) returns (done: bool, err: Option<Failure>)
    requires !device.canceled && observations <= MAXIMUM_OBSERVATIONS
    modifies device`checked, device`canceled
    ensures device.canceled <==> done && err == Some(Canceled)
    ensures !done ==> matches < 2 && observations < MAXIMUM_OBSERVATIONS
    ensures done ==>
              match err
              case None => matches >= 2
              case Some(Nonconvergence) => matches < 2 && observations == MAXIMUM_OBSERVATIONS
              case Some(Canceled) => matches >= 2 || observations < MAXIMUM_OBSERVATIONS
              case Some(_) => false
  {
    if matches >= 2 {
      var ended := device.ContextEnded();
      return true, if ended then Some(Canceled) else None;
    }
    if observations >= MAXIMUM_OBSERVATIONS {
      return true, Some(Nonconvergence);
    }
    var ended := device.Pace();
    return ended, if ended then Some(Canceled) else None;
  }

  /** What a loop has seen so far, and the last of it. */
  ghost predicate Seen<T>(run: seq<Interaction>, query: Command, parse: string -> Reading<T>, target: Option<T>,
                          observations: nat, last: Option<Reading<T>>)
  {
    && QueriesOnly(run, query) && |run| == observations < MAXIMUM_OBSERVATIONS
    && Pending(Answers(parse, run), target)
    && last == LastRead(Answers(parse, run))
    && (observations > 0 ==> last.Some? && LastAnswer(Answers(parse, run)) == Some(Read(last.value)))
  }

  lemma AnswersAppend<T>(parse: string -> Reading<T>, run: seq<Interaction>, i: Interaction)
    ensures Answers(parse, run + [i]) == Answers(parse, run) + [AnswerOf(parse, i.outcome)]
    ensures |Answers(parse, run)| == |run|
  {
    assert (run + [i])[..|run|] == run;
    AnswersLength(parse, run);
  }

  lemma {:induction false} AnswersLength<T>(parse: string -> Reading<T>, run: seq<Interaction>)
    ensures |Answers(parse, run)| == |run|
  {
    if run != [] {
      AnswersLength(parse, run[..|run| - 1]);
    }
  }

  /** An exchange whose answer ends the loop completes the barrier. */
  lemma BarrierEnds<T>(run: seq<Interaction>, i: Interaction, query: Command, parse: string -> Reading<T>,
                       target: Option<T>, answer: Answer<T>, err: Failure)
    requires QueriesOnly(run, query) && i.command == query && |run| < MAXIMUM_OBSERVATIONS
    requires Pending(Answers(parse, run), target) && answer == AnswerOf(parse, i.outcome)
    requires (err.Lost? && answer == Gone(err.cause)) || (err.MalformedReply? && answer == Read(Malformed))
    ensures Barrier(run + [i], query, parse, target, Some(err))
  {
    AnswersAppend(parse, run, i);
    assert (run + [i])[..|run|] == run;
    Ended(Answers(parse, run), answer, target, Some(err));
  }

  lemma LastReadNext<T>(run: seq<Interaction>, i: Interaction, parse: string -> Reading<T>, answer: Answer<T>)
    requires answer == AnswerOf(parse, i.outcome)
    ensures LastRead(Answers(parse, run + [i])) ==
            if answer.Read? then Some(answer.reading) else LastRead(Answers(parse, run))
  {
    AnswersAppend(parse, run, i);
    LastReadAppend(Answers(parse, run), answer);
  }

  /** A failed exchange or a malformed reply ends the loop; the former leaves the
      last observation as it was. */
  lemma BadAnswer<T>(run: seq<Interaction>, query: Command, parse: string -> Reading<T>, target: Option<T>,
                     observations: nat, last: Option<Reading<T>>, outcome: Outcome)
    requires Seen(run, query, parse, target, observations, last)
    requires !Tolerable(AnswerOf(parse, outcome))
    ensures Barrier(run + [Interaction(query, outcome)], query, parse, target,
              Some(if outcome.Failed? then Lost(outcome.cause) else MalformedReply))
    ensures LastRead(Answers(parse, run + [Interaction(query, outcome)])) ==
            if outcome.Failed? then last else Some(parse(outcome.response))
  {
    var i := Interaction(query, outcome);
    match outcome {
      case Failed(cause) =>
        BarrierEnds(run, i, query, parse, target, Gone(cause), Lost(cause));
        LastReadNext(run, i, parse, Gone(cause));
      case Replied(response) =>
        BarrierEnds(run, i, query, parse, target, Read(Malformed), MalformedReply);
        LastReadNext(run, i, parse, Read(Malformed));
    }
  }

  /** A tolerable reply passes the barrier if it repeats the last one and is on
      target, and ends the loop if it is the eighth. */
  lemma GoodAnswer<T>(run: seq<Interaction>, query: Command, parse: string -> Reading<T>, target: Option<T>,
                      observations: nat, last: Option<Reading<T>>, response: string, err: Option<Failure>)
    requires Seen(run, query, parse, target, observations, last) && !parse(response).Malformed?
    ensures
      var reading := parse(response);
      var run' := run + [Interaction(query, Replied(response))];
      var passes := Repeats(last, reading, target);
      && LastRead(Answers(parse, run')) == Some(reading)
      && (passes && (err.None? || err == Some(Canceled)) ==> Barrier(run', query, parse, target, err))
      && (!passes && observations + 1 == MAXIMUM_OBSERVATIONS && err == Some(Nonconvergence) ==>
            Barrier(run', query, parse, target, err))
      && (observations + 1 < MAXIMUM_OBSERVATIONS && err == Some(Canceled) ==> Barrier(run', query, parse, target, err))
      && (!passes && observations + 1 < MAXIMUM_OBSERVATIONS ==>
            Seen(run', query, parse, target, observations + 1, Some(reading)))
  {
    var i := Interaction(query, Replied(response));
    AnswersAppend(parse, run, i);
    AnswersAppend(parse, run + [i], i);
    var answers, answer := Answers(parse, run), Read(parse(response));
    assert (run + [i])[..|run|] == run;
    ConvergedAppend(answers, answer, target);
    LastReadAppend(answers, answer);
    if Ends(answer, Converged(answers + [answer], target), |answers| + 1, err) {
      Ended(answers, answer, target, err);
    }
    if !Converged(answers + [answer], target) {
      StillPending(answers, answer, target);
    }
  }

  /** `last` repeats itself in `reading`, on the target if there is one. */
  predicate Repeats<T(==)>(last: Option<Reading<T>>, reading: Reading<T>, target: Option<T>) {
    last == Some(reading) && reading.Observed? && (target.None? || target == Some(reading.value))
  }

  /** The end of a loop's body behind a tolerable reply, and what it makes of the
      run. */
  method ConcludeWith<T>(device: Transaction, matches: nat, ghost run: seq<Interaction>, ghost query: Command,
                         ghost parse: string -> Reading<T>, ghost target: Option<T>, observations: nat,
                         ghost last: Option<Reading<T>>, ghost response: string)
    returns (done: bool, err: Option<Failure>)
    requires !device.canceled && Seen(run, query, parse, target, observations, last) && !parse(response).Malformed?
    requires matches >= 2 <==> Repeats(last, parse(response), target)
    modifies device`checked, device`canceled
    ensures device.canceled <==> done && err == Some(Canceled)
    ensures LastRead(Answers(parse, run + [Interaction(query, Replied(response))])) == Some(parse(response))
    ensures done ==> Barrier(run + [Interaction(query, Replied(response))], query, parse, target, err)
    ensures !done ==>
              && matches < 2
              && Seen(run + [Interaction(query, Replied(response))], query, parse, target, observations + 1,
                   Some(parse(response)))
  {
    done, err := Conclude(device, matches, observations + 1);
    GoodAnswer(run, query, parse, target, observations, last, response, err);
  }

  lemma Regroup(log: seq<Interaction>, run: seq<Interaction>, i: Interaction)
    ensures log + run + [i] == log + (run + [i])
  {
  }

  /** `waitForGeneratorWaveformObservation`, whatever is queried and
      whatever the parser makes of the replies. */
  method TargetLoop<T(==)>(device: Transaction, query: Command, parse: string -> Reading<T>, requested: T)
    returns (last: Option<Reading<T>>, err: Option<Failure>, ghost run: seq<Interaction>)
    requires !device.canceled
    modifies device
    ensures device.log == old(device.log) + run
    ensures Barrier(run, query, parse, Some(requested), err)
    ensures last == LastRead(Answers(parse, run))
    ensures device.canceled <==> err == Some(Canceled)
  {
    var matches, observations := 0, 0;
    last := None;
    run := [];
    while true
      invariant device.log == old(device.log) + run && !device.canceled
      invariant Seen(run, query, parse, Some(requested), observations, last)
      invariant matches == if last == Some(Observed(requested)) then 1 else 0
      decreases MAXIMUM_OBSERVATIONS - observations
    {
      var outcome := device.Execute(query);
      Regroup(old(device.log), run, Interaction(query, outcome));
      ghost var before := run;
      run := run + [Interaction(query, outcome)];
      if outcome.Failed? {
        BadAnswer(before, query, parse, Some(requested), observations, last, outcome);
        return last, Some(Lost(outcome.cause)), run;
      }
      var reading := parse(outcome.response);
      if reading.Malformed? {
        BadAnswer(before, query, parse, Some(requested), observations, last, outcome);
        return Some(reading), Some(MalformedReply), run;
      }
      ghost var previous := last;
      last := Some(reading);
      matches := CountTarget(matches, previous, reading, requested);
      var done;
      done, err := ConcludeWith(device, matches, before, query, parse, Some(requested), observations, previous,
                                outcome.response);
      if done {
        return;
      }
      observations := observations + 1;
    }
  }

  /** `waitForGeneratorOutput`; without a target, any agreeing pair will do. */
  method OutputLoop(device: Transaction, query: Command, parse: string -> Reading<bool>, requested: Option<bool>)
    returns (last: Option<Reading<bool>>, err: Option<Failure>, ghost run: seq<Interaction>)
    requires !device.canceled
    modifies device
    ensures device.log == old(device.log) + run
    ensures Barrier(run, query, parse, requested, err)
    ensures last == LastRead(Answers(parse, run))
    ensures device.canceled <==> err == Some(Canceled)
  {
    var matches, observations := 0, 0;
    var previous: Option<bool> := None;
    last := None;
    run := [];
    while true
      invariant device.log == old(device.log) + run && !device.canceled
      invariant Seen(run, query, parse, requested, observations, last)
      invariant previous == if last.Some? && last.value.Observed? then Some(last.value.value) else None
      invariant matches == if previous.Some? && (requested.None? || requested == previous) then 1 else 0
      decreases MAXIMUM_OBSERVATIONS - observations
    {
      var outcome := device.Execute(query);
      Regroup(old(device.log), run, Interaction(query, outcome));
      ghost var before := run;
      run := run + [Interaction(query, outcome)];
      if outcome.Failed? {
        BadAnswer(before, query, parse, requested, observations, last, outcome);
        return last, Some(Lost(outcome.cause)), run;
      }
      var reading := parse(outcome.response);
      if reading.Malformed? {
        BadAnswer(before, query, parse, requested, observations, last, outcome);
        return Some(reading), Some(MalformedReply), run;
      }
      ghost var earlier := last;
      last := Some(reading);
      matches, previous := CountMatch(matches, previous, reading, requested);
      var done;
      done, err := ConcludeWith(device, matches, before, query, parse, requested, observations, earlier,
                                outcome.response);
      if done {
        return;
      }
      observations := observations + 1;
    }
  }

  method CountTarget<T(==)>(matches: nat, ghost previous: Option<Reading<T>>, reading: Reading<T>, requested: T)
    returns (matches': nat)
    requires matches == if previous == Some(Observed(requested)) then 1 else 0
    ensures matches' >= 2 <==> previous == Some(reading) && reading == Observed(requested)
    ensures matches' < 2 ==> matches' == if reading == Observed(requested) then 1 else 0
  {
    if reading == Observed(requested) {
      matches' := matches + 1;
    } else {
      matches' := 0;
    }
  }

  /** The loop's bookkeeping: an unavailable reply breaks adjacency, a value off
      the target counts as no match but is remembered. */
  method CountMatch(matches: nat, previous: Option<bool>, reading: Reading<bool>, requested: Option<bool>)
    returns (matches': nat, previous': Option<bool>)
    requires !reading.Malformed?
    requires matches == if previous.Some? && (requested.None? || requested == previous) then 1 else 0
    ensures previous' == if reading.Observed? then Some(reading.value) else None
    ensures matches' >= 2 <==>
            previous'.Some? && previous == previous' && (requested.None? || requested == previous')
    ensures matches' < 2 ==>
              matches' == if previous'.Some? && (requested.None? || requested == previous') then 1 else 0
  {
    if reading.Unavailable? {
      return 0, None;
    }
    if requested.Some? && reading.value != requested.value {
      matches' := 0;
    } else if previous.Some? && previous.value == reading.value {
      matches' := matches + 1;
    } else {
      matches' := 1;
    }
    previous' := Some(reading.value);
  }

  // ---- What a passed barrier shows -------------------------------------------------------

  /** The last two exchanges are the query, answered both times with `value`. */
  predicate ReadTwice<T(==)>(log: seq<Interaction>, query: Command, parse: string -> Reading<T>, value: T) {
    var n := |log|;
    && n >= 2 && log[n - 2].command == log[n - 1].command == query
    && AnswerOf(parse, log[n - 2].outcome) == AnswerOf(parse, log[n - 1].outcome) == Read(Observed(value))
  }

  lemma {:induction false} AnswersAt<T>(parse: string -> Reading<T>, log: seq<Interaction>, query: Command, k: nat)
    requires k < |log| && QueriesOnly(log, query)
    ensures |Answers(parse, log)| == |log| && Answers(parse, log)[k] == AnswerOf(parse, log[k].outcome)
    ensures log[k].command == query
  {
    AnswersLength(parse, log[..|log| - 1]);
    if k < |log| - 1 {
      AnswersAt(parse, log[..|log| - 1], query, k);
    }
  }

  /** Whatever the parser: a passed barrier ends in two such exchanges, and the
      value is the target, if there is one. */
  lemma BarrierReadsTwice<T>(log: seq<Interaction>, query: Command, parse: string -> Reading<T>, target: Option<T>)
    returns (value: T)
    requires Barrier(log, query, parse, target, None)
    ensures ReadTwice(log, query, parse, value) && LastRead(Answers(parse, log)) == Some(Observed(value))
    ensures target.Some? ==> value == target.value
  {
    var answers := Answers(parse, log);
    PassedMeansTwice(answers, target);
    AnswersLength(parse, log);
    AnswersAt(parse, log, query, |log| - 2);
    AnswersAt(parse, log, query, |log| - 1);
    value := answers[|log| - 1].reading.value;
  }
}
