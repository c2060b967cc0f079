/** The multimeter patch: a function change is confirmed by reading it back twice
    before anything depends on it, and again after the settings. */
module DmmTransaction {
  import opened Commands
  import opened Wrappers
  import opened GeneratorCommands
  import opened GeneratorBarriers
  import opened GeneratorTransaction

  datatype DmmPhase = DmmAdmission | DmmConfigure | DmmInitial | DmmWrite | DmmFinal

  /** The diagnostic: writes acknowledged, and the last valid selection read. */
  datatype DmmError<+S> = DmmError(phase: DmmPhase, completed: nat, last: Option<S>, cause: Failure)

  /** A compiled patch: the first command selects the function, if there is one. */
  datatype DmmPlan<+S> = DmmPlan(selection: Option<S>, commands: seq<Command>)

  // ---- The barrier ---------------------------------------------------------------------

  /** How the `DMM:CONFIGURE?` loop may end. It has no bound of its own; the
      operation's context ends it at the latest. */
  predicate DmmEnds<S(==)>(answer: Answer<S>, converged: bool, err: Option<Failure>) {
    match err
    case None => converged
    case Some(Lost(cause)) => answer == Gone(cause)
    case Some(MalformedReply) => answer == Read(Malformed)
    case Some(Canceled) => Tolerable(answer)
    case Some(_) => false
  }

  predicate DmmBarrierRun<S(==)>(answers: seq<Answer<S>>, target: Option<S>, err: Option<Failure>) {
    var n := |answers|;
    && n >= 1 && Pending(answers[..n - 1], target)
    && DmmEnds(answers[n - 1], Converged(answers, target), err)
  }

  predicate DmmBarrier<S(==)>(log: seq<Interaction>, query: Command, parse: string -> Reading<S>, target: S,
                              err: Option<Failure>)
  {
    QueriesOnly(log, query) && DmmBarrierRun(Answers(parse, log), Some(target), err)
  }

  /** The barrier passes at the first two successive replies that are the
      target, and at no others. */
  lemma DmmPassedMeansTwice<S>(answers: seq<Answer<S>>, target: S)
    requires DmmBarrierRun(answers, Some(target), None)
    ensures
      var n := |answers|;
      && n >= 2 && answers[n - 2] == answers[n - 1] == Read(Observed(target))
      && (forall k | 0 < k < n - 1 :: answers[k - 1] != Read(Observed(target)) || answers[k] != Read(Observed(target)))
  {
    var n := |answers|;
    forall k | 0 < k < n - 1
      ensures answers[k - 1] != Read(Observed(target)) || answers[k] != Read(Observed(target))
    {
      PendingPrefix(answers[..n - 1], Some(target), k + 1);
      assert answers[..n - 1][..k + 1] == answers[..k + 1];
    }
  }

  /** The replies alone decide how the barrier ends, and after how many queries,
      unless the context ends it. */
  lemma DmmBarrierIsExact<S>(stream: seq<Answer<S>>, target: Option<S>, m: nat, first: Option<Failure>, n: nat,
                             second: Option<Failure>)
    requires m <= n <= |stream|
    requires DmmBarrierRun(stream[..m], target, first) && DmmBarrierRun(stream[..n], target, second)
    requires first != Some(Canceled) && second != Some(Canceled)
    ensures m == n && first == second
  {
    assert stream[..n][..n - 1] == stream[..n - 1];
    if m < n && DmmEnds(stream[m - 1], Converged(stream[..m], target), first) {
      assert stream[..n - 1][..m] == stream[..m];
      PendingPrefix(stream[..n - 1], target, m);
    }
  }

  /** The last valid observation; unavailable, malformed and lost replies do not
      replace it. */
  function LastValid<S>(answers: seq<Answer<S>>): Option<S> {
    if answers == [] then None
    else
      var last := answers[|answers| - 1];
      if last.Read? && last.reading.Observed? then Some(last.reading.value) else LastValid(answers[..|answers| - 1])
  }

  lemma LastValidAppend<S>(parse: string -> Reading<S>, run: seq<Interaction>, i: Interaction)
    ensures
      var answer := AnswerOf(parse, i.outcome);
      LastValid(Answers(parse, run + [i])) ==
      if answer.Read? && answer.reading.Observed? then Some(answer.reading.value) else LastValid(Answers(parse, run))
  {
    AnswersAppend(parse, run, i);
    assert (Answers(parse, run) + [AnswerOf(parse, i.outcome)])[..|run|] == Answers(parse, run);
  }

  /** What the loop has seen so far, none of it decisive. */
  ghost predicate DmmSeen<S>(run: seq<Interaction>, query: Command, parse: string -> Reading<S>, target: S,
                             matches: nat)
  {
    && QueriesOnly(run, query) && Pending(Answers(parse, run), Some(target))
    && matches == if LastAnswer(Answers(parse, run)) == Some(Read(Observed(target))) then 1 else 0
  }

  lemma DmmAnswer<S>(run: seq<Interaction>, query: Command, parse: string -> Reading<S>, target: S, matches: nat,
                     outcome: Outcome, err: Option<Failure>)
    requires DmmSeen(run, query, parse, target, matches)
    ensures
      var run' := run + [Interaction(query, outcome)];
      var answer := AnswerOf(parse, outcome);
      var hit := answer == Read(Observed(target));
      && (DmmEnds(answer, hit && matches == 1, err) ==> DmmBarrier(run', query, parse, target, err))
      && (Tolerable(answer) && !(hit && matches == 1) ==>
            DmmSeen(run', query, parse, target, if hit then 1 else 0))
  {
    var i := Interaction(query, outcome);
    var answers, answer := Answers(parse, run), AnswerOf(parse, outcome);
    AnswersAppend(parse, run, i);
    assert (run + [i])[..|run|] == run;
    assert (answers + [answer])[..|answers|] == answers;
    ConvergedAppend(answers, answer, Some(target));
    if Tolerable(answer) && !Converged(answers + [answer], Some(target)) {
      StillPending(answers, answer, Some(target));
    }
  }

  /** `waitForDMMFunction`: cancellation is reported exactly when a look at the
      context found it ended, so success means a live one. `deadline` bounds how
      often the context can be looked at before the operation's timeout has ended
      it. */
  method WaitForFunction<S(==)>(device: Transaction, query: Command, parse: string -> Reading<S>, requested: S,
                                ghost deadline: nat)
    returns (last: Option<S>, err: Option<Failure>, ghost run: seq<Interaction>)
    requires !device.canceled && forall k | k >= deadline :: device.endings(k)
    modifies device
    ensures device.log == old(device.log) + run && DmmBarrier(run, query, parse, requested, err)
    ensures device.canceled <==> err == Some(Canceled)
    ensures last == LastValid(Answers(parse, run))
  {
    var matches := 0;
    run := [];
    last := None;
    while true
      invariant device.log == old(device.log) + run && DmmSeen(run, query, parse, requested, matches)
      invariant !device.canceled && last == LastValid(Answers(parse, run))
      decreases deadline - device.checked
    {
      var outcome := device.Execute(query);
      Regroup(old(device.log), run, Interaction(query, outcome));
      ghost var before, earlier := run, matches;
      LastValidAppend(parse, run, Interaction(query, outcome));
      run := run + [Interaction(query, outcome)];
      if outcome.Failed? {
        err := Some(Lost(outcome.cause));
        DmmAnswer(before, query, parse, requested, earlier, outcome, err);
        return;
      }
      var reading := parse(outcome.response);
      if reading.Malformed? {
        err := Some(MalformedReply);
        DmmAnswer(before, query, parse, requested, earlier, outcome, err);
        return;
      }
      last := if reading.Observed? then Some(reading.value) else last;
      matches := CountHit(matches, reading, requested);
      var done;
      done, err := Settle(device, matches);
      DmmAnswer(before, query, parse, requested, earlier, outcome, err);
      if done {
        return;
      }
    }
  }

  method CountHit<S(==)>(matches: nat, reading: Reading<S>, requested: S) returns (matches': nat)
    requires matches <= 1
    ensures matches' == if reading != Observed(requested) then 0 else matches + 1
  {
    if reading == Observed(requested) {
      matches' := matches + 1;
    } else {
      matches' := 0;
    }
  }

  /** The end of the loop's body. A pause that goes on looked at the context, and
      found it live. */
  method Settle(device: Transaction, matches: nat) returns (done: bool, err: Option<Failure>)
    requires matches <= 2 && !device.canceled
    modifies device`checked, device`canceled
    ensures device.canceled <==> done && err == Some(Canceled)
    ensures done ==> (err.None? && matches == 2) || err == Some(Canceled)
    ensures !done ==> matches < 2 && device.checked > old(device.checked) && !device.endings(device.checked - 1)
  {
    if matches >= 2 {
      var ended := device.ContextEnded();
      return true, if ended then Some(Canceled) else None;
    }
    var ended := device.Pace();
    return ended, if ended then Some(Canceled) else None;
  }

  // ---- The operation ---------------------------------------------------------------------

  datatype DmmTrace = DmmTrace(
    configure: Option<Interaction>,
    initial: Option<Run>,
    rest: seq<Interaction>,
    final: Option<Run>)

  const NO_EXCHANGE := DmmTrace(None, None, [], None)

  function DmmWhole(t: DmmTrace): seq<Interaction> {
    One(t.configure) + LogOf(t.initial) + t.rest + LogOf(t.final)
  }

  predicate BarrierOf<S(==)>(run: Option<Run>, query: Command, parse: string -> Reading<S>, target: Option<S>) {
    run.Some? ==> target.Some? && DmmBarrier(run.value.log, query, parse, target.value, run.value.err)
  }

  /** Settings only after a passed barrier, the final barrier only after all of
      them, and only if there are any. */
  predicate DmmOrderly<S(==)>(plan: DmmPlan<S>, query: Command, parse: string -> Reading<S>, t: DmmTrace) {
    && BarrierOf(t.initial, query, parse, plan.selection) && BarrierOf(t.final, query, parse, plan.selection)
    && (t.configure.Some? ==>
          plan.selection.Some? && plan.commands != [] && t.configure.value.command == plan.commands[0])
    && (t.initial.Some? ==> Acked(t.configure))
    && (t.rest != [] ==>
          if plan.selection.None? then Sequel(t.rest, plan.commands)
          else Passed(t.initial) && Sequel(t.rest, plan.commands[1..]))
    && (t.final.Some? ==> Passed(t.initial) && t.rest != [] && SentAll(t.rest, plan.commands[1..]))
  }

  function ReadIn<S>(parse: string -> Reading<S>, run: Option<Run>): Option<S> {
    LastValid(Answers(parse, LogOf(run)))
  }

  /** Where the operation ended and why; that its count of completed writes is
      the number of acknowledged ones; and that it reports the selection last
      read. */
  ghost predicate DmmTruthful<S>(plan: DmmPlan<S>, parse: string -> Reading<S>, t: DmmTrace, err: Option<DmmError<S>>) {
    match err
    case None =>
      if plan.selection.None? then SentAll(t.rest, plan.commands)
      else
        && plan.commands != [] && Acked(t.configure) && Passed(t.initial) && SentAll(t.rest, plan.commands[1..])
        && (if |plan.commands| == 1 then t.final.None? else Passed(t.final))
    case Some(e) =>
      && e.completed == |AckedText(t.configure)| + |AckedTexts(t.rest)|
      && e.last == (if ReadIn(parse, t.final).Some? then ReadIn(parse, t.final) else ReadIn(parse, t.initial))
      && match e.phase
         case DmmAdmission => t == NO_EXCHANGE
         case DmmConfigure =>
           && t.configure.Some? && t == NO_EXCHANGE.(configure := t.configure)
           && LossOf(One(t.configure)) == Some(e.cause)
         case DmmInitial => t.initial.Some? && t.initial.value.err == Some(e.cause) && t.rest == [] && t.final.None?
         case DmmWrite => LossOf(t.rest) == Some(e.cause) && !AllAcked(t.rest) && t.final.None?
         case DmmFinal => t.final.Some? && t.final.value.err == Some(e.cause)
  }

  /** `executeWritesWith`. */
  method ExecuteWrites(device: Transaction, commands: seq<Command>)
    returns (err: Option<Failure>, completed: nat, ghost run: seq<Interaction>)
    modifies device`executed, device`log
    ensures device.log == old(device.log) + run && completed == |AckedTexts(run)|
    ensures Sequel(run, commands) && (err.None? ==> SentAll(run, commands))
    ensures err.Some? ==> !AllAcked(run) && LossOf(run) == err
    ensures commands != [] ==> run != []
    ensures err.Some? ==> err.value.Lost?
  {
    run := [];
    completed := 0;
    for k := 0 to |commands|
      invariant device.log == old(device.log) + run && completed == |AckedTexts(run)|
      invariant CommandsOf(run) == commands[..k] && AllAcked(run)
    {
      var outcome := device.Execute(commands[k]);
      ghost var i := Interaction(commands[k], outcome);
      Regroup(old(device.log), run, i);
      OneMoreInteraction(run, i);
      run := run + [i];
      if outcome.Failed? {
        return Some(Lost(outcome.cause)), completed, run;
      }
      completed := completed + 1;
    }
    err := None;
  }

  /** `SetDMM` behind compilation; `admission` is the error that keeps the
      transaction from being admitted, if any. */
  method SetDmm<S(==)>(plan: DmmPlan<S>, query: Command, parse: string -> Reading<S>, admission: Option<nat>,
                       device: Transaction, ghost deadline: nat)
    returns (err: Option<DmmError<S>>, ghost t: DmmTrace)
    requires plan.selection.Some? ==> plan.commands != []
    requires !device.canceled && forall k | k >= deadline :: device.endings(k)
    modifies device
    ensures device.log == old(device.log) + DmmWhole(t)
    ensures DmmOrderly(plan, query, parse, t) && DmmTruthful(plan, parse, t, err)
    ensures device.canceled <==> err.Some? && err.value.cause == Canceled
  {
    t := NO_EXCHANGE;
    assert device.log == old(device.log) + DmmWhole(t);
    if admission.Some? {
      return Some(DmmError(DmmAdmission, 0, None, Admission(admission.value))), t;
    }
    if plan.selection.None? {
      var failure, completed;
      ghost var run;
      failure, completed, run := ExecuteWrites(device, plan.commands);
      t := t.(rest := run);
      assert DmmWhole(t) == run;
      if failure.Some? {
        return Some(DmmError(DmmWrite, completed, None, failure.value)), t;
      }
      return None, t;
    }
    err, t := SetFunction(plan, query, parse, device, deadline, old(device.log));
  }

  method SetFunction<S(==)>(plan: DmmPlan<S>, query: Command, parse: string -> Reading<S>, device: Transaction,
                            ghost deadline: nat, ghost start: seq<Interaction>)
    returns (err: Option<DmmError<S>>, ghost t: DmmTrace)
    requires plan.selection.Some? && plan.commands != [] && device.log == start
    requires !device.canceled && forall k | k >= deadline :: device.endings(k)
    modifies device
    ensures device.log == start + DmmWhole(t)
    ensures DmmOrderly(plan, query, parse, t) && DmmTruthful(plan, parse, t, err)
    ensures device.canceled <==> err.Some? && err.value.cause == Canceled
  {
    var outcome := device.Execute(plan.commands[0]);
    ghost var i := Interaction(plan.commands[0], outcome);
    t := NO_EXCHANGE.(configure := Some(i));
    assert DmmWhole(t) == [i];
    if outcome.Failed? {
      return Some(DmmError(DmmConfigure, 0, None, Lost(outcome.cause))), t;
    }
    err, t := ConfirmFunction(plan, query, parse, device, deadline, start, t);
  }

  /** The initial barrier, and what follows if it passes. */
  method ConfirmFunction<S(==)>(plan: DmmPlan<S>, query: Command, parse: string -> Reading<S>, device: Transaction,
                                ghost deadline: nat, ghost start: seq<Interaction>, ghost before: DmmTrace)
    returns (err: Option<DmmError<S>>, ghost t: DmmTrace)
    requires plan.selection.Some? && plan.commands != [] && device.log == start + DmmWhole(before)
    requires before == NO_EXCHANGE.(configure := before.configure) && Acked(before.configure)
    requires before.configure.value.command == plan.commands[0]
    requires !device.canceled && forall k | k >= deadline :: device.endings(k)
    modifies device
    ensures device.log == start + DmmWhole(t)
    ensures DmmOrderly(plan, query, parse, t) && DmmTruthful(plan, parse, t, err)
    ensures device.canceled <==> err.Some? && err.value.cause == Canceled
  {
    var last, failure;
    ghost var run;
    last, failure, run := WaitForFunction(device, query, parse, plan.selection.value, deadline);
    t := before.(initial := Some(Run(run, failure)));
    AddInitial(start, before, Run(run, failure));
    if failure.Some? {
      return Some(DmmError(DmmInitial, 1, last, failure.value)), t;
    }
    err, t := SetRest(plan, query, parse, device, last, deadline, start, t);
  }

  lemma AddInitial(start: seq<Interaction>, t: DmmTrace, run: Run)
    requires t.initial.None? && t.rest == [] && t.final.None?
    ensures start + DmmWhole(t.(initial := Some(run))) == start + DmmWhole(t) + run.log
  {
  }

  method SetRest<S(==)>(plan: DmmPlan<S>, query: Command, parse: string -> Reading<S>, device: Transaction,
                        read: Option<S>, ghost deadline: nat, ghost start: seq<Interaction>, ghost before: DmmTrace)
    returns (err: Option<DmmError<S>>, ghost t: DmmTrace)
    requires plan.selection.Some? && plan.commands != [] && device.log == start + DmmWhole(before)
    requires DmmOrderly(plan, query, parse, before)
    requires Acked(before.configure) && Passed(before.initial) && before.rest == [] && before.final.None?
    requires read == ReadIn(parse, before.initial)
    requires !device.canceled && forall k | k >= deadline :: device.endings(k)
    modifies device
    ensures device.log == start + DmmWhole(t)
    ensures DmmOrderly(plan, query, parse, t) && DmmTruthful(plan, parse, t, err)
    ensures device.canceled <==> err.Some? && err.value.cause == Canceled
  {
    var failure, completed;
    ghost var run;
    failure, completed, run := ExecuteWrites(device, plan.commands[1..]);
    t := before.(rest := run);
    assert start + DmmWhole(before) + run == start + DmmWhole(t);
    if failure.Some? {
      return Some(DmmError(DmmWrite, completed + 1, read, failure.value)), t;
    }
    if |plan.commands| == 1 {
      return None, t;
    }
    SomethingSent(run, plan.commands[1..]);
    err, t := ConfirmRest(plan, query, parse, device, read, completed + 1, deadline, start, t);
  }

  lemma SomethingSent(run: seq<Interaction>, commands: seq<Command>)
    requires SentAll(run, commands) && commands != []
    ensures run != []
  {
  }

  /** The final barrier, behind the settings. */
  method ConfirmRest<S(==)>(plan: DmmPlan<S>, query: Command, parse: string -> Reading<S>, device: Transaction,
                            read: Option<S>, completed: nat, ghost deadline: nat, ghost start: seq<Interaction>,
                            ghost before: DmmTrace)
    returns (err: Option<DmmError<S>>, ghost t: DmmTrace)
    requires plan.selection.Some? && |plan.commands| > 1 && device.log == start + DmmWhole(before)
    requires DmmOrderly(plan, query, parse, before) && read == ReadIn(parse, before.initial)
    requires Acked(before.configure) && Passed(before.initial) && before.final.None?
    requires before.rest != [] && SentAll(before.rest, plan.commands[1..])
    requires completed == |AckedText(before.configure)| + |AckedTexts(before.rest)|
    requires !device.canceled && forall k | k >= deadline :: device.endings(k)
    modifies device
    ensures device.log == start + DmmWhole(t)
    ensures DmmOrderly(plan, query, parse, t) && DmmTruthful(plan, parse, t, err)
    ensures device.canceled <==> err.Some? && err.value.cause == Canceled
  {
    var last, failure;
    ghost var run;
    last, failure, run := WaitForFunction(device, query, parse, plan.selection.value, deadline);
    t := before.(final := Some(Run(run, failure)));
    AddFinal(start, before, Run(run, failure));
    err := None;
    if failure.Some? {
      err := Some(DmmError(DmmFinal, completed, if last.Some? then last else read, failure.value));
    }
  }

  lemma AddFinal(start: seq<Interaction>, t: DmmTrace, run: Run)
    requires t.final.None?
    ensures start + DmmWhole(t.(final := Some(run))) == start + DmmWhole(t) + run.log
  {
  }

  /** A function patch that succeeds was read back twice in a row after the last
      write, and no setting was sent before the function was. */
  lemma FunctionIsConfirmed<S>(plan: DmmPlan<S>, query: Command, parse: string -> Reading<S>, t: DmmTrace)
    requires DmmOrderly(plan, query, parse, t) && DmmTruthful(plan, parse, t, None) && plan.selection.Some?
    ensures
      var last := if t.final.Some? then t.final else t.initial;
      && last.Some? && (t.rest != [] ==> last == t.final)
      && var answers := Answers(parse, last.value.log);
         && |answers| >= 2
         && answers[|answers| - 2] == answers[|answers| - 1] == Read(Observed(plan.selection.value))
  {
    var last := if t.final.Some? then t.final else t.initial;
    DmmPassedMeansTwice(Answers(parse, last.value.log), plan.selection.value);
    CommandsLength(t.rest);
  }

  lemma {:induction false} CommandsLength(run: seq<Interaction>)
    ensures |CommandsOf(run)| == |run|
  {
    if run != [] {
      CommandsLength(run[..|run| - 1]);
    }
  }
}
