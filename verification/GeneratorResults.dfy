/** What the orderly and truthful runs of the observed generator operation mean
    for whoever looks at the exchanges alone, in any dialect. */
module GeneratorResults {
  import opened Commands
  import opened Wrappers
  import opened GeneratorCommands
  import opened GeneratorBarriers
  import opened GeneratorTransaction

  /** The writes among the exchanges, acknowledged or not. */
  function Mutations(log: seq<Interaction>): seq<Interaction> {
    if log == [] then []
    else Mutations(log[..|log| - 1]) + if log[|log| - 1].command.mode.NoResponse? then [log[|log| - 1]] else []
  }

  lemma {:induction false} MutationsConcat(a: seq<Interaction>, b: seq<Interaction>)
    ensures Mutations(a + b) == Mutations(a) + Mutations(b)
    decreases |b|
  {
    if b == [] {
      assert a + b == a;
    } else {
      assert (a + b)[..|a| + |b| - 1] == a + b[..|b| - 1];
      MutationsConcat(a, b[..|b| - 1]);
    }
  }

  lemma {:induction false} QueriesMutateNothing(run: seq<Interaction>, query: Command)
    requires QueriesOnly(run, query) && query.mode.Ascii?
    ensures Mutations(run) == []
  {
    if run != [] {
      QueriesMutateNothing(run[..|run| - 1], query);
    }
  }

  lemma {:induction false} WritesAreMutations(run: seq<Interaction>)
    requires forall k | 0 <= k < |CommandsOf(run)| :: CommandsOf(run)[k].mode.NoResponse?
    ensures Mutations(run) == run && |CommandsOf(run)| == |run|
  {
    if run != [] {
      var n := |run| - 1;
      assert CommandsOf(run) == CommandsOf(run[..n]) + [run[n].command];
      forall k | 0 <= k < |CommandsOf(run[..n])| ensures CommandsOf(run[..n])[k].mode.NoResponse? {
        assert CommandsOf(run[..n])[k] == CommandsOf(run)[k];
      }
      assert CommandsOf(run)[|CommandsOf(run)| - 1] == run[n].command;
      WritesAreMutations(run[..n]);
    }
  }

  lemma {:induction false} CommandsConcat(a: seq<Interaction>, b: seq<Interaction>)
    ensures CommandsOf(a + b) == CommandsOf(a) + CommandsOf(b)
    ensures AckedTexts(a + b) == AckedTexts(a) + AckedTexts(b)
    decreases |b|
  {
    if b == [] {
      assert a + b == a;
    } else {
      assert (a + b)[..|a| + |b| - 1] == a + b[..|b| - 1];
      CommandsConcat(a, b[..|b| - 1]);
    }
  }

  /** Barriers only query, and writes ask for no response. */
  ghost predicate Quiet<W(!new)>(d: Dialect<W>, e: Evidence<W>, plan: Plan<W>) {
    && (forall run, err, kept :: e.preflight(run, err, kept) ==> Mutations(run) == [])
    && (forall run, err, target :: e.context(run, err, target) ==> Mutations(run) == [])
    && (forall run, err, target :: e.verify(run, err, target) ==> Mutations(run) == [])
    && (forall k | 0 <= k < |plan.writes| :: plan.writes[k].mode.NoResponse?)
    && d.outputOn.mode.NoResponse? && d.outputOff.mode.NoResponse?
  }

  /** The writes of an orderly run, by stage. */
  function Written(t: Trace): seq<Interaction> {
    One(t.waveform) + t.rest + One(t.restore)
  }

  lemma BarriersOnlyQuery<W(!new)>(d: Dialect<W>, e: Evidence<W>, plan: Plan<W>, t: Trace)
    requires Quiet(d, e, plan) && Orderly(d, e, plan, t)
    ensures Mutations(LogOf(t.preflight)) == Mutations(LogOf(t.context)) == Mutations(LogOf(t.verify)) == []
  {
  }

  lemma OneWritten(i: Option<Interaction>)
    ensures CommandsOf(One(i)) == CommandOf(i) && AckedTexts(One(i)) == AckedText(i)
    ensures i.Some? && i.value.command.mode.NoResponse? ==> Mutations(One(i)) == One(i)
    ensures i.None? ==> Mutations(One(i)) == One(i)
  {
    if i.Some? {
      assert [i.value][..0] == [];
    }
  }

  lemma WrittenAreMutations<W(!new)>(d: Dialect<W>, e: Evidence<W>, plan: Plan<W>, t: Trace)
    requires Quiet(d, e, plan) && Orderly(d, e, plan, t)
    ensures Mutations(One(t.waveform)) == One(t.waveform) && Mutations(t.rest) == t.rest
    ensures Mutations(One(t.restore)) == One(t.restore)
  {
    OneWritten(t.waveform);
    OneWritten(t.restore);
    if t.rest != [] {
      var rest := Rest(plan);
      forall k | 0 <= k < |CommandsOf(t.rest)| ensures CommandsOf(t.rest)[k].mode.NoResponse? {
        assert CommandsOf(t.rest)[k] == rest[k];
        assert rest[k] == plan.writes[if rest == plan.writes then k else k + 1];
      }
      WritesAreMutations(t.rest);
    }
  }

  lemma QueriesDropOut(before: seq<Interaction>, writes: seq<Interaction>, queries: seq<Interaction>)
    requires Mutations(writes) == writes && Mutations(queries) == []
    ensures Mutations(before + writes + queries) == Mutations(before) + writes
  {
    MutationsConcat(before, writes);
    MutationsConcat(before + writes, queries);
  }

  /** Six stretches, of which the first, the third and the last only query. */
  lemma Alternating(a: seq<Interaction>, b: seq<Interaction>, c: seq<Interaction>, f: seq<Interaction>,
                    g: seq<Interaction>, h: seq<Interaction>)
    requires Mutations(a) == Mutations(c) == Mutations(h) == []
    requires Mutations(b) == b && Mutations(f) == f && Mutations(g) == g
    ensures Mutations(a + b + c + f + g + h) == b + f + g && Mutations(a + b + c) == b
  {
    QueriesDropOut(a, b, c);
    assert [] + b == b;
    MutationsConcat(a + b + c, f);
    QueriesDropOut(a + b + c + f, g, h);
  }

  /** The writes of an orderly run are those of its stages, and no others. */
  lemma MutationsByStage<W(!new)>(d: Dialect<W>, e: Evidence<W>, plan: Plan<W>, t: Trace)
    requires Quiet(d, e, plan) && Orderly(d, e, plan, t)
    ensures Mutations(Whole(t)) == Written(t)
    ensures Mutations(LogOf(t.preflight) + One(t.waveform) + LogOf(t.context)) == One(t.waveform)
  {
    BarriersOnlyQuery(d, e, plan, t);
    WrittenAreMutations(d, e, plan, t);
    Alternating(LogOf(t.preflight), One(t.waveform), LogOf(t.context), t.rest, One(t.restore), LogOf(t.verify));
  }

  function CommandOf(i: Option<Interaction>): seq<Command> {
    if i.None? then [] else [i.value.command]
  }

  lemma WrittenIsJoined(t: Trace)
    ensures CommandsOf(Written(t)) == CommandOf(t.waveform) + CommandsOf(t.rest) + CommandOf(t.restore)
    ensures AckedTexts(Written(t)) == AckedText(t.waveform) + AckedTexts(t.rest) + AckedText(t.restore)
  {
    CommandsConcat(One(t.waveform), t.rest);
    CommandsConcat(One(t.waveform) + t.rest, One(t.restore));
    OneWritten(t.waveform);
    OneWritten(t.restore);
  }

  lemma WrittenByStage<W(!new)>(d: Dialect<W>, e: Evidence<W>, plan: Plan<W>, t: Trace)
    requires Quiet(d, e, plan) && Orderly(d, e, plan, t)
    ensures CommandsOf(Mutations(Whole(t))) == CommandOf(t.waveform) + CommandsOf(t.rest) + CommandOf(t.restore)
    ensures AckedTexts(Mutations(Whole(t))) == AckedText(t.waveform) + AckedTexts(t.rest) + AckedText(t.restore)
    ensures Mutations(Whole(t)) == [] <==> t.waveform.None? && t.rest == [] && t.restore.None?
  {
    MutationsByStage(d, e, plan, t);
    WrittenIsJoined(t);
  }

  lemma PlanInOrder<W>(d: Dialect<W>, e: Evidence<W>, plan: Plan<W>, t: Trace)
    requires Orderly(d, e, plan, t)
    ensures CommandOf(t.waveform) + CommandsOf(t.rest) <= plan.writes
    ensures t.restore.Some? ==>
              && Target(plan, t).Some? && CommandOf(t.restore) == [d.OutputCommand(Target(plan, t).value)]
              && (Finished(plan, t) ==> CommandOf(t.waveform) + CommandsOf(t.rest) == plan.writes)
              && (!Finished(plan, t) ==>
                    plan.writes != [] && CommandOf(t.waveform) + CommandsOf(t.rest) == plan.writes[..1])
  {
    if t.waveform.Some? {
      assert plan.writes == [plan.writes[0]] + plan.writes[1..];
    }
  }

  /** What was sent is a part of the plan, and at most one output command. */
  predicate SentBy<W>(d: Dialect<W>, plan: Plan<W>, t: Trace, err: Option<ConvergenceError>) {
    var sent := CommandsOf(Mutations(Whole(t)));
    if t.restore.None? then sent <= plan.writes
    else
      && Target(plan, t).Some?
      && var output := d.OutputCommand(Target(plan, t).value);
         if err.Some? && err.value.phase.ContextPhase? then plan.writes != [] && sent == [plan.writes[0], output]
         else sent == plan.writes + [output]
  }

  /** Whatever the instrument does, the writes are sent in plan order and end
      where the operation stopped; behind them comes at most one output command.
      It stands behind the whole plan, but for the compensation, where it follows
      the waveform write alone. */
  lemma WritesFollowThePlan<W(!new)>(d: Dialect<W>, e: Evidence<W>, plan: Plan<W>, t: Trace, r: Report<W>,
                                     err: Option<ConvergenceError>)
    requires Quiet(d, e, plan) && Orderly(d, e, plan, t) && Truthful(e, plan, t, r, err)
    ensures SentBy(d, plan, t, err)
  {
    WrittenByStage(d, e, plan, t);
    PlanInOrder(d, e, plan, t);
    if t.restore.Some? {
      FinishedUnlessCompensating(e, plan, t, r, err);
    }
    SentInPieces(d, plan, t, err, CommandOf(t.waveform) + CommandsOf(t.rest));
  }

  lemma FinishedUnlessCompensating<W(!new)>(e: Evidence<W>, plan: Plan<W>, t: Trace, r: Report<W>,
                                            err: Option<ConvergenceError>)
    requires Truthful(e, plan, t, r, err) && t.restore.Some?
    ensures Finished(plan, t) <==> !(err.Some? && err.value.phase.ContextPhase?)
  {
  }

  lemma SentInPieces<W>(d: Dialect<W>, plan: Plan<W>, t: Trace, err: Option<ConvergenceError>, writes: seq<Command>)
    requires CommandsOf(Mutations(Whole(t))) == writes + CommandOf(t.restore) && writes <= plan.writes
    requires t.restore.Some? ==>
               && Target(plan, t).Some? && CommandOf(t.restore) == [d.OutputCommand(Target(plan, t).value)]
               && if err.Some? && err.value.phase.ContextPhase? then plan.writes != [] && writes == plan.writes[..1]
                  else writes == plan.writes
    ensures SentBy(d, plan, t, err)
  {
  }

  /** The record of completed writes is exactly the acknowledged writes, in
      order; and a failed operation claims to have attempted nothing if and only
      if no write was sent. */
  lemma RecordIsExact<W(!new)>(d: Dialect<W>, e: Evidence<W>, plan: Plan<W>, t: Trace, r: Report<W>,
                               err: Option<ConvergenceError>)
    requires Quiet(d, e, plan) && Orderly(d, e, plan, t) && Truthful(e, plan, t, r, err)
    ensures r.completed == AckedTexts(Mutations(Whole(t)))
    ensures err.Some? ==> (r.delivery == NotAttempted <==> Mutations(Whole(t)) == [])
  {
    WrittenByStage(d, e, plan, t);
  }

  /** A waveform change that does not mention the output leaves it as it was:
      a passed preflight before anything is written yields the kept value; the
      last write, acknowledged, sets it; and a passed verification of it follows.
      What the two barriers read is in `GeneratorOperation.OutputIsReadTwice`. */
  lemma OutputIsKept<W(!new)>(d: Dialect<W>, e: Evidence<W>, plan: Plan<W>, t: Trace, r: Report<W>)
    requires Quiet(d, e, plan) && Orderly(d, e, plan, t) && Truthful(e, plan, t, r, None) && Preserves(plan)
    ensures t.preflight.Some? && t.kept.Some? && e.preflight(t.preflight.value.log, None, t.kept)
    ensures t.preflight.value.log <= Whole(t) && Mutations(t.preflight.value.log) == []
    ensures
      var writes := Mutations(Whole(t));
      && writes != [] && writes[|writes| - 1].command == d.OutputCommand(t.kept.value)
      && writes[|writes| - 1].outcome.Replied?
    ensures t.verify.Some? && e.verify(t.verify.value.log, None, t.kept) && r.output == t.kept
  {
    MutationsByStage(d, e, plan, t);
  }

  /** The waveform alone was sent, and the command that restores the kept output
      exactly if something wrong was read. */
  predicate RestoredBy<W>(d: Dialect<W>, plan: Plan<W>, t: Trace) {
    && t.kept.Some? && t.context.Some? && plan.writes != []
    && CommandsOf(Mutations(Whole(t))) ==
       [plan.writes[0]] + if Misread(t.context) then [d.OutputCommand(t.kept.value)] else []
  }

  /** When the waveform's barrier fails, the kept output is restored by exactly
      one command if the replies were at fault, and by none if an exchange or the
      context was: then the transaction is no longer fit for it. */
  lemma RestoredOnlyIfMisread<W(!new)>(d: Dialect<W>, e: Evidence<W>, plan: Plan<W>, t: Trace, r: Report<W>,
                                       err: ConvergenceError)
    requires Quiet(d, e, plan) && Orderly(d, e, plan, t) && Truthful(e, plan, t, r, Some(err))
    requires Preserves(plan) && err.phase.ContextPhase?
    ensures RestoredBy(d, plan, t)
    ensures r.status == CompensationNotAttempted <==> !Misread(t.context)
  {
    WrittenByStage(d, e, plan, t);
    ContextHasFailed(d, e, plan, t, r, err);
    RestoredInPieces(d, plan, t);
  }

  lemma ContextHasFailed<W(!new)>(d: Dialect<W>, e: Evidence<W>, plan: Plan<W>, t: Trace, r: Report<W>,
                                  err: ConvergenceError)
    requires Orderly(d, e, plan, t) && Truthful(e, plan, t, r, Some(err))
    requires Preserves(plan) && err.phase.ContextPhase?
    ensures t.kept.Some? && t.context.Some? && t.rest == [] && plan.writes != []
    ensures t.waveform.Some? && t.waveform.value.command == plan.writes[0]
    ensures t.restore.Some? <==> Misread(t.context)
    ensures t.restore.Some? ==> t.restore.value.command == d.OutputCommand(t.kept.value)
    ensures r.status == CompensationNotAttempted <==> t.restore.None?
  {
  }

  lemma RestoredInPieces<W>(d: Dialect<W>, plan: Plan<W>, t: Trace)
    requires CommandsOf(Mutations(Whole(t))) == CommandOf(t.waveform) + CommandsOf(t.rest) + CommandOf(t.restore)
    requires t.kept.Some? && t.context.Some? && t.rest == [] && plan.writes != []
    requires t.waveform.Some? && t.waveform.value.command == plan.writes[0]
    requires t.restore.Some? <==> Misread(t.context)
    requires t.restore.Some? ==> t.restore.value.command == d.OutputCommand(t.kept.value)
    ensures RestoredBy(d, plan, t)
  {
  }

  /** No setting is written after a waveform before the waveform's barrier has
      passed; up to then the waveform write is the only one. */
  lemma SettingsWaitForTheWaveform<W(!new)>(d: Dialect<W>, e: Evidence<W>, plan: Plan<W>, t: Trace)
    requires Quiet(d, e, plan) && Orderly(d, e, plan, t) && plan.waveform.Some? && t.rest != []
    ensures t.context.Some? && e.context(t.context.value.log, None, plan.waveform.value)
    ensures
      var before := LogOf(t.preflight) + One(t.waveform) + LogOf(t.context);
      before <= Whole(t) && Mutations(before) == One(t.waveform) && |Mutations(before)| == 1
  {
    MutationsByStage(d, e, plan, t);
  }
}
