/** `SetGeneratorObserved` with the instrument's own commands. */
module GeneratorOperation {
  import opened Commands
  import opened Wrappers
  import opened GeneratorCommands
  import opened GeneratorBarriers
  import opened GeneratorTransaction
  import opened GeneratorResults

  const OWON := Dialect(FUNCTION_QUERY, CHANNEL_QUERY, ParseFunction, ParseChannel,
                        OutputCommand(true), OutputCommand(false))

  // Evidence is the barriers' full contract.

  predicate PreflightRun(run: seq<Interaction>, err: Option<Failure>, kept: Option<bool>) {
    Barrier(run, CHANNEL_QUERY, ParseChannel, None, err) && kept == Settled(ParseChannel, run)
  }

  predicate ContextRun(run: seq<Interaction>, err: Option<Failure>, target: Waveform) {
    Barrier(run, FUNCTION_QUERY, ParseFunction, Some(target), err)
  }

  predicate VerifyRun(run: seq<Interaction>, err: Option<Failure>, target: Option<bool>) {
    target.Some? && Barrier(run, CHANNEL_QUERY, ParseChannel, target, err)
  }

  predicate SeenRun(run: seq<Interaction>, seen: Option<Waveform>) {
    seen == Settled(ParseFunction, run)
  }

  const EVIDENCE: Evidence<Waveform> := Evidence(PreflightRun, ContextRun, SeenRun, VerifyRun)

  /** `generatorReadbackHasUnverifiedFields`. */
  function HasNumbers(patch: Patch): bool {
    || patch.frequency.Some? || patch.period.Some? || patch.amplitude.Some? || patch.offset.Some?
    || patch.high.Some? || patch.low.Some? || patch.symmetry.Some? || patch.width.Some?
    || patch.rising.Some? || patch.falling.Some? || patch.duty.Some? || patch.load.Some?
  }

  /** Exactly the fields that compile to settings. */
  lemma NumbersAreSettings(patch: Patch)
    ensures HasNumbers(patch) <==> exists k | 0 <= k < 12 :: Settings(patch)[k].value.Some?
  {
    var s := Settings(patch);
    assert HasNumbers(patch) ==>
      s[0].value.Some? || s[1].value.Some? || s[2].value.Some? || s[3].value.Some? || s[4].value.Some? ||
      s[5].value.Some? || s[6].value.Some? || s[7].value.Some? || s[8].value.Some? || s[9].value.Some? ||
      s[10].value.Some? || s[11].value.Some?;
  }

  function PlanOf(patch: Patch): Plan<Waveform> {
    Plan(patch.waveform, patch.output, HasNumbers(patch), FunctionWrites(patch))
  }

  method SetGeneratorObserved(patch: Patch, admission: Option<nat>, device: Transaction)
    returns (result: OperationResult<Waveform>, err: Option<ConvergenceError>, ghost t: Trace)
    requires !device.canceled
    modifies device
    ensures fresh(result) && device.log == old(device.log) + Whole(t)
    ensures Orderly(OWON, EVIDENCE, PlanOf(patch), t) && Truthful(EVIDENCE, PlanOf(patch), t, result.View(), err)
    ensures err.Some? && err.value.phase.AdmissionPhase? <==> admission.Some?
  {
    var commands := CompileGenerator(patch);
    result := new OperationResult();
    var writes, output := SplitGeneratorOutputCommand(commands);
    SplitCompiled(patch);
    EvidenceIsSound();
    err, t := Operate(OWON, EVIDENCE, Plan(patch.waveform, patch.output, HasNumbers(patch), writes), output, admission,
                      device, result);
  }

  lemma EvidenceIsSound()
    ensures Sound(OWON, EVIDENCE)
  {
  }

  /** The generator's queries are queries and its writes are writes. */
  lemma OwonIsQuiet(patch: Patch)
    ensures Quiet(OWON, EVIDENCE, PlanOf(patch))
  {
    forall run, err, kept | PreflightRun(run, err, kept) ensures Mutations(run) == [] {
      QueriesMutateNothing(run, CHANNEL_QUERY);
    }
    forall run, err, target | ContextRun(run, err, target) ensures Mutations(run) == [] {
      QueriesMutateNothing(run, FUNCTION_QUERY);
    }
    forall run, err, target | VerifyRun(run, err, target) ensures Mutations(run) == [] {
      QueriesMutateNothing(run, CHANNEL_QUERY);
    }
    forall k | 0 <= k < |FunctionWrites(patch)| ensures FunctionWrites(patch)[k].mode.NoResponse? {
      FunctionWritesAreFunctions(patch, k);
    }
  }

  // ---- Results for the instrument ----------------------------------------------------

  /** A waveform change that does not mention the output leaves it as it was. The
      exchanges begin with queries, the last two of which are answered with one
      state; the last write, acknowledged, sets that state; and the exchanges end
      with two queries that are answered with it again. */
  lemma OutputIsReadTwice(patch: Patch, t: Trace, r: Report<Waveform>)
    requires Orderly(OWON, EVIDENCE, PlanOf(patch), t) && Truthful(EVIDENCE, PlanOf(patch), t, r, None)
    requires patch.waveform.Some? && patch.output.None?
    ensures t.preflight.Some? && t.verify.Some? && t.kept.Some? && r.output == t.kept
    ensures
      var value, before, after := t.kept.value, t.preflight.value.log, t.verify.value.log;
      && before <= Whole(t) && Mutations(before) == []
      && ReadTwice(before, CHANNEL_QUERY, ParseChannel, value)
      && (var writes := Mutations(Whole(t));
          writes != [] && writes[|writes| - 1].command == OutputCommand(value) &&
          writes[|writes| - 1].outcome.Replied?)
      && |after| <= |Whole(t)| && after == Whole(t)[|Whole(t)| - |after|..] && Mutations(after) == []
      && ReadTwice(after, CHANNEL_QUERY, ParseChannel, value)
  {
    OwonIsQuiet(patch);
    OutputIsKept(OWON, EVIDENCE, PlanOf(patch), t, r);
    PreflightReadsTwice(t.preflight.value.log, t.kept);
    VerifyReadsTwice(t.verify.value.log, t.kept);
  }

  lemma PreflightReadsTwice(run: seq<Interaction>, kept: Option<bool>)
    requires PreflightRun(run, None, kept)
    ensures kept.Some? && ReadTwice(run, CHANNEL_QUERY, ParseChannel, kept.value)
  {
    var value := BarrierReadsTwice(run, CHANNEL_QUERY, ParseChannel, None);
  }

  lemma VerifyReadsTwice(run: seq<Interaction>, target: Option<bool>)
    requires VerifyRun(run, None, target)
    ensures ReadTwice(run, CHANNEL_QUERY, ParseChannel, target.value)
  {
    var value := BarrierReadsTwice(run, CHANNEL_QUERY, ParseChannel, target);
  }

  lemma ContextReadsTwice(run: seq<Interaction>, target: Waveform)
    requires ContextRun(run, None, target)
    ensures ReadTwice(run, FUNCTION_QUERY, ParseFunction, target)
  {
    var value := BarrierReadsTwice(run, FUNCTION_QUERY, ParseFunction, Some(target));
  }

  /** No setting is written after a waveform before two queries in a row were
      answered with that waveform, after its write; up to then its write is the
      only one. */
  lemma WaveformIsReadTwice(patch: Patch, t: Trace)
    requires Orderly(OWON, EVIDENCE, PlanOf(patch), t) && patch.waveform.Some? && t.rest != []
    ensures t.context.Some? && ReadTwice(t.context.value.log, FUNCTION_QUERY, ParseFunction, patch.waveform.value)
    ensures
      var before := LogOf(t.preflight) + One(t.waveform) + LogOf(t.context);
      before <= Whole(t) && Mutations(before) == One(t.waveform) && |Mutations(before)| == 1
  {
    OwonIsQuiet(patch);
    SettingsWaitForTheWaveform(OWON, EVIDENCE, PlanOf(patch), t);
    ContextReadsTwice(t.context.value.log, patch.waveform.value);
  }

  /** What was sent, for every outcome: in plan order up to where it stopped; the
      output command at most once, last, behind the whole plan or, to compensate,
      behind the waveform alone. */
  lemma SentAsPlanned(patch: Patch, t: Trace, r: Report<Waveform>, err: Option<ConvergenceError>)
    requires Orderly(OWON, EVIDENCE, PlanOf(patch), t) && Truthful(EVIDENCE, PlanOf(patch), t, r, err)
    ensures SentBy(OWON, PlanOf(patch), t, err)
  {
    OwonIsQuiet(patch);
    WritesFollowThePlan(OWON, EVIDENCE, PlanOf(patch), t, r, err);
  }

  /** The record is exactly what was acknowledged, in order; and a failure claims
      that nothing was attempted if and only if nothing was sent. */
  lemma RecordedAsAcknowledged(patch: Patch, t: Trace, r: Report<Waveform>, err: Option<ConvergenceError>)
    requires Orderly(OWON, EVIDENCE, PlanOf(patch), t) && Truthful(EVIDENCE, PlanOf(patch), t, r, err)
    ensures r.completed == AckedTexts(Mutations(Whole(t)))
    ensures err.Some? ==> (r.delivery == NotAttempted <==> Mutations(Whole(t)) == [])
  {
    OwonIsQuiet(patch);
    RecordIsExact(OWON, EVIDENCE, PlanOf(patch), t, r, err);
  }

  /** A waveform barrier that fails for what was read gets exactly one restoring
      command, one that fails for an exchange or the context gets none. */
  lemma MisreadingIsCompensated(patch: Patch, t: Trace, r: Report<Waveform>, err: ConvergenceError)
    requires Orderly(OWON, EVIDENCE, PlanOf(patch), t) && Truthful(EVIDENCE, PlanOf(patch), t, r, Some(err))
    requires patch.waveform.Some? && patch.output.None? && err.phase.ContextPhase?
    ensures RestoredBy(OWON, PlanOf(patch), t)
  {
    OwonIsQuiet(patch);
    RestoredOnlyIfMisread(OWON, EVIDENCE, PlanOf(patch), t, r, err);
  }
}
