/** The observed generator operation: a patch is applied under one transaction,
    the output's state is kept across a waveform change, and the result says no
    more than was observed. */
module GeneratorTransaction {
  import opened Commands
  import opened Wrappers
  import opened GeneratorCommands
  import opened GeneratorBarriers

  /** The commands and parsers in use. */
  datatype Dialect<!W> = Dialect(
    functionQuery: Command,
    channelQuery: Command,
    parseFunction: string -> Reading<W>,
    parseChannel: string -> Reading<bool>,
    outputOn: Command,
    outputOff: Command)
  {
    function OutputCommand(value: bool): Command {
      if value then outputOn else outputOff
    }
  }

  /** What is to be known of a stretch of exchanges that is a barrier's: how it
      ended, what the preflight and the waveform's barrier last read, and what the
      others were to reach. */
  datatype Evidence<!W> = Evidence(
    preflight: (seq<Interaction>, Option<Failure>, Option<bool>) -> bool,
    context: (seq<Interaction>, Option<Failure>, W) -> bool,
    seen: (seq<Interaction>, Option<W>) -> bool,
    verify: (seq<Interaction>, Option<Failure>, Option<bool>) -> bool)

  /** The value of the last valid reply. */
  function Settled<T>(parse: string -> Reading<T>, log: seq<Interaction>): Option<T> {
    match LastRead(Answers(parse, log))
    case Some(Observed(value)) => Some(value)
    case _ => None
  }

  // The barriers' own contracts count as evidence.

  ghost predicate SoundPreflight<W(!new)>(d: Dialect<W>, e: Evidence<W>) {
    forall run, err {:trigger Barrier(run, d.channelQuery, d.parseChannel, None, err)} ::
      Barrier(run, d.channelQuery, d.parseChannel, None, err) ==> e.preflight(run, err, Settled(d.parseChannel, run))
  }

  ghost predicate SoundContext<W(!new)>(d: Dialect<W>, e: Evidence<W>) {
    forall run, target: Option<W>, err {:trigger Barrier(run, d.functionQuery, d.parseFunction, target, err)} ::
      target.Some? && Barrier(run, d.functionQuery, d.parseFunction, target, err) ==> e.context(run, err, target.value)
  }

  ghost predicate SoundSeen<W(!new)>(d: Dialect<W>, e: Evidence<W>) {
    forall run {:trigger Settled(d.parseFunction, run)} :: e.seen(run, Settled(d.parseFunction, run))
  }

  ghost predicate SoundVerify<W(!new)>(d: Dialect<W>, e: Evidence<W>) {
    forall run, target: Option<bool>, err {:trigger Barrier(run, d.channelQuery, d.parseChannel, target, err)} ::
      target.Some? && Barrier(run, d.channelQuery, d.parseChannel, target, err) ==> e.verify(run, err, target)
  }

  ghost predicate Sound<W(!new)>(d: Dialect<W>, e: Evidence<W>) {
    SoundPreflight(d, e) && SoundContext(d, e) && SoundSeen(d, e) && SoundVerify(d, e)
  }

  /** A compiled patch, output command set apart; `numeric` is whether it has
      fields that cannot be read back. */
  datatype Plan<+W> = Plan(waveform: Option<W>, output: Option<bool>, numeric: bool, writes: seq<Command>)

  datatype Phase = AdmissionPhase | PreflightPhase | WritePhase | ContextPhase | RemainingPhase | OutputPhase

  datatype Delivery = NotAttempted | PartialOrUnknown | ReadbackUnverified | ReadbackVerified

  datatype Compensation = NotRequired | CompensationNotAttempted | Unverified | Verified | CompensationFailed

  datatype ConvergenceError = ConvergenceError(phase: Phase, cause: Failure)

  // ---- What an operation may do ----------------------------------------------------------

  datatype Run = Run(log: seq<Interaction>, err: Option<Failure>)

  /** The exchanges of one operation, in order; `kept` is what the preflight last
      read. */
  datatype Trace = Trace(
    preflight: Option<Run>,
    kept: Option<bool>,
    waveform: Option<Interaction>,
    context: Option<Run>,
    rest: seq<Interaction>,
    restore: Option<Interaction>,
    verify: Option<Run>)

  const NOTHING := Trace(None, None, None, None, [], None, None)

  function LogOf(run: Option<Run>): seq<Interaction> {
    if run.None? then [] else run.value.log
  }

  function One(i: Option<Interaction>): seq<Interaction> {
    if i.None? then [] else [i.value]
  }

  function Whole(t: Trace): seq<Interaction> {
    LogOf(t.preflight) + One(t.waveform) + LogOf(t.context) + t.rest + One(t.restore) + LogOf(t.verify)
  }

  predicate Acked(i: Option<Interaction>) {
    i.Some? && i.value.outcome.Replied?
  }

  predicate Passed(run: Option<Run>) {
    run.Some? && run.value.err.None?
  }

  /** A barrier that ended for what was read, on a healthy transaction. */
  predicate Misread(run: Option<Run>) {
    run.Some? && (run.value.err == Some(MalformedReply) || run.value.err == Some(Nonconvergence))
  }

  predicate AllAcked(log: seq<Interaction>) {
    log == [] || (AllAcked(log[..|log| - 1]) && log[|log| - 1].outcome.Replied?)
  }

  function CommandsOf(log: seq<Interaction>): seq<Command> {
    if log == [] then [] else CommandsOf(log[..|log| - 1]) + [log[|log| - 1].command]
  }

  /** `log` sends `commands` in order and stops behind the first that fails. */
  predicate Sequel(log: seq<Interaction>, commands: seq<Command>) {
    CommandsOf(log) <= commands && (log != [] ==> AllAcked(log[..|log| - 1]))
  }

  predicate SentAll(log: seq<Interaction>, commands: seq<Command>) {
    CommandsOf(log) == commands && AllAcked(log)
  }

  /** The state of the output has to be kept by the operation itself. */
  predicate Preserves<W>(plan: Plan<W>) {
    plan.waveform.Some? && plan.output.None?
  }

  function Target<W>(plan: Plan<W>, t: Trace): Option<bool> {
    if plan.output.Some? then plan.output else if Preserves(plan) then t.kept else None
  }

  function Rest<W>(plan: Plan<W>): seq<Command> {
    if plan.waveform.Some? && plan.writes != [] then plan.writes[1..] else plan.writes
  }

  predicate Ready<W>(plan: Plan<W>, t: Trace) {
    Preserves(plan) ==> Passed(t.preflight) && t.kept.Some?
  }

  predicate ContextPassed<W>(plan: Plan<W>, t: Trace) {
    plan.waveform.Some? ==> Passed(t.context)
  }

  predicate Finished<W>(plan: Plan<W>, t: Trace) {
    Ready(plan, t) && ContextPassed(plan, t) && SentAll(t.rest, Rest(plan))
  }

  predicate OrderlyPreflight<W>(e: Evidence<W>, plan: Plan<W>, t: Trace) {
    if t.preflight.None? then t.kept.None?
    else Preserves(plan) && e.preflight(t.preflight.value.log, t.preflight.value.err, t.kept)
  }

  predicate OrderlyWaveform<W>(e: Evidence<W>, plan: Plan<W>, t: Trace) {
    && (t.waveform.Some? ==>
          plan.waveform.Some? && Ready(plan, t) && plan.writes != [] && t.waveform.value.command == plan.writes[0])
    && (t.context.Some? ==>
          Acked(t.waveform) && e.context(t.context.value.log, t.context.value.err, plan.waveform.value))
  }

  predicate OrderlyRest<W>(plan: Plan<W>, t: Trace) {
    t.rest != [] ==> Ready(plan, t) && ContextPassed(plan, t) && Sequel(t.rest, Rest(plan))
  }

  predicate OrderlyOutput<W>(d: Dialect<W>, e: Evidence<W>, plan: Plan<W>, t: Trace) {
    && (t.restore.Some? ==>
          && (Finished(plan, t) || (Preserves(plan) && Ready(plan, t) && Misread(t.context) && t.rest == []))
          && Target(plan, t).Some? && t.restore.value.command == d.OutputCommand(Target(plan, t).value))
    && (t.verify.Some? ==>
          && plan.waveform.Some? && Acked(t.restore)
          && e.verify(t.verify.value.log, t.verify.value.err, Target(plan, t)))
  }

  /** The order of an operation: nothing is written before a preflight that is
      due has settled; the waveform is written first, and the settings only after
      its barrier has passed; the output comes last, after everything else or in
      place of it when the barrier read something wrong; then it is verified. */
  predicate Orderly<W>(d: Dialect<W>, e: Evidence<W>, plan: Plan<W>, t: Trace) {
    OrderlyPreflight(e, plan, t) && OrderlyWaveform(e, plan, t) && OrderlyRest(plan, t) && OrderlyOutput(d, e, plan, t)
  }

  // ---- What the result may say -----------------------------------------------------------

  function AckedTexts(log: seq<Interaction>): seq<string> {
    if log == [] then []
    else
      AckedTexts(log[..|log| - 1]) +
      if log[|log| - 1].outcome.Replied? then [log[|log| - 1].command.text] else []
  }

  function AckedText(i: Option<Interaction>): seq<string> {
    if Acked(i) then [i.value.command.text] else []
  }

  datatype Report<+W> = Report(
    delivery: Delivery,
    completed: seq<string>,
    status: Compensation,
    requested: Option<bool>,
    observed: Option<bool>,
    output: Option<bool>,
    context: Option<W>,
    fit: Fit)

  /** How the waveform last read compares with the one asked for. */
  datatype Fit = Unknown | Fits | Differs

  ghost function FitOf<W>(target: Option<W>, seen: Option<W>): Fit {
    if target.None? || seen.None? then Unknown else if seen == target then Fits else Differs
  }

  /** The operation went to the end its plan asks for. */
  predicate Completed<W>(plan: Plan<W>, t: Trace) {
    && Finished(plan, t)
    && (t.restore.Some? <==> Target(plan, t).Some?) && (t.restore.Some? ==> Acked(t.restore))
    && (t.verify.Some? <==> t.restore.Some? && plan.waveform.Some?) && (t.verify.Some? ==> Passed(t.verify))
  }

  /** Where an error left the operation. */
  predicate Stopped<W>(plan: Plan<W>, t: Trace, phase: Phase) {
    match phase
    case AdmissionPhase => t == NOTHING
    case PreflightPhase =>
      t == NOTHING.(preflight := t.preflight, kept := t.kept) && t.preflight.Some? && !Passed(t.preflight)
    case WritePhase =>
      && t.waveform.Some? && !Acked(t.waveform)
      && t.context.None? && t.rest == [] && t.restore.None? && t.verify.None?
    case ContextPhase =>
      && t.context.Some? && !Passed(t.context) && t.rest == []
      && (t.restore.Some? <==> Preserves(plan) && Misread(t.context))
      && (t.verify.Some? <==> Acked(t.restore))
    case RemainingPhase => t.rest != [] && !AllAcked(t.rest) && t.restore.None? && t.verify.None?
    case OutputPhase =>
      && Finished(plan, t) && t.restore.Some?
      && (if Acked(t.restore) then t.verify.Some? && !Passed(t.verify) else t.verify.None?)
  }

  function LossOf(log: seq<Interaction>): Option<Failure> {
    if log == [] || log[|log| - 1].outcome.Replied? then None else Some(Lost(log[|log| - 1].outcome.cause))
  }

  function ErrorOf(run: Option<Run>): Option<Failure> {
    if run.None? then None else run.value.err
  }

  /** What made the output's restoration fail: its write, or the barrier. */
  function RestoreError(t: Trace): Option<Failure> {
    if Acked(t.restore) then ErrorOf(t.verify) else LossOf(One(t.restore))
  }

  /** The cause an error of each phase has to name. */
  predicate Explains(t: Trace, e: ConvergenceError) {
    match e.phase
    case AdmissionPhase => e.cause.Admission?
    case PreflightPhase => ErrorOf(t.preflight) == Some(e.cause)
    case WritePhase => LossOf(One(t.waveform)) == Some(e.cause)
    case ContextPhase =>
      if t.restore.None? || RestoreError(t).None? then ErrorOf(t.context) == Some(e.cause)
      else e.cause.Joined? && ErrorOf(t.context) == Some(e.cause.first) && RestoreError(t) == Some(e.cause.second)
    case RemainingPhase => LossOf(t.rest) == Some(e.cause)
    case OutputPhase => RestoreError(t) == Some(e.cause)
  }

  predicate TruthfulDelivery<W>(plan: Plan<W>, t: Trace, delivery: Delivery, err: Option<ConvergenceError>) {
    match err
    case None =>
      && Completed(plan, t)
      && delivery == if plan.waveform.Some? && !plan.numeric then ReadbackVerified else ReadbackUnverified
    case Some(e) =>
      && Stopped(plan, t, e.phase) && Explains(t, e)
      && delivery == if e.phase.AdmissionPhase? || e.phase.PreflightPhase? then NotAttempted else PartialOrUnknown
  }

  ghost predicate TruthfulOutput<W>(plan: Plan<W>, t: Trace, r: Report<W>) {
    && (r.status == Verified <==> Passed(t.verify)) && (r.observed.Some? <==> Passed(t.verify))
    && (r.status == Verified ==> r.observed == r.requested == r.output == Target(plan, t))
    && (r.status == CompensationFailed <==>
          t.restore.Some? && (!Acked(t.restore) || (t.verify.Some? && !Passed(t.verify))))
    && (r.status == CompensationNotAttempted <==> t.preflight.Some? && t.restore.None?)
    && r.status != Unverified
    && (t.restore.Some? ==> r.requested == Target(plan, t))
    && (r.output.Some? ==>
          || (Passed(t.verify) && r.output == Target(plan, t))
          || (t.waveform.None? && t.rest == [] && t.restore.None? && r.output == t.kept))
  }

  ghost predicate TruthfulContext<W>(e: Evidence<W>, plan: Plan<W>, t: Trace, r: Report<W>) {
    && (if t.context.Some? then e.seen(t.context.value.log, r.context) else r.context.None?)
    && (Passed(t.context) ==> r.context == plan.waveform)
    && r.fit == FitOf(plan.waveform, r.context)
  }

  /** No status claims more than the exchanges show. */
  ghost predicate Truthful<W>(e: Evidence<W>, plan: Plan<W>, t: Trace, r: Report<W>, err: Option<ConvergenceError>) {
    && r.completed == AckedText(t.waveform) + AckedTexts(t.rest) + AckedText(t.restore)
    && TruthfulDelivery(plan, t, r.delivery, err)
    && TruthfulOutput(plan, t, r) && TruthfulContext(e, plan, t, r)
  }

  // ---- The operation -----------------------------------------------------------------------

  /** The result that the steps of an operation fill in. */
  class OperationResult<W(==)> {
    var delivery: Delivery
    var completed: seq<string>
    var status: Compensation
    var requested: Option<bool>
    var observed: Option<bool>
    var output: Option<bool>
    var context: Option<W>
    var fit: Fit

    constructor ()
      ensures View() == Report(NotAttempted, [], NotRequired, None, None, None, None, Unknown)
    {
      delivery, completed, status, requested, observed := NotAttempted, [], NotRequired, None, None;
      output, context, fit := None, None, Unknown;
    }

    function View(): Report<W>
      reads this
    {
      Report(delivery, completed, status, requested, observed, output, context, fit)
    }

    /** `updateGeneratorOutputObservation`. */
    method UpdateOutput(last: Option<Reading<bool>>)
      modifies this`output
      ensures output == match last
                        case None => old(output)
                        case Some(Observed(value)) => Some(value)
                        case Some(_) => None
    {
      if last.Some? {
        output := if last.value.Observed? then Some(last.value.value) else None;
      }
    }

    /** `markGeneratorOutputUnknown`, whatever was read. */
    method MarkOutputUnknown()
      modifies this`output
      ensures output == None
    {
      output := None;
    }

    /** `updateGeneratorContext`. */
    method UpdateContext(last: Option<Reading<W>>, requested: W)
      requires fit == FitOf(Some(requested), context)
      modifies this`context, this`fit
      ensures context == match last
                         case None => old(context)
                         case Some(Observed(value)) => Some(value)
                         case Some(_) => None
      ensures fit == FitOf(Some(requested), context)
    {
      if last.Some? {
        context := if last.value.Observed? then Some(last.value.value) else None;
        fit := if context.None? then Unknown else if context.value == requested then Fits else Differs;
      }
    }
  }

  lemma OneMoreInteraction(run: seq<Interaction>, i: Interaction)
    ensures CommandsOf(run + [i]) == CommandsOf(run) + [i.command]
    ensures AllAcked(run + [i]) <==> AllAcked(run) && i.outcome.Replied?
    ensures AckedTexts(run + [i]) == AckedTexts(run) + if i.outcome.Replied? then [i.command.text] else []
    ensures (run + [i])[..|run|] == run
  {
    assert (run + [i])[..|run|] == run;
  }

  /** `executeGeneratorWrite`: only an acknowledged write is recorded. */
  method ExecuteWrite<W>(device: Transaction, command: Command, result: OperationResult<W>)
    returns (err: Option<Failure>, ghost i: Interaction)
    modifies device`executed, device`log, result`completed
    ensures device.log == old(device.log) + [i] && i.command == command
    ensures (err.None? <==> i.outcome.Replied?) && err == LossOf([i])
    ensures result.completed == old(result.completed) + AckedText(Some(i))
  {
    var outcome := device.Execute(command);
    i := Interaction(command, outcome);
    if outcome.Failed? {
      return Some(Lost(outcome.cause)), i;
    }
    result.completed := result.completed + [command.text];
    return None, i;
  }

  /** The loop over the remaining writes, which stops at the first that fails. */
  method ExecuteRest<W>(device: Transaction, commands: seq<Command>, result: OperationResult<W>)
    returns (err: Option<Failure>, ghost run: seq<Interaction>)
    modifies device`executed, device`log, result`completed
    ensures device.log == old(device.log) + run
    ensures result.completed == old(result.completed) + AckedTexts(run)
    ensures Sequel(run, commands) && (err.None? ==> SentAll(run, commands))
    ensures err.Some? ==> run != [] && !AllAcked(run) && err == LossOf(run)
  {
    run := [];
    for k := 0 to |commands|
      invariant device.log == old(device.log) + run
      invariant result.completed == old(result.completed) + AckedTexts(run)
      invariant CommandsOf(run) == commands[..k] && AllAcked(run)
    {
      ghost var i;
      err, i := ExecuteWrite(device, commands[k], result);
      Regroup(old(device.log), run, i);
      OneMoreInteraction(run, i);
      run := run + [i];
      if err.Some? {
        return;
      }
    }
    err := None;
  }

  lemma PassedMeansRead<T>(query: Command, parse: string -> Reading<T>, target: Option<T>, run: seq<Interaction>)
    requires Barrier(run, query, parse, target, None)
    ensures var last := LastRead(Answers(parse, run));
            last.Some? && last.value.Observed? && (target.Some? ==> last.value.value == target.value)
  {
  }

  lemma PreflightEvidence<W(!new)>(d: Dialect<W>, e: Evidence<W>, run: seq<Interaction>, err: Option<Failure>)
    requires SoundPreflight(d, e) && Barrier(run, d.channelQuery, d.parseChannel, None, err)
    ensures e.preflight(run, err, Settled(d.parseChannel, run))
  {
  }

  method AwaitAnyOutput<W(!new)>(d: Dialect<W>, ghost e: Evidence<W>, device: Transaction)
    returns (last: Option<Reading<bool>>, err: Option<Failure>, ghost run: seq<Interaction>)
    requires SoundPreflight(d, e) && !device.canceled
    modifies device
    ensures device.log == old(device.log) + run
    ensures e.preflight(run, err, if last.Some? && last.value.Observed? then Some(last.value.value) else None)
    ensures err.None? ==> last.Some? && last.value.Observed? && !device.canceled
  {
    last, err, run := OutputLoop(device, d.channelQuery, d.parseChannel, None);
    PreflightEvidence(d, e, run, err);
    if err.None? {
      PassedMeansRead(d.channelQuery, d.parseChannel, None, run);
    }
  }

  /** The preflight of an omitted output. */
  method Preflight<W(!new)>(d: Dialect<W>, ghost e: Evidence<W>, device: Transaction, result: OperationResult<W>)
    returns (preserved: Option<bool>, err: Option<Failure>, ghost run: seq<Interaction>, ghost kept: Option<bool>)
    requires SoundPreflight(d, e) && !device.canceled && result.output.None?
    modifies device, result`status, result`requested, result`observed, result`output
    ensures device.log == old(device.log) + run && e.preflight(run, err, kept) && result.output == kept
    ensures err.None? ==> !device.canceled
    ensures if err.Some? then result.status == CompensationNotAttempted && unchanged(result`observed)
            else
              && preserved.Some? && preserved == kept
              && result.status == Unverified && result.requested == preserved && result.observed.None?
  {
    result.status := CompensationNotAttempted;
    var last;
    last, err, run := AwaitAnyOutput(d, e, device);
    kept := if last.Some? && last.value.Observed? then Some(last.value.value) else None;
    result.UpdateOutput(last);
    if err.Some? {
      return None, err, run, kept;
    }
    preserved := Some(last.value.value);
    result.status, result.requested, result.observed := Unverified, preserved, None;
  }

  lemma ContextEvidence<W(!new)>(d: Dialect<W>, e: Evidence<W>, run: seq<Interaction>, err: Option<Failure>, target: W)
    requires SoundContext(d, e) && Barrier(run, d.functionQuery, d.parseFunction, Some(target), err)
    ensures e.context(run, err, target)
  {
  }

  lemma SeenEvidence<W(!new)>(d: Dialect<W>, e: Evidence<W>, run: seq<Interaction>)
    requires SoundSeen(d, e)
    ensures e.seen(run, Settled(d.parseFunction, run))
  {
  }

  /** The barrier on the waveform. */
  method AwaitContext<W(==,!new)>(d: Dialect<W>, ghost e: Evidence<W>, device: Transaction, requested: W,
                                  result: OperationResult<W>)
    returns (err: Option<Failure>, ghost run: seq<Interaction>)
    requires SoundContext(d, e) && SoundSeen(d, e) && !device.canceled
    requires result.context.None? && result.fit == Unknown
    modifies device, result`context, result`fit
    ensures device.log == old(device.log) + run && e.context(run, err, requested)
    ensures err.None? ==> result.context == Some(requested)
    ensures e.seen(run, result.context) && result.fit == FitOf(Some(requested), result.context)
    ensures device.canceled <==> err == Some(Canceled)
  {
    var last;
    last, err, run := TargetLoop(device, d.functionQuery, d.parseFunction, requested);
    ContextEvidence(d, e, run, err, requested);
    if err.None? {
      PassedMeansRead(d.functionQuery, d.parseFunction, Some(requested), run);
    }
    SeenEvidence(d, e, run);
    result.UpdateContext(last, requested);
  }

  lemma VerifyEvidence<W(!new)>(d: Dialect<W>, e: Evidence<W>, run: seq<Interaction>, err: Option<Failure>,
                                target: Option<bool>)
    requires SoundVerify(d, e) && target.Some? && Barrier(run, d.channelQuery, d.parseChannel, target, err)
    ensures e.verify(run, err, target)
  {
  }

  method AwaitOutput<W(!new)>(d: Dialect<W>, ghost e: Evidence<W>, device: Transaction, target: Option<bool>)
    returns (last: Option<Reading<bool>>, err: Option<Failure>, ghost run: seq<Interaction>)
    requires SoundVerify(d, e) && target.Some? && !device.canceled
    modifies device
    ensures device.log == old(device.log) + run && e.verify(run, err, target)
    ensures err.None? ==> last.Some? && last.value == Observed(target.value)
  {
    last, err, run := OutputLoop(device, d.channelQuery, d.parseChannel, target);
    VerifyEvidence(d, e, run, err, target);
    if err.None? {
      PassedMeansRead(d.channelQuery, d.parseChannel, target, run);
    }
  }

  /** The barrier on the output after a write of `target`. */
  method VerifyOutput<W(!new)>(d: Dialect<W>, ghost e: Evidence<W>, device: Transaction, target: bool,
                               result: OperationResult<W>)
    returns (err: Option<Failure>, ghost run: seq<Interaction>)
    requires SoundVerify(d, e) && !device.canceled
    modifies device, result`status, result`observed, result`output
    ensures device.log == old(device.log) + run && e.verify(run, err, Some(target))
    ensures if err.Some? then
              result.status == CompensationFailed && result.output.None? && result.observed == old(result.observed)
            else result.status == Verified && result.observed == result.output == Some(target)
  {
    var last;
    last, err, run := AwaitOutput(d, e, device, Some(target));
    if err.Some? {
      result.MarkOutputUnknown();
      result.status := CompensationFailed;
      return;
    }
    result.UpdateOutput(last);
    result.observed := Some(last.value.value);
    result.status := Verified;
  }

  /** `compensateGeneratorOutput`: one write of the kept state and its barrier. */
  method Compensate<W(!new)>(d: Dialect<W>, ghost e: Evidence<W>, device: Transaction, target: bool,
                             result: OperationResult<W>)
    returns (err: Option<Failure>, ghost i: Interaction, ghost verify: Option<Run>)
    requires SoundVerify(d, e) && !device.canceled
    modifies device, result`status, result`requested, result`observed, result`output, result`completed
    ensures device.log == old(device.log) + [i] + LogOf(verify) && i.command == d.OutputCommand(target)
    ensures result.completed == old(result.completed) + AckedText(Some(i)) && result.requested == Some(target)
    ensures verify.Some? <==> i.outcome.Replied?
    ensures verify.Some? ==> e.verify(verify.value.log, verify.value.err, Some(target))
    ensures err == if verify.Some? then verify.value.err else LossOf([i])
    ensures if Passed(verify) then result.status == Verified && result.observed == result.output == Some(target)
            else
              result.status == CompensationFailed && result.output.None? && result.observed == old(result.observed)
  {
    result.requested := Some(target);
    err, i := ExecuteWrite(device, d.OutputCommand(target), result);
    verify := None;
    if err.Some? {
      result.status := CompensationFailed;
      result.MarkOutputUnknown();
      return;
    }
    ghost var run;
    err, run := VerifyOutput(d, e, device, target, result);
    verify := Some(Run(run, err));
  }

  // ---- Its stages ----------------------------------------------------------------------------

  /** What the result holds while an operation is under way. */
  ghost predicate Underway<W>(e: Evidence<W>, plan: Plan<W>, t: Trace, r: Report<W>) {
    && t.restore.None? && t.verify.None? && Ready(plan, t) && r.observed.None?
    && TruthfulContext(e, plan, t, r)
    && r.completed == AckedText(t.waveform) + AckedTexts(t.rest)
    && (if Preserves(plan) then r.status == Unverified && t.preflight.Some?
        else r.status == NotRequired && r.output.None? && t.preflight.None?)
  }

  lemma AddWaveform(start: seq<Interaction>, t: Trace, i: Interaction)
    requires t.waveform.None? && t.context.None? && t.rest == [] && t.restore.None? && t.verify.None?
    ensures start + Whole(t.(waveform := Some(i))) == start + Whole(t) + [i]
  {
  }

  lemma AddContext(start: seq<Interaction>, t: Trace, run: Run)
    requires t.context.None? && t.rest == [] && t.restore.None? && t.verify.None?
    ensures start + Whole(t.(context := Some(run))) == start + Whole(t) + run.log
  {
  }

  lemma AddRest(start: seq<Interaction>, t: Trace, run: seq<Interaction>)
    requires t.rest == [] && t.restore.None? && t.verify.None?
    ensures start + Whole(t.(rest := run)) == start + Whole(t) + run
  {
  }

  lemma AddOutput(start: seq<Interaction>, t: Trace, i: Interaction, verify: Option<Run>)
    requires t.restore.None? && t.verify.None?
    ensures start + Whole(t.(restore := Some(i), verify := verify)) == start + Whole(t) + [i] + LogOf(verify)
  {
  }

  /** `newGeneratorConvergenceError`. */
  method Fail<W>(phase: Phase, cause: Failure, result: OperationResult<W>) returns (err: Option<ConvergenceError>)
    modifies result`delivery
    ensures err == Some(ConvergenceError(phase, cause))
    ensures result.delivery ==
            if result.completed == [] && (phase.AdmissionPhase? || phase.PreflightPhase?) then NotAttempted
            else PartialOrUnknown
  {
    result.delivery := PartialOrUnknown;
    if |result.completed| == 0 && (phase.AdmissionPhase? || phase.PreflightPhase?) {
      result.delivery := NotAttempted;
    }
    return Some(ConvergenceError(phase, cause));
  }

  /** A failed exchange may or may not have reached the device: the kept state is
      no longer known, and nothing is sent to restore it. */
  method GiveUp<W>(phase: Phase, cause: Failure, preserved: Option<bool>, result: OperationResult<W>)
    returns (err: Option<ConvergenceError>)
    requires !phase.AdmissionPhase? && !phase.PreflightPhase?
    modifies result`delivery, result`status, result`output
    ensures err == Some(ConvergenceError(phase, cause)) && result.delivery == PartialOrUnknown
    ensures if preserved.Some? then result.status == CompensationNotAttempted && result.output.None?
            else unchanged(result`status, result`output)
  {
    if preserved.Some? {
      result.status := CompensationNotAttempted;
      result.MarkOutputUnknown();
    }
    err := Fail(phase, cause, result);
  }

  /** The waveform write. */
  method WriteStage<W(!new)>(d: Dialect<W>, ghost e: Evidence<W>, plan: Plan<W>, device: Transaction,
                             preserved: Option<bool>, result: OperationResult<W>, ghost start: seq<Interaction>,
                             ghost before: Trace)
    returns (err: Option<ConvergenceError>, ghost t: Trace)
    requires plan.waveform.Some? && plan.writes != [] && OrderlyPreflight(e, plan, before)
    requires before == NOTHING.(preflight := before.preflight, kept := before.kept)
    requires Underway(e, plan, before, result.View()) && device.log == start + Whole(before)
    requires preserved == if Preserves(plan) then before.kept else None
    modifies device`executed, device`log, result
    ensures device.log == start + Whole(t)
    ensures t == before.(waveform := t.waveform) && t.waveform.Some? && t.waveform.value.command == plan.writes[0]
    ensures err.None? ==> Acked(t.waveform) && Underway(e, plan, t, result.View())
    ensures err.Some? ==> err.value.phase.WritePhase?
    ensures err.Some? ==> Orderly(d, e, plan, t) && Truthful(e, plan, t, result.View(), err)
  {
    var failure;
    ghost var i;
    failure, i := ExecuteWrite(device, plan.writes[0], result);
    AddWaveform(start, before, i);
    t := before.(waveform := Some(i));
    err := None;
    if failure.Some? {
      ghost var report := result.View();
      err := GiveUp(WritePhase, failure.value, preserved, result);
      LostWriteIsTruthful(d, e, plan, before, i, report, result.View(), err.value);
    }
  }

  /** Once the waveform write is lost, nothing more is sent. */
  lemma LostWriteIsTruthful<W(!new)>(d: Dialect<W>, e: Evidence<W>, plan: Plan<W>, before: Trace, i: Interaction,
                                     r: Report<W>, r': Report<W>, err: ConvergenceError)
    requires plan.waveform.Some? && plan.writes != [] && OrderlyPreflight(e, plan, before)
    requires before == NOTHING.(preflight := before.preflight, kept := before.kept)
    requires Underway(e, plan, before, r)
    requires i.command == plan.writes[0] && !i.outcome.Replied?
    requires err.phase.WritePhase? && LossOf([i]) == Some(err.cause)
    requires r' == if Preserves(plan) && before.kept.Some?
                   then r.(delivery := PartialOrUnknown, status := CompensationNotAttempted, output := None)
                   else r.(delivery := PartialOrUnknown)
    ensures var t := before.(waveform := Some(i));
            Orderly(d, e, plan, t) && Truthful(e, plan, t, r', Some(err))
  {
  }

  /** The waveform is written, and no more. */
  predicate Written<W>(e: Evidence<W>, plan: Plan<W>, t: Trace) {
    && plan.waveform.Some? && plan.writes != [] && OrderlyPreflight(e, plan, t)
    && Acked(t.waveform) && t.waveform.value.command == plan.writes[0] && t.context.None? && t.rest == []
  }

  /** The waveform's barrier, and what its failure entails. */
  method ContextStage<W(==,!new)>(d: Dialect<W>, ghost e: Evidence<W>, plan: Plan<W>, device: Transaction,
                                  preserved: Option<bool>, result: OperationResult<W>, ghost start: seq<Interaction>,
                                  ghost before: Trace)
    returns (err: Option<ConvergenceError>, ghost t: Trace)
    requires Sound(d, e) && !device.canceled && Written(e, plan, before)
    requires Underway(e, plan, before, result.View()) && device.log == start + Whole(before)
    requires preserved == if Preserves(plan) then before.kept else None
    modifies device, result
    ensures device.log == start + Whole(t) && t.kept == before.kept
    ensures err.None? ==>
              && t == before.(context := t.context) && Passed(t.context) && OrderlyWaveform(e, plan, t)
              && Underway(e, plan, t, result.View()) && !device.canceled
    ensures err.Some? ==> err.value.phase.ContextPhase?
    ensures err.Some? ==> Orderly(d, e, plan, t) && Truthful(e, plan, t, result.View(), err)
  {
    var failure;
    ghost var run;
    failure, run := AwaitContext(d, e, device, plan.waveform.value, result);
    AddContext(start, before, Run(run, failure));
    t := before.(context := Some(Run(run, failure)));
    err := None;
    if failure.Some? {
      if preserved.Some? && (failure.value.MalformedReply? || failure.value.Nonconvergence?) {
        err, t := CompensationStage(d, e, plan, device, preserved.value, failure.value, result, start, t);
      } else {
        err := GiveUp(ContextPhase, failure.value, preserved, result);
      }
    }
  }

  /** The output's kept state is restored before the error is returned. */
  method CompensationStage<W(!new)>(d: Dialect<W>, ghost e: Evidence<W>, plan: Plan<W>, device: Transaction,
                                    preserved: bool, cause: Failure, result: OperationResult<W>,
                                    ghost start: seq<Interaction>, ghost before: Trace)
    returns (err: Option<ConvergenceError>, ghost t: Trace)
    requires Sound(d, e) && !device.canceled && Written(e, plan, before.(context := None))
    requires Preserves(plan) && before.kept == Some(preserved) && Misread(before.context)
    requires before.context.value.err == Some(cause)
    requires e.context(before.context.value.log, before.context.value.err, plan.waveform.value)
    requires Underway(e, plan, before, result.View()) && device.log == start + Whole(before)
    modifies device, result
    ensures device.log == start + Whole(t) && t.kept == before.kept
    ensures err.Some? && err.value.phase.ContextPhase? && Orderly(d, e, plan, t)
    ensures Truthful(e, plan, t, result.View(), err)
  {
    var failure;
    ghost var i, verify;
    failure, i, verify := Compensate(d, e, device, preserved, result);
    AddOutput(start, before, i, verify);
    t := before.(restore := Some(i), verify := verify);
    err := Fail(ContextPhase, if failure.Some? then Joined(cause, failure.value) else cause, result);
  }

  /** The remaining writes. */
  method RestStage<W(!new)>(d: Dialect<W>, ghost e: Evidence<W>, plan: Plan<W>, device: Transaction,
                            preserved: Option<bool>, result: OperationResult<W>, ghost start: seq<Interaction>,
                            ghost before: Trace)
    returns (err: Option<ConvergenceError>, ghost t: Trace)
    requires OrderlyPreflight(e, plan, before) && OrderlyWaveform(e, plan, before) && ContextPassed(plan, before)
    requires before.rest == []
    requires Underway(e, plan, before, result.View()) && device.log == start + Whole(before)
    requires preserved == if Preserves(plan) then before.kept else None
    modifies device`executed, device`log, result
    ensures device.log == start + Whole(t) && t == before.(rest := t.rest)
    ensures err.None? ==> SentAll(t.rest, Rest(plan)) && OrderlyRest(plan, t) && Underway(e, plan, t, result.View())
    ensures err.Some? ==>
              err.value.phase.RemainingPhase? && Orderly(d, e, plan, t) && Truthful(e, plan, t, result.View(), err)
  {
    var commands := plan.writes;
    if plan.waveform.Some? && commands != [] {
      commands := commands[1..];
    }
    var failure;
    ghost var run;
    ghost var earlier := result.View();
    failure, run := ExecuteRest(device, commands, result);
    ghost var report := result.View();
    AddRest(start, before, run);
    t := before.(rest := run);
    err := None;
    if failure.None? {
      SettingsAreUnderway(e, plan, before, run, earlier, report);
    } else {
      err := GiveUp(RemainingPhase, failure.value, preserved, result);
      LostSettingIsTruthful(d, e, plan, before, run, report, result.View(), err.value);
    }
  }

  lemma SettingsAreUnderway<W(!new)>(e: Evidence<W>, plan: Plan<W>, before: Trace, run: seq<Interaction>, r: Report<W>,
                                     r': Report<W>)
    requires Underway(e, plan, before, r) && before.rest == []
    requires r' == r.(completed := r.completed + AckedTexts(run))
    ensures Underway(e, plan, before.(rest := run), r')
  {
  }

  /** Once a setting's write is lost, nothing more is sent. */
  lemma LostSettingIsTruthful<W(!new)>(d: Dialect<W>, e: Evidence<W>, plan: Plan<W>, before: Trace,
                                       run: seq<Interaction>, r: Report<W>, r': Report<W>, err: ConvergenceError)
    requires OrderlyPreflight(e, plan, before) && OrderlyWaveform(e, plan, before) && ContextPassed(plan, before)
    requires before.rest == [] && Sequel(run, Rest(plan)) && run != [] && !AllAcked(run)
    requires Underway(e, plan, before, r.(completed := AckedText(before.waveform) + AckedTexts(before.rest)))
    requires r.completed == AckedText(before.waveform) + AckedTexts(run)
    requires err.phase.RemainingPhase? && LossOf(run) == Some(err.cause)
    requires r' == if Preserves(plan) && before.kept.Some?
                   then r.(delivery := PartialOrUnknown, status := CompensationNotAttempted, output := None)
                   else r.(delivery := PartialOrUnknown)
    ensures var t := before.(rest := run);
            Orderly(d, e, plan, t) && Truthful(e, plan, t, r', Some(err))
  {
  }

  /** The output command, last of all, and its verification if a waveform was
      written, too. */
  method OutputStage<W(!new)>(d: Dialect<W>, ghost e: Evidence<W>, plan: Plan<W>, device: Transaction,
                              preserved: Option<bool>, outputCommand: Option<Command>, result: OperationResult<W>,
                              ghost start: seq<Interaction>, ghost before: Trace)
    returns (err: Option<ConvergenceError>, ghost t: Trace)
    requires Sound(d, e) && !device.canceled
    requires OrderlyPreflight(e, plan, before) && OrderlyWaveform(e, plan, before) && OrderlyRest(plan, before)
    requires Finished(plan, before)
    requires Underway(e, plan, before, result.View()) && device.log == start + Whole(before)
    requires preserved == if Preserves(plan) then before.kept else None
    requires outputCommand == match Target(plan, before)
                              case None => None
                              case Some(value) => Some(d.OutputCommand(value))
    modifies device, result
    ensures device.log == start + Whole(t) && Orderly(d, e, plan, t) && Truthful(e, plan, t, result.View(), err)
    ensures err.Some? ==> err.value.phase.OutputPhase?
  {
    t := before;
    if outputCommand.None? {
      ghost var report := result.View();
      result.delivery := ReadbackUnverified;
      SettingsAreTruthful(d, e, plan, t, report, result.View());
      return None, t;
    }
    // The code's branch for an output command without a target is not needed.
    assert plan.output.Some? || preserved.Some?;
    var target := if plan.output.Some? then plan.output.value else preserved.value;
    err, t := SendOutput(d, e, plan, device, target, outputCommand.value, result, start, before);
    if err.Some? {
      return;
    }
    if preserved.None? || plan.output.Some? {
      if plan.waveform.None? {
        result.delivery := ReadbackUnverified;
        return None, t;
      }
    }
    err, t := VerifyStage(d, e, plan, device, target, result, start, t);
  }

  method SendOutput<W(!new)>(d: Dialect<W>, ghost e: Evidence<W>, plan: Plan<W>, device: Transaction, target: bool,
                             command: Command, result: OperationResult<W>, ghost start: seq<Interaction>,
                             ghost before: Trace)
    returns (err: Option<ConvergenceError>, ghost t: Trace)
    requires OrderlyPreflight(e, plan, before) && OrderlyWaveform(e, plan, before) && OrderlyRest(plan, before)
    requires Finished(plan, before) && Target(plan, before) == Some(target) && command == d.OutputCommand(target)
    requires Underway(e, plan, before, result.View()) && device.log == start + Whole(before)
    modifies device`executed, device`log, result
    ensures device.log == start + Whole(t) && Orderly(d, e, plan, t)
    ensures t == before.(restore := t.restore) && result.requested == Some(target)
    ensures err.None? ==>
              && Acked(t.restore)
              && result.View() ==
                 old(result.View()).(requested := Some(target),
                                     completed := old(result.completed) + AckedText(t.restore))
    ensures err.Some? ==> err.value.phase.OutputPhase? && Truthful(e, plan, t, result.View(), err)
  {
    result.requested := Some(target);
    var failure;
    ghost var i;
    failure, i := ExecuteWrite(device, command, result);
    AddOutput(start, before, i, None);
    t := before.(restore := Some(i));
    OutputIsOrderly(d, e, plan, before, target, i);
    err := None;
    if failure.Some? {
      err := RefuseOutput(failure.value, result);
      RefusedOutputIsTruthful(e, plan, before, target, i, result.View(), err.value);
    }
  }

  /** The final output command was lost: what the output is, is not known. */
  method RefuseOutput<W>(cause: Failure, result: OperationResult<W>) returns (err: Option<ConvergenceError>)
    modifies result`delivery, result`status, result`output
    ensures err == Some(ConvergenceError(OutputPhase, cause))
    ensures result.View() ==
            old(result.View()).(delivery := PartialOrUnknown, status := CompensationFailed, output := None)
  {
    result.status := CompensationFailed;
    result.MarkOutputUnknown();
    err := Fail(OutputPhase, cause, result);
  }

  lemma OutputIsOrderly<W(!new)>(d: Dialect<W>, e: Evidence<W>, plan: Plan<W>, before: Trace, target: bool,
                                 i: Interaction)
    requires OrderlyPreflight(e, plan, before) && OrderlyWaveform(e, plan, before) && OrderlyRest(plan, before)
    requires Finished(plan, before) && before.verify.None?
    requires Target(plan, before) == Some(target) && i.command == d.OutputCommand(target)
    ensures Orderly(d, e, plan, before.(restore := Some(i)))
  {
  }

  lemma RefusedOutputIsTruthful<W(!new)>(e: Evidence<W>, plan: Plan<W>, before: Trace, target: bool, i: Interaction,
                                         r: Report<W>, err: ConvergenceError)
    requires Finished(plan, before) && before.restore.None? && before.verify.None?
    requires Target(plan, before) == Some(target) && TruthfulContext(e, plan, before, r)
    requires r.completed == AckedText(before.waveform) + AckedTexts(before.rest) && !i.outcome.Replied?
    requires r.status == CompensationFailed && r.output.None? && r.observed.None? && r.requested == Some(target)
    requires r.delivery == PartialOrUnknown && err.phase.OutputPhase?
    requires Explains(before.(restore := Some(i)), err)
    ensures Truthful(e, plan, before.(restore := Some(i)), r, Some(err))
  {
  }

  /** Without an output command the operation ends after the settings. */
  lemma SettingsAreTruthful<W(!new)>(d: Dialect<W>, e: Evidence<W>, plan: Plan<W>, t: Trace, r: Report<W>,
                                     r': Report<W>)
    requires OrderlyPreflight(e, plan, t) && OrderlyWaveform(e, plan, t) && OrderlyRest(plan, t)
    requires Finished(plan, t) && Target(plan, t).None? && Underway(e, plan, t, r)
    requires r' == r.(delivery := ReadbackUnverified)
    ensures Orderly(d, e, plan, t) && Truthful(e, plan, t, r', None)
  {
  }

  method VerifyStage<W(!new)>(d: Dialect<W>, ghost e: Evidence<W>, plan: Plan<W>, device: Transaction, target: bool,
                              result: OperationResult<W>, ghost start: seq<Interaction>, ghost before: Trace)
    returns (err: Option<ConvergenceError>, ghost t: Trace)
    requires Sound(d, e) && !device.canceled && plan.waveform.Some?
    requires Orderly(d, e, plan, before) && Finished(plan, before) && Acked(before.restore) && before.verify.None?
    requires TruthfulContext(e, plan, before, result.View())
    requires Target(plan, before) == Some(target) == result.requested && device.log == start + Whole(before)
    requires result.observed.None?
    requires result.completed == AckedText(before.waveform) + AckedTexts(before.rest) + AckedText(before.restore)
    modifies device, result
    ensures device.log == start + Whole(t) && Orderly(d, e, plan, t) && Truthful(e, plan, t, result.View(), err)
    ensures err.Some? ==> err.value.phase.OutputPhase?
  {
    var failure;
    ghost var run;
    failure, run := VerifyOutput(d, e, device, target, result);
    AddVerify(start, before, Run(run, failure));
    t := before.(verify := Some(Run(run, failure)));
    if failure.Some? {
      err := Fail(OutputPhase, failure.value, result);
      return;
    }
    result.delivery := if plan.numeric then ReadbackUnverified else ReadbackVerified;
    err := None;
  }

  lemma AddVerify(start: seq<Interaction>, t: Trace, run: Run)
    requires t.verify.None?
    ensures start + Whole(t.(verify := Some(run))) == start + Whole(t) + run.log
  {
  }

  /** `SetGeneratorObserved` from admission on. `admission` is the error that
      keeps the transaction from being admitted, if any. */
  method Operate<W(==,!new)>(d: Dialect<W>, ghost e: Evidence<W>, plan: Plan<W>, output: Option<Command>,
                             admission: Option<nat>, device: Transaction, result: OperationResult<W>)
    returns (err: Option<ConvergenceError>, ghost t: Trace)
    requires Sound(d, e) && !device.canceled && (plan.waveform.Some? ==> plan.writes != [])
    requires output == match plan.output
                       case None => None
                       case Some(value) => Some(d.OutputCommand(value))
    requires result.View() == Report(NotAttempted, [], NotRequired, None, None, None, None, Unknown)
    modifies device, result
    ensures device.log == old(device.log) + Whole(t)
    ensures Orderly(d, e, plan, t) && Truthful(e, plan, t, result.View(), err)
    ensures err.Some? && err.value.phase.AdmissionPhase? <==> admission.Some?
  {
    t := NOTHING;
    assert device.log == old(device.log) + Whole(t);
    if admission.Some? {
      err := Fail(AdmissionPhase, Admission(admission.value), result);
      return;
    }
    var outputCommand, preserved := output, None;
    if plan.waveform.Some? && plan.output.None? {
      var failure;
      ghost var run, kept;
      preserved, failure, run, kept := Preflight(d, e, device, result);
      t := t.(preflight := Some(Run(run, failure)), kept := kept);
      assert Whole(t) == run;
      if failure.Some? {
        err := Fail(PreflightPhase, failure.value, result);
        return;
      }
      outputCommand := Some(d.OutputCommand(preserved.value));
    }
    err, t := AfterPreflight(d, e, plan, device, preserved, outputCommand, result, old(device.log), t);
  }

  method AfterPreflight<W(==,!new)>(d: Dialect<W>, ghost e: Evidence<W>, plan: Plan<W>, device: Transaction,
                                    preserved: Option<bool>, outputCommand: Option<Command>,
                                    result: OperationResult<W>, ghost start: seq<Interaction>, ghost before: Trace)
    returns (err: Option<ConvergenceError>, ghost t: Trace)
    requires Sound(d, e) && !device.canceled && (plan.waveform.Some? ==> plan.writes != [])
    requires before == NOTHING.(preflight := before.preflight, kept := before.kept)
    requires OrderlyPreflight(e, plan, before)
    requires Underway(e, plan, before, result.View()) && device.log == start + Whole(before)
    requires preserved == if Preserves(plan) then before.kept else None
    requires outputCommand == match Target(plan, before)
                              case None => None
                              case Some(value) => Some(d.OutputCommand(value))
    modifies device, result
    ensures device.log == start + Whole(t) && Orderly(d, e, plan, t) && Truthful(e, plan, t, result.View(), err)
    ensures err.Some? ==> !err.value.phase.AdmissionPhase?
  {
    t := before;
    if plan.waveform.Some? {
      // The code's branch for a missing waveform write is not needed.
      assert plan.writes != [];
      err, t := WriteStage(d, e, plan, device, preserved, result, start, t);
      if err.Some? {
        return;
      }
      err, t := ContextStage(d, e, plan, device, preserved, result, start, t);
      if err.Some? {
        return;
      }
    }
    err, t := RestStage(d, e, plan, device, preserved, result, start, t);
    if err.Some? {
      return;
    }
    err, t := OutputStage(d, e, plan, device, preserved, outputCommand, result, start, t);
  }
}
