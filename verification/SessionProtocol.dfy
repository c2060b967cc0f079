/** The admission, quarantine and close protocol of `owonsession.Session`.

    Any number of goroutines run `Begin`, `Transaction.Execute`,
    `Transaction.Close` and `CloseContext` at once. Each control point at which
    another goroutine can observe or change shared state is a program counter,
    and `Next` performs one atomic step of one goroutine. A schedule picks the
    goroutine and the outcome of every step, so a statement about `Run` for all
    schedules is a statement about all interleavings, cancellations and backend
    failures. */
module SessionProtocol {
  import opened Wrappers

  /** Who holds the one-slot `admission` channel. */
  datatype Owner = ByThread(thread: nat) | ByTransaction(transaction: nat)

  /** `released` and `closer` are history: whether this transaction has given
      its admission back, and which goroutine won the `closed.Swap`. */
  datatype Transaction = Transaction(
    closed: bool,
    closeRequested: bool,
    closeDone: bool,
    failed: bool,
    execution: Option<nat>,
    released: bool,
    closer: Option<nat>)

  /** One close generation; `runner` is the goroutine that serves it. */
  datatype Attempt = Attempt(done: bool, failed: bool, runner: nat)

  /** The points of `Session.Begin`. */
  datatype BeginStage =
    | BeginQueued | BeginAdmitted | BeginChecked | BeginRecovering | BeginRecovered | BeginValidated | BeginRejected

  /** The points of `Transaction.Execute`. */
  datatype ExecuteStage =
    | ExecuteQueued | ExecuteAdmitted | ExecuteLive | ExecuteHealthy | ExecuteOpen
    | Exchanging | ExchangeFailed | ExecutePoisoned | ExecuteReturning

  /** The points of `Transaction.Close`. */
  datatype CloseStage =
    | CloseJoining | CloseSignalling | CloseQueued | CloseExclusive | CloseReleased | CloseFinishing

  /** The points of `sessionCloseRunner.Run`. */
  datatype CloserStage =
    | CloserQueued | CloserAdmitted | BackendClosing | CloserReturned | CloserPublishing

  /** Where one goroutine stands; the last three belong to `CloseContext`. */
  datatype Pc =
    | Idle
    | Beginning(begin: BeginStage)
    | Executing(execute: ExecuteStage, transaction: nat, call: nat)
    | Closing(close: CloseStage, transaction: nat)
    | ShutdownMarked
    | ShutdownWaiting(attempt: nat)
    | Closer(closer: CloserStage, attempt: nat, failure: bool)

  /** Starts and ends of backend calls, in the order they happen. */
  datatype Call =
    | ExchangeStarted(transaction: nat, call: nat)
    | ExchangeEnded(transaction: nat, call: nat, ok: bool)
    | ReopenStarted
    | ReopenEnded(ok: bool)
    | CloseStarted(attempt: nat)
    | CloseEnded(attempt: nat, ok: bool)

  /** What one `CloseContext` caller was told about the generation it joined. */
  datatype Report = Report(attempt: nat, failure: bool)

  /** `calls` (which goroutine made each `Execute` call), `inFlight`, `log` and
      `reports` are history. */
  datatype State = State(
    admission: Option<Owner>,
    poisoned: bool,
    closed: bool,
    closeAttempt: Option<nat>,
    attempts: seq<Attempt>,
    transactions: seq<Transaction>,
    threads: seq<Pc>,
    calls: seq<nat>,
    inFlight: Option<nat>,
    log: seq<Call>,
    reports: seq<Report>)

  /** What the scheduler, the caller's context or the backend decides. */
  datatype Choice =
    | Spawn
    | StartBegin
    | StartExecute(target: nat)
    | StartClose(target: nat)
    | StartShutdown
    | Proceed      // take the step the code takes when nothing goes wrong
    | GiveUp       // the caller's context ends, or the step's guard fails
    | Fail         // the backend call returns an error

  datatype Turn = Turn(thread: nat, choice: Choice)

  const INITIAL := State(None, false, false, None, [], [], [], [], None, [], [])

  const FRESH := Transaction(false, false, false, false, None, false, None)

  /** What one step of one goroutine does to the shared state. */
  datatype Effect = Effect(pc: Pc, admission: Option<Owner>, poisoned: bool, event: Option<Call>)

  function Stay(s: State, t: nat): Effect
    requires t < |s.threads|
  {
    Effect(s.threads[t], s.admission, s.poisoned, None)
  }

  function Apply(s: State, t: nat, e: Effect): State
    requires t < |s.threads|
  {
    s.(
      threads := s.threads[t := e.pc],
      admission := e.admission,
      poisoned := e.poisoned,
      inFlight := if e.event.None? then s.inFlight else if IsStart(e.event.value) then Some(t) else None,
      log := if e.event.None? then s.log else s.log + [e.event.value])
  }

  predicate IsStart(call: Call) {
    call.ExchangeStarted? || call.ReopenStarted? || call.CloseStarted?
  }

  /** One atomic step; naming no goroutine changes nothing. */
  function Next(s: State, turn: Turn): State {
    if turn.choice == Spawn then s.(threads := s.threads + [Idle])
    else if turn.thread < |s.threads| then Step(s, turn.thread, turn.choice)
    else s
  }

  /** One atomic step of goroutine `t`; where the code would block, it stays. */
  function Step(s: State, t: nat, c: Choice): State
    requires t < |s.threads|
  {
    match s.threads[t]
    case Idle => StartStep(s, t, c)
    case Beginning(stage) =>
      var begun := Apply(s, t, BeginEffect(s, t, stage, c));
      if stage == BeginValidated then begun.(transactions := s.transactions + [FRESH]) else begun
    case Executing(stage, x, call) =>
      if x >= |s.transactions| then s else
      Apply(s, t, ExecuteEffect(s, t, stage, x, call, c)).(
        transactions := s.transactions[x := ExecuteTransaction(s.transactions[x], t, stage, c)])
    case Closing(stage, x) =>
      if x >= |s.transactions| then s else
      Apply(s, t, CloseEffect(s, t, stage, x)).(
        transactions := s.transactions[x := CloseTransaction(s.transactions[x], t, stage)])
    case ShutdownMarked => ShutdownStep(s, t)
    case ShutdownWaiting(a) => ShutdownWaitStep(s, t, a, c)
    case Closer(stage, a, failure) =>
      if a >= |s.attempts| then s else
      var moved := Apply(s, t, CloserEffect(s, t, stage, a, failure, c));
      if stage == CloserPublishing then
        moved.(
          attempts := s.attempts[a := s.attempts[a].(done := true, failed := failure)],
          closeAttempt := if failure && s.closeAttempt == Some(a) then None else s.closeAttempt)
      else moved
  }

  /** An idle goroutine enters one of the four operations. Nothing stops it from
      naming a transaction that is closed, failed or used by someone else. */
  function StartStep(s: State, t: nat, c: Choice): State
    requires t < |s.threads|
  {
    match c
    case StartBegin =>
      if s.closed then s else s.(threads := s.threads[t := Beginning(BeginQueued)])
    case StartExecute(x) =>
      if x >= |s.transactions| || s.transactions[x].closed then s
      else s.(threads := s.threads[t := Executing(ExecuteQueued, x, |s.calls|)], calls := s.calls + [t])
    case StartClose(x) =>
      if x >= |s.transactions| then s
      else if s.transactions[x].closed then s.(threads := s.threads[t := Closing(CloseJoining, x)])
      else
        s.(
          threads := s.threads[t := Closing(CloseSignalling, x)],
          transactions := s.transactions[x := s.transactions[x].(closed := true, closer := Some(t))])
    case StartShutdown =>
      s.(threads := s.threads[t := ShutdownMarked], closed := true)
    case _ => s
  }

  /** `Session.Begin` and `Session.recover`. */
  function BeginEffect(s: State, t: nat, stage: BeginStage, c: Choice): Effect
    requires t < |s.threads|
  {
    var stay := Stay(s, t);
    match stage
    case BeginQueued =>
      if c == GiveUp then stay.(pc := Idle)
      else if s.admission != None then stay
      else stay.(pc := Beginning(BeginAdmitted), admission := Some(ByThread(t)))
    case BeginAdmitted =>
      stay.(pc := Beginning(if c == GiveUp || s.closed then BeginRejected else BeginChecked))
    case BeginChecked =>
      if !s.poisoned then stay.(pc := Beginning(BeginValidated))
      else if c == GiveUp then stay.(pc := Beginning(BeginRejected))
      else stay.(pc := Beginning(BeginRecovering), event := Some(ReopenStarted))
    case BeginRecovering =>
      stay.(pc := Beginning(if c == Fail then BeginRejected else BeginRecovered), event := Some(ReopenEnded(c != Fail)))
    case BeginRecovered =>
      stay.(pc := Beginning(BeginValidated), poisoned := false)
    case BeginValidated =>
      stay.(pc := Idle, admission := Some(ByTransaction(|s.transactions|)))
    case BeginRejected =>
      stay.(pc := Idle, admission := None)
  }

  /** `Transaction.Execute` after its unguarded entry checks. */
  function ExecuteEffect(s: State, t: nat, stage: ExecuteStage, x: nat, call: nat, c: Choice): Effect
    requires t < |s.threads| && x < |s.transactions|
  {
    var stay := Stay(s, t);
    var tx := s.transactions[x];
    match stage
    case ExecuteQueued =>
      if c == GiveUp || (tx.closeRequested && tx.execution != None) then stay.(pc := Idle)
      else if tx.execution != None then stay
      else stay.(pc := Executing(ExecuteAdmitted, x, call))
    case ExecuteAdmitted =>
      stay.(pc := Executing(if c == GiveUp || tx.closed then ExecuteReturning else ExecuteLive, x, call))
    case ExecuteLive =>
      stay.(pc := Executing(if tx.failed then ExecuteReturning else ExecuteHealthy, x, call))
    case ExecuteHealthy =>
      stay.(pc := Executing(if c == GiveUp || s.closed then ExecuteReturning else ExecuteOpen, x, call))
    case ExecuteOpen =>
      if c == GiveUp then stay.(pc := Executing(ExecuteReturning, x, call))
      else stay.(pc := Executing(Exchanging, x, call), event := Some(ExchangeStarted(x, call)))
    case Exchanging =>
      stay.(
        pc := Executing(if c == Fail then ExchangeFailed else ExecuteReturning, x, call),
        event := Some(ExchangeEnded(x, call, c != Fail)))
    case ExchangeFailed =>
      stay.(pc := Executing(ExecutePoisoned, x, call), poisoned := true)
    case ExecutePoisoned =>
      stay.(pc := Executing(ExecuteReturning, x, call))
    case ExecuteReturning =>
      stay.(pc := Idle)
  }

  /** The transaction's own fields after the same step: take the execution gate,
      publish the failure, give the gate back. */
  function ExecuteTransaction(tx: Transaction, t: nat, stage: ExecuteStage, c: Choice): Transaction {
    match stage
    case ExecuteQueued => if c != GiveUp && tx.execution == None then tx.(execution := Some(t)) else tx
    case ExecutePoisoned => tx.(failed := true)
    case ExecuteReturning => tx.(execution := None)
    case _ => tx
  }

  /** `Transaction.Close` after the `closed.Swap`. */
  function CloseEffect(s: State, t: nat, stage: CloseStage, x: nat): Effect
    requires t < |s.threads| && x < |s.transactions|
  {
    var stay := Stay(s, t);
    match stage
    case CloseJoining => if s.transactions[x].closeDone then stay.(pc := Idle) else stay
    case CloseSignalling => stay.(pc := Closing(CloseQueued, x))
    case CloseQueued => if s.transactions[x].execution != None then stay else stay.(pc := Closing(CloseExclusive, x))
    case CloseExclusive => stay.(pc := Closing(CloseReleased, x), admission := None)
    case CloseReleased => stay.(pc := Closing(CloseFinishing, x))
    case CloseFinishing => stay.(pc := Idle)
  }

  function CloseTransaction(tx: Transaction, t: nat, stage: CloseStage): Transaction {
    match stage
    case CloseJoining => tx
    case CloseSignalling => tx.(closeRequested := true)
    case CloseQueued => if tx.execution != None then tx else tx.(execution := Some(t))
    case CloseExclusive => tx.(released := true)
    case CloseReleased => tx.(closeDone := true)
    case CloseFinishing => tx.(execution := None)
  }

  /** `getOrStartCloseAttempt`, under `closeMu`: join the current generation or
      start one, together with the goroutine that serves it. */
  function ShutdownStep(s: State, t: nat): State
    requires t < |s.threads|
  {
    if s.closeAttempt.Some? then
      s.(threads := s.threads[t := ShutdownWaiting(s.closeAttempt.value)])
    else
      var a := |s.attempts|;
      s.(
        threads := s.threads[t := ShutdownWaiting(a)] + [Closer(CloserQueued, a, false)],
        attempts := s.attempts + [Attempt(false, false, |s.threads|)],
        closeAttempt := Some(a))
  }

  /** The caller's own wait in `CloseContext`. */
  function ShutdownWaitStep(s: State, t: nat, a: nat, c: Choice): State
    requires t < |s.threads|
  {
    if c == GiveUp then
      s.(threads := s.threads[t := Idle])
    else if a < |s.attempts| && s.attempts[a].done then
      s.(threads := s.threads[t := Idle], reports := s.reports + [Report(a, s.attempts[a].failed)])
    else
      s
  }

  /** `closeBackend`. */
  function CloserEffect(s: State, t: nat, stage: CloserStage, a: nat, failure: bool, c: Choice): Effect
    requires t < |s.threads|
  {
    var stay := Stay(s, t);
    match stage
    case CloserQueued =>
      if s.admission != None then stay
      else stay.(pc := Closer(CloserAdmitted, a, false), admission := Some(ByThread(t)))
    case CloserAdmitted =>
      stay.(pc := Closer(BackendClosing, a, false), event := Some(CloseStarted(a)))
    case BackendClosing =>
      stay.(pc := Closer(CloserReturned, a, c == Fail), event := Some(CloseEnded(a, c != Fail)))
    case CloserReturned =>
      stay.(pc := Closer(CloserPublishing, a, failure), admission := None)
    case CloserPublishing =>
      stay.(pc := Idle)
  }

  /** The state after a whole schedule, starting from a new session. */
  function Run(schedule: seq<Turn>): State {
    if schedule == [] then INITIAL
    else Next(Run(schedule[..|schedule| - 1]), schedule[|schedule| - 1])
  }
}
