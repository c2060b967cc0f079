/** What the operations of a session come to: undisturbed, they do what they are
    for; and over all runs, one that does not has its reason. */
module SessionOutcomes {
  import opened Wrappers
  import opened SessionProtocol
  import opened SessionInvariant
  import opened SessionLedger
  import opened SessionTheorems

  /** Goroutine `t` takes `n` steps in which nothing goes wrong, and nobody else
      takes any. */
  function Proceeding(s: State, t: nat, n: nat): (s': State)
    requires t < |s.threads|
    ensures |s'.threads| >= |s.threads|
  {
    if n == 0 then s else StepOn(Proceeding(s, t, n - 1), t, Proceed)
  }

  function StepOn(s: State, t: nat, c: Choice): (s': State)
    requires t < |s.threads|
    ensures |s'.threads| >= |s.threads|
  {
    StepKeepsThreads(s, t, c);
    Step(s, t, c)
  }

  lemma StepKeepsThreads(s: State, t: nat, c: Choice)
    requires t < |s.threads|
    ensures |Step(s, t, c).threads| >= |s.threads|
  {
  }

  lemma OthersStay(s: State, t: nat, c: Choice, u: nat)
    requires t < |s.threads| && u < |s.threads| && u != t
    ensures u < |Step(s, t, c).threads| && Step(s, t, c).threads[u] == s.threads[u]
  {
    if s.threads[t].Executing? || s.threads[t].Closing? {
      InTransactionOthersStay(s, t, c, u);
    } else if s.threads[t].Beginning? || s.threads[t].Closer? {
      HoldingOthersStay(s, t, c, u);
    }
  }

  lemma InTransactionOthersStay(s: State, t: nat, c: Choice, u: nat)
    requires t < |s.threads| && u < |s.threads| && u != t && (s.threads[t].Executing? || s.threads[t].Closing?)
    ensures u < |Step(s, t, c).threads| && Step(s, t, c).threads[u] == s.threads[u]
  {
  }

  lemma HoldingOthersStay(s: State, t: nat, c: Choice, u: nat)
    requires t < |s.threads| && u < |s.threads| && u != t && (s.threads[t].Beginning? || s.threads[t].Closer?)
    ensures u < |Step(s, t, c).threads| && Step(s, t, c).threads[u] == s.threads[u]
  {
  }

  /** Nobody starts out inside `Begin` or `Execute`. */
  lemma NewcomersAreOutside(s: State, turn: Turn, t: nat)
    requires |s.threads| <= t < |Next(s, turn).threads|
    ensures !Next(s, turn).threads[t].Beginning? && !Next(s, turn).threads[t].Executing?
  {
    if turn.choice != Spawn && turn.thread < |s.threads| && !s.threads[turn.thread].ShutdownMarked? {
      NobodyLaunched(s, turn.thread, turn.choice);
    }
  }

  lemma NobodyLaunched(s: State, t: nat, c: Choice)
    requires t < |s.threads| && !s.threads[t].ShutdownMarked?
    ensures |Step(s, t, c).threads| == |s.threads|
  {
  }

  /** Goroutine `t` has stood at `pc` since turn `i`. */
  predicate Stood(schedule: seq<Turn>, t: nat, i: nat, pc: Pc) {
    forall j | i < j <= |schedule| :: t < |Run(schedule[..j]).threads| && Run(schedule[..j]).threads[t] == pc
  }

  lemma StoodOn(schedule: seq<Turn>, t: nat, i: nat, pc: Pc)
    requires i < |schedule| && t < |Run(schedule).threads| && Run(schedule).threads[t] == pc
    requires Stood(schedule[..|schedule| - 1], t, i, pc)
    ensures Stood(schedule, t, i, pc)
  {
    var front := schedule[..|schedule| - 1];
    forall j | i < j <= |schedule|
      ensures t < |Run(schedule[..j]).threads| && Run(schedule[..j]).threads[t] == pc
    {
      if j == |schedule| {
        assert schedule[..j] == schedule;
      } else {
        assert front[..j] == schedule[..j];
      }
    }
  }

  // ---- Begin ---------------------------------------------------------------------------

  function At(s: State, t: nat, pc: Pc): State
    requires t < |s.threads|
  {
    s.(threads := s.threads[t := pc])
  }

  function Held(s: State, t: nat): State {
    s.(admission := Some(ByThread(t)))
  }

  /** What a successful `Begin` leaves. */
  function Begun(s: State, t: nat): State
    requires t < |s.threads|
  {
    At(s, t, Idle).(
      admission := Some(ByTransaction(|s.transactions|)), poisoned := false, transactions := s.transactions + [FRESH])
  }

  ghost predicate MayBegin(s: State, t: nat) {
    t < |s.threads| && s.threads[t] == Beginning(BeginQueued) && s.admission == None
  }

  lemma BeginReachesCheck(s: State, t: nat)
    requires MayBegin(s, t) && !s.closed
    ensures Proceeding(s, t, 2) == At(Held(s, t), t, Beginning(BeginChecked))
  {
    assert Proceeding(s, t, 1) == At(Held(s, t), t, Beginning(BeginAdmitted));
  }

  /** On an open session in order, an undisturbed `Begin` gets its transaction,
      which holds the admission, and the device is not touched. */
  lemma BeginSucceeds(s: State, t: nat)
    requires MayBegin(s, t) && !s.closed && !s.poisoned
    ensures Proceeding(s, t, 4) == Begun(s, t)
  {
    BeginReachesCheck(s, t);
    assert Proceeding(s, t, 3) == At(Held(s, t), t, Beginning(BeginValidated));
  }

  lemma BeginReachesReopening(s: State, t: nat)
    requires MayBegin(s, t) && !s.closed && s.poisoned
    ensures Proceeding(s, t, 3) ==
            At(Held(s, t), t, Beginning(BeginRecovering)).(inFlight := Some(t), log := s.log + [ReopenStarted])
  {
    BeginReachesCheck(s, t);
  }

  /** On a quarantined session it reopens the device once, lifts the quarantine
      and gets its transaction. */
  lemma BeginRecovers(s: State, t: nat)
    requires MayBegin(s, t) && !s.closed && s.poisoned
    ensures Proceeding(s, t, 6) ==
            Begun(s, t).(inFlight := None, log := s.log + [ReopenStarted, ReopenEnded(true)])
  {
    BeginReachesReopening(s, t);
    assert s.log + [ReopenStarted] + [ReopenEnded(true)] == s.log + [ReopenStarted, ReopenEnded(true)];
    var recovered := Held(s, t).(inFlight := None, log := s.log + [ReopenStarted, ReopenEnded(true)]);
    assert Proceeding(s, t, 4) == At(recovered, t, Beginning(BeginRecovered));
    assert Proceeding(s, t, 5) == At(recovered, t, Beginning(BeginValidated)).(poisoned := false);
  }

  /** If that reopening fails, the quarantine stays, nobody holds the admission,
      and there is no transaction. */
  lemma ReopeningFails(s: State, t: nat)
    requires MayBegin(s, t) && !s.closed && s.poisoned
    ensures Proceeding(StepOn(Proceeding(s, t, 3), t, Fail), t, 1) ==
            At(s, t, Idle).(inFlight := None, log := s.log + [ReopenStarted, ReopenEnded(false)])
  {
    BeginReachesReopening(s, t);
    assert s.log + [ReopenStarted] + [ReopenEnded(false)] == s.log + [ReopenStarted, ReopenEnded(false)];
  }

  /** On a session that was closed meanwhile it gives the admission back. */
  lemma BeginSeesClosed(s: State, t: nat)
    requires MayBegin(s, t) && s.closed
    ensures Proceeding(s, t, 3) == At(s, t, Idle)
  {
    assert Proceeding(s, t, 1) == At(Held(s, t), t, Beginning(BeginAdmitted));
    assert Proceeding(s, t, 2) == At(Held(s, t), t, Beginning(BeginRejected));
  }

  /** The turns at which a `Begin` is refused: its context has ended, the session
      is closed, or the reopening has failed. */
  predicate Refusal(s: State, turn: Turn) {
    && turn.thread < |s.threads| && s.threads[turn.thread].Beginning?
    && match s.threads[turn.thread].begin
       case BeginAdmitted => turn.choice == GiveUp || s.closed
       case BeginChecked => turn.choice == GiveUp && s.poisoned
       case BeginRecovering => turn.choice == Fail
       case _ => false
  }

  lemma RejectingStep(s: State, turn: Turn, t: nat)
    requires t < |s.threads| && t < |Next(s, turn).threads|
    requires Next(s, turn).threads[t] == Beginning(BeginRejected) && s.threads[t] != Beginning(BeginRejected)
    ensures turn.thread == t && turn.choice != Spawn && Refusal(s, turn)
  {
    if turn.choice != Spawn && turn.thread < |s.threads| {
      if turn.thread != t {
        OthersStay(s, turn.thread, turn.choice, t);
      } else {
        match s.threads[t] {
          case Idle => IdleEnters(s, t, turn.choice);
          case Beginning(stage) => RejectingBegin(s, t, turn.choice, stage);
          case Executing(_, _, _) => ExecuteStaysInside(s, t, turn.choice);
          case Closing(_, _) => CloseStaysInside(s, t, turn.choice);
          case _ => ShutdownStaysInside(s, t, turn.choice);
        }
      }
    }
  }

  lemma IdleEnters(s: State, t: nat, c: Choice)
    requires t < |s.threads| && s.threads[t] == Idle
    ensures var pc := Step(s, t, c).threads[t];
            && (pc.Beginning? ==> pc.begin == BeginQueued) && (pc.Executing? ==> pc.execute == ExecuteQueued)
  {
  }

  lemma BeginStaysInside(s: State, t: nat, c: Choice)
    requires t < |s.threads| && s.threads[t].Beginning?
    ensures Step(s, t, c).threads[t].Beginning? || Step(s, t, c).threads[t] == Idle
  {
  }

  lemma CloseStaysInside(s: State, t: nat, c: Choice)
    requires t < |s.threads| && s.threads[t].Closing?
    ensures Step(s, t, c).threads[t].Closing? || Step(s, t, c).threads[t] == Idle
  {
  }

  lemma ShutdownStaysInside(s: State, t: nat, c: Choice)
    requires t < |s.threads| && (s.threads[t].ShutdownMarked? || s.threads[t].ShutdownWaiting? || s.threads[t].Closer?)
    ensures !Step(s, t, c).threads[t].Beginning? && !Step(s, t, c).threads[t].Executing?
  {
  }

  lemma RejectingBegin(s: State, t: nat, c: Choice, stage: BeginStage)
    requires t < |s.threads| && s.threads[t] == Beginning(stage) && stage != BeginRejected
    ensures Step(s, t, c).threads[t] == Beginning(BeginRejected) ==> Refusal(s, Turn(t, c))
  {
    assert Step(s, t, c).threads[t] == BeginEffect(s, t, stage, c).pc;
  }

  lemma ExecuteStaysInside(s: State, t: nat, c: Choice)
    requires t < |s.threads| && s.threads[t].Executing?
    ensures Step(s, t, c).threads[t].Executing? || Step(s, t, c).threads[t] == Idle
  {
  }

  /** In every run, a `Begin` that is about to give up was refused at some earlier
      turn, and has been giving up since. */
  lemma {:induction false} RejectedForAReason(schedule: seq<Turn>, t: nat) returns (i: nat)
    requires t < |Run(schedule).threads| && Run(schedule).threads[t] == Beginning(BeginRejected)
    ensures i < |schedule| && schedule[i].thread == t && Refusal(Run(schedule[..i]), schedule[i])
    ensures Stood(schedule, t, i, Beginning(BeginRejected))
  {
    var n := |schedule| - 1;
    var s, turn := Run(schedule[..n]), schedule[n];
    if t >= |s.threads| {
      NewcomersAreOutside(s, turn, t);
      assert false;
    } else if s.threads[t] == Beginning(BeginRejected) {
      i := RejectedForAReason(schedule[..n], t);
      assert schedule[..n][..i] == schedule[..i];
    } else {
      RejectingStep(s, turn, t);
      i := n;
    }
    StoodOn(schedule, t, i, Beginning(BeginRejected));
  }

  /** How a turn ends a `Begin`: with the next transaction, which holds the
      admission; or its context ended before it was admitted; or it was refused,
      and gives back the admission it had. */
  ghost predicate EndsBegin(schedule: seq<Turn>, s: State, turn: Turn, s': State)
    requires s == Run(schedule) && turn.thread < |s.threads|
  {
    || s' == Begun(s, turn.thread).(poisoned := s.poisoned)
    || (turn.choice == GiveUp && s.threads[turn.thread] == Beginning(BeginQueued) && s' == At(s, turn.thread, Idle))
    || (&& s' == At(s, turn.thread, Idle).(admission := None) && s.admission == Some(ByThread(turn.thread))
        && exists i :: 0 <= i < |schedule| && schedule[i].thread == turn.thread
                       && Refusal(Run(schedule[..i]), schedule[i]))
  }

  lemma EndingStep(s: State, t: nat, c: Choice)
    requires t < |s.threads| && s.threads[t].Beginning? && Step(s, t, c).threads[t] == Idle
    ensures match s.threads[t].begin
            case BeginValidated => Step(s, t, c) == Begun(s, t).(poisoned := s.poisoned)
            case BeginQueued => c == GiveUp && Step(s, t, c) == At(s, t, Idle)
            case BeginRejected => Step(s, t, c) == At(s, t, Idle).(admission := None)
            case _ => false
  {
  }

  lemma BeginEnds(schedule: seq<Turn>, turn: Turn)
    requires turn.choice != Spawn && turn.thread < |Run(schedule).threads|
    requires Run(schedule).threads[turn.thread].Beginning?
    requires Step(Run(schedule), turn.thread, turn.choice).threads[turn.thread] == Idle
    ensures EndsBegin(schedule, Run(schedule), turn, Next(Run(schedule), turn))
  {
    var s, t := Run(schedule), turn.thread;
    EndingStep(s, t, turn.choice);
    if s.threads[t].begin == BeginRejected {
      RunKeepsInv(schedule);
      Instance(s, t);
      var i := RejectedForAReason(schedule, t);
    }
  }

  // ---- Execute ---------------------------------------------------------------------------

  function WithTransaction(s: State, x: nat, tx: Transaction): State
    requires x < |s.transactions|
  {
    s.(transactions := s.transactions[x := tx])
  }

  ghost predicate MayExecute(s: State, t: nat, x: nat, n: nat) {
    && t < |s.threads| && s.threads[t] == Executing(ExecuteQueued, x, n)
    && x < |s.transactions| && s.transactions[x].execution == None
  }

  ghost predicate Usable(s: State, x: nat)
    requires x < |s.transactions|
  {
    !s.transactions[x].closed && !s.transactions[x].failed && !s.closed
  }

  /** The state with the execution gate of `x` taken by `t`. */
  function Gated(s: State, t: nat, x: nat): State
    requires x < |s.transactions|
  {
    WithTransaction(s, x, s.transactions[x].(execution := Some(t)))
  }

  lemma ExecuteEnters(s: State, t: nat, x: nat, n: nat)
    requires MayExecute(s, t, x, n) && Usable(s, x)
    ensures Proceeding(s, t, 3) == At(Gated(s, t, x), t, Executing(ExecuteHealthy, x, n))
  {
    var gated := Gated(s, t, x);
    assert Proceeding(s, t, 1) == At(gated, t, Executing(ExecuteAdmitted, x, n));
    assert Proceeding(s, t, 2) == At(gated, t, Executing(ExecuteLive, x, n));
  }

  lemma ExecuteReachesExchange(s: State, t: nat, x: nat, n: nat)
    requires MayExecute(s, t, x, n) && Usable(s, x)
    ensures Proceeding(s, t, 5) ==
            At(Gated(s, t, x), t, Executing(Exchanging, x, n)).(
              inFlight := Some(t), log := s.log + [ExchangeStarted(x, n)])
  {
    ExecuteEnters(s, t, x, n);
    assert Proceeding(s, t, 4) == At(Gated(s, t, x), t, Executing(ExecuteOpen, x, n));
  }

  /** On an open, healthy transaction an undisturbed `Execute` makes its exchange,
      once, and leaves everything else as it was. */
  lemma ExecuteSucceeds(s: State, t: nat, x: nat, n: nat)
    requires MayExecute(s, t, x, n) && Usable(s, x)
    ensures Proceeding(s, t, 7) ==
            At(s, t, Idle).(inFlight := None, log := s.log + [ExchangeStarted(x, n), ExchangeEnded(x, n, true)])
  {
    ExecuteReachesExchange(s, t, x, n);
    var ended := ExchangeEnded(x, n, true);
    assert s.log + [ExchangeStarted(x, n)] + [ended] == s.log + [ExchangeStarted(x, n), ended];
    assert Proceeding(s, t, 6) ==
           At(Gated(s, t, x), t, Executing(ExecuteReturning, x, n)).(
             inFlight := None, log := s.log + [ExchangeStarted(x, n), ended]);
    GateReturns(s, t, x);
  }

  lemma GateReturns(s: State, t: nat, x: nat)
    requires x < |s.transactions| && s.transactions[x].execution == None
    ensures Gated(s, t, x).transactions[x].(execution := None) == s.transactions[x]
    ensures Gated(s, t, x).transactions[x := s.transactions[x]] == s.transactions
  {
  }

  lemma ExchangeIsLost(s: State, t: nat, x: nat, n: nat)
    requires MayExecute(s, t, x, n) && Usable(s, x)
    ensures StepOn(Proceeding(s, t, 5), t, Fail) ==
            Placed(s, t, Executing(ExchangeFailed, x, n), x, s.transactions[x].(execution := Some(t))).(
              inFlight := None, log := s.log + [ExchangeStarted(x, n), ExchangeEnded(x, n, false)])
  {
    ExecuteReachesExchange(s, t, x, n);
    var ended := ExchangeEnded(x, n, false);
    assert s.log + [ExchangeStarted(x, n)] + [ended] == s.log + [ExchangeStarted(x, n), ended];
  }

  lemma ExecutionStep(s: State, t: nat, stage: ExecuteStage, x: nat, n: nat)
    requires t < |s.threads| && s.threads[t] == Executing(stage, x, n) && x < |s.transactions|
    requires stage == ExchangeFailed || stage == ExecutePoisoned || stage == ExecuteReturning
    ensures
      var e := ExecuteEffect(s, t, stage, x, n, Proceed);
      StepOn(s, t, Proceed) ==
      Placed(s, t, e.pc, x, ExecuteTransaction(s.transactions[x], t, stage, Proceed)).(poisoned := e.poisoned)
  {
  }

  lemma PoisoningStep(s: State, t: nat, x: nat, n: nat, tx: Transaction)
    requires t < |s.threads| && x < |s.transactions|
    ensures StepOn(Placed(s, t, Executing(ExchangeFailed, x, n), x, tx), t, Proceed) ==
            Placed(s.(poisoned := true), t, Executing(ExecutePoisoned, x, n), x, tx)
  {
    ExecutionStep(Placed(s, t, Executing(ExchangeFailed, x, n), x, tx), t, ExchangeFailed, x, n);
    Replaced(s, t, Executing(ExchangeFailed, x, n), Executing(ExecutePoisoned, x, n), x, tx, tx);
  }

  lemma MarkingStep(s: State, t: nat, x: nat, n: nat, tx: Transaction)
    requires t < |s.threads| && x < |s.transactions|
    ensures StepOn(Placed(s, t, Executing(ExecutePoisoned, x, n), x, tx), t, Proceed) ==
            Placed(s, t, Executing(ExecuteReturning, x, n), x, tx.(failed := true))
  {
    ExecutionStep(Placed(s, t, Executing(ExecutePoisoned, x, n), x, tx), t, ExecutePoisoned, x, n);
    Replaced(s, t, Executing(ExecutePoisoned, x, n), Executing(ExecuteReturning, x, n), x, tx, tx.(failed := true));
  }

  lemma LeavingStep(s: State, t: nat, x: nat, n: nat, tx: Transaction)
    requires t < |s.threads| && x < |s.transactions|
    ensures StepOn(Placed(s, t, Executing(ExecuteReturning, x, n), x, tx), t, Proceed) ==
            Placed(s, t, Idle, x, tx.(execution := None))
  {
    ExecutionStep(Placed(s, t, Executing(ExecuteReturning, x, n), x, tx), t, ExecuteReturning, x, n);
    Replaced(s, t, Executing(ExecuteReturning, x, n), Idle, x, tx, tx.(execution := None));
  }

  /** An exchange that fails quarantines the session and marks the transaction. */
  lemma ExecuteFails(s: State, t: nat, x: nat, n: nat)
    requires MayExecute(s, t, x, n) && Usable(s, x)
    ensures Proceeding(StepOn(Proceeding(s, t, 5), t, Fail), t, 3) ==
            Placed(s, t, Idle, x, s.transactions[x].(failed := true)).(
              poisoned := true, inFlight := None,
              log := s.log + [ExchangeStarted(x, n), ExchangeEnded(x, n, false)])
  {
    ExchangeIsLost(s, t, x, n);
    LossIsPublished(s.(inFlight := None, log := s.log + [ExchangeStarted(x, n), ExchangeEnded(x, n, false)]), t, x, n,
                    s.transactions[x].(execution := Some(t)));
  }

  lemma LossIsPublished(s: State, t: nat, x: nat, n: nat, tx: Transaction)
    requires t < |s.threads| && x < |s.transactions|
    ensures Proceeding(Placed(s, t, Executing(ExchangeFailed, x, n), x, tx), t, 3) ==
            Placed(s, t, Idle, x, tx.(failed := true, execution := None)).(poisoned := true)
  {
    var lost, poisoned := Placed(s, t, Executing(ExchangeFailed, x, n), x, tx), s.(poisoned := true);
    PoisoningStep(s, t, x, n, tx);
    assert Proceeding(lost, t, 1) == Placed(poisoned, t, Executing(ExecutePoisoned, x, n), x, tx);
    MarkingStep(poisoned, t, x, n, tx);
    assert Proceeding(lost, t, 2) == Placed(poisoned, t, Executing(ExecuteReturning, x, n), x, tx.(failed := true));
    LeavingStep(poisoned, t, x, n, tx.(failed := true));
  }

  /** The turns at which an `Execute` is done with its exchange, or refused one:
      its context has ended or its command is invalid, its transaction is closed
      or has failed, or the session is closed. */
  predicate Returns(s: State, turn: Turn) {
    && turn.thread < |s.threads| && s.threads[turn.thread].Executing?
    && s.threads[turn.thread].transaction < |s.transactions|
    && var tx := s.transactions[s.threads[turn.thread].transaction];
       match s.threads[turn.thread].execute
       case ExecuteAdmitted => turn.choice == GiveUp || tx.closed
       case ExecuteLive => tx.failed
       case ExecuteHealthy => turn.choice == GiveUp || s.closed
       case ExecuteOpen => turn.choice == GiveUp
       case Exchanging => turn.choice != Fail
       case ExecutePoisoned => true
       case _ => false
  }

  lemma ReturningStep(s: State, turn: Turn, t: nat)
    requires t < |s.threads| && t < |Next(s, turn).threads|
    requires Next(s, turn).threads[t].Executing? && Next(s, turn).threads[t].execute == ExecuteReturning
    requires Next(s, turn).threads[t] != s.threads[t]
    ensures turn.thread == t && turn.choice != Spawn && Returns(s, turn)
  {
    if turn.choice != Spawn && turn.thread < |s.threads| {
      if turn.thread != t {
        OthersStay(s, turn.thread, turn.choice, t);
      } else {
        match s.threads[t] {
          case Idle => IdleEnters(s, t, turn.choice);
          case Beginning(_) => BeginStaysInside(s, t, turn.choice);
          case Executing(stage, x, n) => ReturningExecute(s, t, turn.choice, stage, x, n);
          case Closing(_, _) => CloseStaysInside(s, t, turn.choice);
          case _ => ShutdownStaysInside(s, t, turn.choice);
        }
      }
    }
  }

  lemma ReturningExecute(s: State, t: nat, c: Choice, stage: ExecuteStage, x: nat, n: nat)
    requires t < |s.threads| && s.threads[t] == Executing(stage, x, n)
    ensures
      var pc := Step(s, t, c).threads[t];
      pc.Executing? && pc.execute == ExecuteReturning && pc != s.threads[t] ==> Returns(s, Turn(t, c))
  {
    assert x < |s.transactions| ==> Step(s, t, c).threads[t] == ExecuteEffect(s, t, stage, x, n, c).pc;
  }

  /** In every run, an `Execute` about to return made its exchange, or was refused
      it, at some earlier turn. */
  lemma {:induction false} ReturnsForAReason(schedule: seq<Turn>, t: nat) returns (i: nat)
    requires t < |Run(schedule).threads| && Run(schedule).threads[t].Executing?
    requires Run(schedule).threads[t].execute == ExecuteReturning
    ensures i < |schedule| && schedule[i].thread == t && Returns(Run(schedule[..i]), schedule[i])
    ensures Stood(schedule, t, i, Run(schedule).threads[t])
  {
    var n := |schedule| - 1;
    var s, turn := Run(schedule[..n]), schedule[n];
    if t >= |s.threads| {
      NewcomersAreOutside(s, turn, t);
      assert false;
    } else if s.threads[t] == Run(schedule).threads[t] {
      i := ReturnsForAReason(schedule[..n], t);
      assert schedule[..n][..i] == schedule[..i];
    } else {
      ReturningStep(s, turn, t);
      i := n;
    }
    StoodOn(schedule, t, i, Run(schedule).threads[t]);
  }

  // ---- Close -------------------------------------------------------------------------------

  /** `s` with goroutine `t` at `pc` and transaction `x` being `tx`. */
  function Placed(s: State, t: nat, pc: Pc, x: nat, tx: Transaction): State
    requires t < |s.threads| && x < |s.transactions|
  {
    s.(threads := s.threads[t := pc], transactions := s.transactions[x := tx])
  }

  /** Goroutine `t` moves from `pc` to `pc'`, and `x` from `tx` to `tx'`. */
  lemma Replaced(s: State, t: nat, pc: Pc, pc': Pc, x: nat, tx: Transaction, tx': Transaction)
    requires t < |s.threads| && x < |s.transactions|
    ensures Placed(Placed(s, t, pc, x, tx), t, pc', x, tx') == Placed(s, t, pc', x, tx')
  {
    assert s.threads[t := pc][t := pc'] == s.threads[t := pc'];
    assert s.transactions[x := tx][x := tx'] == s.transactions[x := tx'];
  }

  /** One step of a closure that has the gate, or finds it free. */
  lemma ClosureStep(s: State, t: nat, x: nat, stage: CloseStage)
    requires t < |s.threads| && s.threads[t] == Closing(stage, x) && x < |s.transactions|
    ensures
      var e := CloseEffect(s, t, stage, x);
      StepOn(s, t, Proceed) ==
      Placed(s, t, e.pc, x, CloseTransaction(s.transactions[x], t, stage)).(admission := e.admission)
  {
  }

  lemma SignallingStep(s: State, t: nat, x: nat, tx: Transaction)
    requires t < |s.threads| && x < |s.transactions|
    ensures StepOn(Placed(s, t, Closing(CloseSignalling, x), x, tx), t, Proceed) ==
            Placed(s, t, Closing(CloseQueued, x), x, tx.(closeRequested := true))
  {
    var here := Placed(s, t, Closing(CloseSignalling, x), x, tx);
    ClosureStep(here, t, x, CloseSignalling);
    Replaced(s, t, Closing(CloseSignalling, x), Closing(CloseQueued, x), x, tx, tx.(closeRequested := true));
  }

  lemma GateStep(s: State, t: nat, x: nat, tx: Transaction)
    requires t < |s.threads| && x < |s.transactions| && tx.execution == None
    ensures StepOn(Placed(s, t, Closing(CloseQueued, x), x, tx), t, Proceed) ==
            Placed(s, t, Closing(CloseExclusive, x), x, tx.(execution := Some(t)))
  {
    var here := Placed(s, t, Closing(CloseQueued, x), x, tx);
    ClosureStep(here, t, x, CloseQueued);
    Replaced(s, t, Closing(CloseQueued, x), Closing(CloseExclusive, x), x, tx, tx.(execution := Some(t)));
  }

  lemma ReleasingStep(s: State, t: nat, x: nat, tx: Transaction)
    requires t < |s.threads| && x < |s.transactions|
    ensures StepOn(Placed(s, t, Closing(CloseExclusive, x), x, tx), t, Proceed) ==
            Placed(s.(admission := None), t, Closing(CloseReleased, x), x, tx.(released := true))
  {
    var here := Placed(s, t, Closing(CloseExclusive, x), x, tx);
    ClosureStep(here, t, x, CloseExclusive);
    Replaced(s, t, Closing(CloseExclusive, x), Closing(CloseReleased, x), x, tx, tx.(released := true));
  }

  lemma DoneStep(s: State, t: nat, x: nat, tx: Transaction)
    requires t < |s.threads| && x < |s.transactions|
    ensures StepOn(Placed(s, t, Closing(CloseReleased, x), x, tx), t, Proceed) ==
            Placed(s, t, Closing(CloseFinishing, x), x, tx.(closeDone := true))
  {
    var here := Placed(s, t, Closing(CloseReleased, x), x, tx);
    ClosureStep(here, t, x, CloseReleased);
    Replaced(s, t, Closing(CloseReleased, x), Closing(CloseFinishing, x), x, tx, tx.(closeDone := true));
  }

  lemma FinishingStep(s: State, t: nat, x: nat, tx: Transaction)
    requires t < |s.threads| && x < |s.transactions|
    ensures StepOn(Placed(s, t, Closing(CloseFinishing, x), x, tx), t, Proceed) ==
            Placed(s, t, Idle, x, tx.(execution := None))
  {
    var here := Placed(s, t, Closing(CloseFinishing, x), x, tx);
    ClosureStep(here, t, x, CloseFinishing);
    Replaced(s, t, Closing(CloseFinishing, x), Idle, x, tx, tx.(execution := None));
  }

  /** With nobody executing, an undisturbed closure ends the transaction and gives
      the admission back. */
  lemma CloseReleasesAll(s: State, t: nat, x: nat)
    requires t < |s.threads| && s.threads[t] == Closing(CloseSignalling, x)
    requires x < |s.transactions| && s.transactions[x].execution == None
    ensures
      var tx := s.transactions[x].(closeRequested := true, released := true, closeDone := true);
      Proceeding(s, t, 5) == Placed(s, t, Idle, x, tx).(admission := None)
  {
    var tx := s.transactions[x];
    assert s == Placed(s, t, Closing(CloseSignalling, x), x, tx);
    SignallingStep(s, t, x, tx);
    tx := tx.(closeRequested := true);
    assert Proceeding(s, t, 1) == Placed(s, t, Closing(CloseQueued, x), x, tx);
    GateStep(s, t, x, tx);
    tx := tx.(execution := Some(t));
    assert Proceeding(s, t, 2) == Placed(s, t, Closing(CloseExclusive, x), x, tx);
    ReleasingStep(s, t, x, tx);
    tx := tx.(released := true);
    var free := s.(admission := None);
    assert Proceeding(s, t, 3) == Placed(free, t, Closing(CloseReleased, x), x, tx);
    DoneStep(free, t, x, tx);
    tx := tx.(closeDone := true);
    assert Proceeding(s, t, 4) == Placed(free, t, Closing(CloseFinishing, x), x, tx);
    FinishingStep(free, t, x, tx);
  }

  // ---- CloseContext ------------------------------------------------------------------------

  /** With the admission free, the first `CloseContext` launches the goroutine that
      closes the backend, and reports what came of it; only a failure makes room
      for another attempt. */
  lemma ShutdownLaunches(s: State, t: nat)
    requires t < |s.threads| && s.threads[t] == ShutdownMarked && s.closeAttempt == None
    ensures
      var a, u := |s.attempts|, |s.threads|;
      Proceeding(s, t, 1) ==
      s.(threads := s.threads[t := ShutdownWaiting(a)] + [Closer(CloserQueued, a, false)],
         attempts := s.attempts + [Attempt(false, false, u)], closeAttempt := Some(a))
  {
  }

  ghost predicate MayCloseBackend(s: State, u: nat, a: nat) {
    && u < |s.threads| && s.threads[u] == Closer(CloserQueued, a, false) && s.admission == None
    && a < |s.attempts| && s.closeAttempt == Some(a)
  }

  /** Closed: the state behind one backend close with result `ok`. */
  function BackendClosed(s: State, u: nat, a: nat, ok: bool): State
    requires u < |s.threads| && a < |s.attempts|
  {
    At(s, u, Idle).(
      inFlight := None, log := s.log + [CloseStarted(a), CloseEnded(a, ok)],
      attempts := s.attempts[a := s.attempts[a].(done := true, failed := !ok)],
      closeAttempt := if ok then s.closeAttempt else None)
  }

  lemma CloserReachesBackend(s: State, u: nat, a: nat)
    requires MayCloseBackend(s, u, a)
    ensures Proceeding(s, u, 2) ==
            At(Held(s, u), u, Closer(BackendClosing, a, false)).(
              inFlight := Some(u), log := s.log + [CloseStarted(a)])
  {
    assert Proceeding(s, u, 1) == At(Held(s, u), u, Closer(CloserAdmitted, a, false));
  }

  lemma BackendCloses(s: State, u: nat, a: nat, ok: bool)
    requires MayCloseBackend(s, u, a)
    ensures Proceeding(StepOn(Proceeding(s, u, 2), u, if ok then Proceed else Fail), u, 2) ==
            BackendClosed(s, u, a, ok)
  {
    CloserReachesBackend(s, u, a);
    var logged := s.(inFlight := None, log := s.log + [CloseStarted(a), CloseEnded(a, ok)]);
    var ended := At(Held(logged, u), u, Closer(CloserReturned, a, !ok));
    CloserReturns(s, u, a, ok, logged);
    ResultIsPublished(s, logged, u, a, ok);
  }

  lemma CloserReturns(s: State, u: nat, a: nat, ok: bool, logged: State)
    requires MayCloseBackend(s, u, a)
    requires logged == s.(inFlight := None, log := s.log + [CloseStarted(a), CloseEnded(a, ok)])
    ensures
      var closing := At(Held(s, u), u, Closer(BackendClosing, a, false)).(
                       inFlight := Some(u), log := s.log + [CloseStarted(a)]);
      StepOn(closing, u, if ok then Proceed else Fail) == At(Held(logged, u), u, Closer(CloserReturned, a, !ok))
  {
    assert s.log + [CloseStarted(a)] + [CloseEnded(a, ok)] == s.log + [CloseStarted(a), CloseEnded(a, ok)];
  }

  lemma ResultIsPublished(s: State, logged: State, u: nat, a: nat, ok: bool)
    requires MayCloseBackend(s, u, a)
    requires logged == s.(inFlight := None, log := s.log + [CloseStarted(a), CloseEnded(a, ok)])
    ensures Proceeding(At(Held(logged, u), u, Closer(CloserReturned, a, !ok)), u, 2) == BackendClosed(s, u, a, ok)
  {
    assert Proceeding(At(Held(logged, u), u, Closer(CloserReturned, a, !ok)), u, 1) ==
           At(logged, u, Closer(CloserPublishing, a, !ok));
  }

  lemma ShutdownReports(s: State, t: nat, a: nat)
    requires t < |s.threads| && s.threads[t] == ShutdownWaiting(a) && a < |s.attempts| && s.attempts[a].done
    ensures Proceeding(s, t, 1) == At(s, t, Idle).(reports := s.reports + [Report(a, s.attempts[a].failed)])
  {
  }

  // ---- A closed session -------------------------------------------------------------------

  /** The session is closed, and no `Execute` call from the `m`-th on has come to
      an exchange. */
  ghost predicate Barred(s: State, m: nat) {
    && s.closed && m <= |s.calls|
    && (forall t: nat | t < |s.threads| && s.threads[t].Executing? && s.threads[t].call >= m ::
          BeforeExchange(s.threads[t].execute))
    && (forall k | 0 <= k < |s.log| && s.log[k].ExchangeStarted? :: s.log[k].call < m)
  }

  predicate BeforeExchange(stage: ExecuteStage) {
    stage == ExecuteQueued || stage == ExecuteAdmitted || stage == ExecuteLive || stage == ExecuteHealthy
    || stage == ExecuteReturning
  }

  /** One step of the goroutine itself. */
  ghost predicate StillBarred(s: State, s': State, t: nat, m: nat)
    requires t < |s.threads|
  {
    && s'.closed && |s'.calls| >= |s.calls| && t < |s'.threads|
    && (s'.threads[t].Executing? && s'.threads[t].call >= m ==> BeforeExchange(s'.threads[t].execute))
    && (s'.log == s.log ||
        (&& |s'.log| == |s.log| + 1 && s'.log[..|s.log|] == s.log
         && (s'.log[|s.log|].ExchangeStarted? ==> s'.log[|s.log|].call < m)))
  }

  lemma ApplyStaysBarred(s: State, t: nat, e: Effect, transactions: seq<Transaction>, m: nat)
    requires t < |s.threads| && s.closed
    requires e.pc.Executing? && e.pc.call >= m ==> BeforeExchange(e.pc.execute)
    requires e.event.Some? && e.event.value.ExchangeStarted? ==> e.event.value.call < m
    ensures StillBarred(s, Apply(s, t, e).(transactions := transactions), t, m)
  {
  }

  lemma ExecuteStaysBarred(s: State, t: nat, c: Choice, stage: ExecuteStage, x: nat, n: nat, m: nat)
    requires t < |s.threads| && x < |s.transactions| && s.threads[t] == Executing(stage, x, n)
    requires s.closed && (n >= m ==> BeforeExchange(stage))
    ensures
      var e := ExecuteEffect(s, t, stage, x, n, c);
      && (e.pc.Executing? && e.pc.call >= m ==> BeforeExchange(e.pc.execute))
      && (e.event.Some? && e.event.value.ExchangeStarted? ==> e.event.value.call < m)
  {
  }

  lemma StartStaysBarred(s: State, t: nat, c: Choice, m: nat, s': State)
    requires t < |s.threads| && s.threads[t] == Idle && s.closed && m <= |s.calls| && s' == StartStep(s, t, c)
    ensures StillBarred(s, s', t, m)
  {
  }

  lemma BeginStaysBarred(s: State, t: nat, c: Choice, stage: BeginStage)
    requires t < |s.threads| && s.threads[t] == Beginning(stage)
    ensures
      var e := BeginEffect(s, t, stage, c);
      !e.pc.Executing? && (e.event.Some? ==> !e.event.value.ExchangeStarted?)
  {
  }

  lemma ShutdownStaysBarred(s: State, t: nat, m: nat, s': State)
    requires t < |s.threads| && s.threads[t] == ShutdownMarked && s.closed && s' == ShutdownStep(s, t)
    ensures StillBarred(s, s', t, m)
  {
  }

  lemma WaitStaysBarred(s: State, t: nat, c: Choice, a: nat, m: nat, s': State)
    requires t < |s.threads| && s.threads[t] == ShutdownWaiting(a) && s.closed && s' == ShutdownWaitStep(s, t, a, c)
    ensures StillBarred(s, s', t, m)
  {
  }

  lemma CloserStaysBarred(s: State, t: nat, c: Choice, stage: CloserStage, a: nat, failure: bool, m: nat)
    requires t < |s.threads| && s.threads[t] == Closer(stage, a, failure) && s.closed
    ensures StillBarred(s, Step(s, t, c), t, m)
  {
    ApplyStaysBarred(s, t, CloserEffect(s, t, stage, a, failure, c), s.transactions, m);
  }

  lemma StaysBarred(s: State, t: nat, c: Choice, m: nat)
    requires t < |s.threads| && s.closed && m <= |s.calls|
    requires s.threads[t].Executing? && s.threads[t].call >= m ==> BeforeExchange(s.threads[t].execute)
    ensures StillBarred(s, Step(s, t, c), t, m)
  {
    match s.threads[t] {
      case Idle =>
        StartStaysBarred(s, t, c, m, Step(s, t, c));
      case Beginning(stage) =>
        BeginStaysBarred(s, t, c, stage);
        ApplyStaysBarred(s, t, BeginEffect(s, t, stage, c), Step(s, t, c).transactions, m);
      case Executing(stage, x, n) =>
        if x < |s.transactions| {
          ExecuteStaysBarred(s, t, c, stage, x, n, m);
          ApplyStaysBarred(s, t, ExecuteEffect(s, t, stage, x, n, c), Step(s, t, c).transactions, m);
        }
      case Closing(stage, x) =>
        if x < |s.transactions| {
          ApplyStaysBarred(s, t, CloseEffect(s, t, stage, x), Step(s, t, c).transactions, m);
        }
      case ShutdownMarked =>
        ShutdownStaysBarred(s, t, m, Step(s, t, c));
      case ShutdownWaiting(a) =>
        WaitStaysBarred(s, t, c, a, m, Step(s, t, c));
      case Closer(stage, a, failure) =>
        CloserStaysBarred(s, t, c, stage, a, failure, m);
    }
  }

  lemma StepStaysBarred(s: State, turn: Turn, m: nat)
    requires Barred(s, m)
    ensures Barred(Next(s, turn), m)
  {
    var s' := Next(s, turn);
    if turn.choice != Spawn && turn.thread < |s.threads| {
      StaysBarred(s, turn.thread, turn.choice, m);
      LogStaysBarred(s, s', turn.thread, m);
      forall t: nat | t < |s'.threads| && s'.threads[t].Executing? && s'.threads[t].call >= m
        ensures BeforeExchange(s'.threads[t].execute)
      {
        ThreadStaysBarred(s, turn, t, m);
      }
    }
  }

  lemma LogStaysBarred(s: State, s': State, t: nat, m: nat)
    requires Barred(s, m) && t < |s.threads| && StillBarred(s, s', t, m)
    ensures forall k | 0 <= k < |s'.log| && s'.log[k].ExchangeStarted? :: s'.log[k].call < m
  {
    forall k | 0 <= k < |s'.log| && s'.log[k].ExchangeStarted? ensures s'.log[k].call < m {
      assert k < |s.log| ==> s'.log[k] == s'.log[..|s.log|][k];
    }
  }

  lemma ThreadStaysBarred(s: State, turn: Turn, t: nat, m: nat)
    requires Barred(s, m) && turn.choice != Spawn && turn.thread < |s.threads|
    requires StillBarred(s, Next(s, turn), turn.thread, m) && t < |Next(s, turn).threads|
    requires Next(s, turn).threads[t].Executing? && Next(s, turn).threads[t].call >= m
    ensures BeforeExchange(Next(s, turn).threads[t].execute)
  {
    if t >= |s.threads| {
      NewcomersAreOutside(s, turn, t);
    } else if turn.thread != t {
      OthersStay(s, turn.thread, turn.choice, t);
    }
  }

  lemma ClosedIsBarred(schedule: seq<Turn>)
    requires Run(schedule).closed
    ensures Barred(Run(schedule), |Run(schedule).calls|)
  {
    var s := Run(schedule);
    RunKeepsInv(schedule);
    forall t: nat | t < |s.threads| && s.threads[t].Executing? ensures s.threads[t].call < |s.calls| {
      assert ThreadLedger(s, Summarize(s.log), t);
    }
    forall k | 0 <= k < |s.log| && s.log[k].ExchangeStarted? ensures s.log[k].call < |s.calls| {
      Remembered(s.log, k, |s.log|);
      assert s.log[..|s.log|] == s.log;
    }
  }

  lemma {:induction false} ClosedStaysBarred(schedule: seq<Turn>, i: nat, m: nat)
    requires i <= |schedule| && Run(schedule[..i]).closed && m == |Run(schedule[..i]).calls|
    ensures Barred(Run(schedule), m)
  {
    if i == |schedule| {
      assert schedule[..i] == schedule;
      ClosedIsBarred(schedule);
    } else {
      var n := |schedule| - 1;
      assert schedule[..n][..i] == schedule[..i];
      ClosedStaysBarred(schedule[..n], i, m);
      RunStaysBarred(schedule, m);
    }
  }

  lemma RunStaysBarred(schedule: seq<Turn>, m: nat)
    requires schedule != [] && Barred(Run(schedule[..|schedule| - 1]), m)
    ensures Barred(Run(schedule), m)
  {
    StepStaysBarred(Run(schedule[..|schedule| - 1]), schedule[|schedule| - 1], m);
  }

  /** An `Execute` that was called after `CloseContext` had closed the session
      never comes to an exchange. */
  lemma ClosedMeansNoNewExchange(schedule: seq<Turn>, i: nat, k: nat)
    requires i <= |schedule| && Run(schedule[..i]).closed
    requires k < |Run(schedule).log| && Run(schedule).log[k].ExchangeStarted?
    ensures Run(schedule).log[k].call < |Run(schedule[..i]).calls|
  {
    ClosedStaysBarred(schedule, i, |Run(schedule[..i]).calls|);
  }
}
