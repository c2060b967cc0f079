/** What holds of every run of the session protocol. */
module SessionTheorems {
  import opened Wrappers
  import opened SessionProtocol
  import opened SessionInvariant
  import opened SessionLedger

  ghost predicate Inv(s: State) {
    Gates(s) && Ledger(s) && Generations(s)
  }

  lemma StepKeepsInv(s: State, t: nat, c: Choice)
    requires Inv(s) && t < |s.threads|
    ensures Inv(Step(s, t, c))
  {
    GatesStep(s, t, c);
    match s.threads[t] {
      case Idle =>
        LedgerStart(s, t, c);
        GenerationsOther(s, t, c);
      case Beginning(stage) =>
        if stage == BeginValidated {
          LedgerBegun(s, t, c);
        } else {
          LedgerBegin(s, t, c);
        }
        GenerationsOther(s, t, c);
      case Executing(_, _, _) =>
        LedgerExecute(s, t, c);
        GenerationsOther(s, t, c);
      case Closing(_, _) =>
        LedgerClose(s, t, c);
        GenerationsOther(s, t, c);
      case Closer(stage, _, _) =>
        LedgerCloser(s, t, c);
        if stage == CloserPublishing {
          GenerationsPublish(s, t, c);
        } else {
          GenerationsClosing(s, t, c);
        }
      case _ =>
        LedgerShutdown(s, t, c);
        GenerationsShutdown(s, t, c);
    }
  }

  /** A new goroutine is harmless. */
  lemma SpawnKeepsInv(s: State)
    requires Inv(s)
    ensures Inv(s.(threads := s.threads + [Idle]))
  {
    var m, s' := Summarize(s.log), s.(threads := s.threads + [Idle]);
    forall u: nat | u < |s'.threads|
      ensures ThreadGates(s', u) && ThreadLedger(s', m, u) && ThreadGenerations(s', m, u)
    {
      if u < |s.threads| {
        assert ThreadGates(s, u) && ThreadLedger(s, m, u) && ThreadGenerations(s, m, u);
      }
    }
    forall x: nat | x < |s'.transactions| ensures TransactionGates(s', x) && TransactionLedger(s', m, x) {
      assert TransactionGates(s, x) && TransactionLedger(s, m, x);
    }
    forall a: nat | a < |s'.attempts| ensures AttemptGenerations(s', m, a) {
      assert AttemptGenerations(s, m, a);
    }
    if NobodyCommands(s') {
      forall u: nat | u < |s.threads| ensures !Commands(s.threads[u]) {
        assert s'.threads[u] == s.threads[u];
      }
    }
  }

  /** Every reachable state satisfies the invariant. */
  lemma {:induction false} RunKeepsInv(schedule: seq<Turn>)
    ensures Inv(Run(schedule))
  {
    if schedule != [] {
      var s, turn := Run(schedule[..|schedule| - 1]), schedule[|schedule| - 1];
      RunKeepsInv(schedule[..|schedule| - 1]);
      if turn.choice == Spawn {
        SpawnKeepsInv(s);
      } else if turn.thread < |s.threads| {
        StepKeepsInv(s, turn.thread, turn.choice);
      }
    }
  }

  // ---- Mutual exclusion and tokens --------------------------------------------

  /** At most one backend call is in flight; an exchange in flight belongs to a
      transaction that still holds the admission token; and the token is never
      lost: whoever holds it is a goroutine or an unreleased transaction. */
  lemma OneCallInFlight(schedule: seq<Turn>, t: nat, u: nat)
    requires t < |Run(schedule).threads| && u < |Run(schedule).threads|
    requires Awaits(Run(schedule).threads[t]).Some?
    ensures Awaits(Run(schedule).threads[u]).Some? ==> t == u
    ensures var s := Run(schedule);
            match s.threads[t]
            case Executing(_, x, _) =>
              && x < |s.transactions| && !s.transactions[x].released
              && s.admission == Some(ByTransaction(x)) && s.transactions[x].execution == Some(t)
            case _ => s.admission == Some(ByThread(t))
  {
    var s := Run(schedule);
    RunKeepsInv(schedule);
    Instance(s, t);
    if t != u {
      OneCommander(s, t, u);
    }
  }

  /** Goroutine `t` acts under the admission: its own, or that of the transaction
      it executes, whose execution gate it holds, too. */
  ghost predicate ActsUnderAdmission(s: State, t: nat) {
    && t < |s.threads|
    && (s.admission == Some(ByThread(t)) ||
        (&& s.threads[t].Executing? && s.threads[t].transaction < |s.transactions|
         && s.admission == Some(ByTransaction(s.threads[t].transaction))
         && s.transactions[s.threads[t].transaction].execution == Some(t)))
  }

  /** The quarantine flag is guarded by the admission: in every run, whoever is
      about to read it or changes it acts under the admission. */
  lemma PoisonIsGuarded(schedule: seq<Turn>, turn: Turn)
    ensures
      var s, s' := Run(schedule), Next(Run(schedule), turn);
      && (s'.poisoned != s.poisoned ==> ActsUnderAdmission(s, turn.thread))
      && forall t: nat | t < |s.threads| && s.threads[t] == Beginning(BeginChecked) :: ActsUnderAdmission(s, t)
  {
    RunKeepsInv(schedule);
    var s := Run(schedule);
    if turn.thread < |s.threads| {
      Instance(s, turn.thread);
      PoisonStep(s, turn.thread, turn.choice);
    }
    forall t: nat | t < |s.threads| && s.threads[t] == Beginning(BeginChecked) ensures ActsUnderAdmission(s, t) {
      Instance(s, t);
    }
  }

  lemma PoisonStep(s: State, t: nat, c: Choice)
    requires t < |s.threads| && ThreadGates(s, t)
    requires s.threads[t].Executing? && s.threads[t].transaction < |s.transactions| ==>
               TransactionGates(s, s.threads[t].transaction)
    ensures Step(s, t, c).poisoned != s.poisoned ==> ActsUnderAdmission(s, t)
  {
    if s.threads[t].Beginning? {
      PoisonBegin(s, t, c);
    } else if s.threads[t].Executing? {
      PoisonExecute(s, t, c);
    } else {
      PoisonElsewhere(s, t, c);
    }
  }

  /** Only two points change the flag. */
  lemma PoisonBegin(s: State, t: nat, c: Choice)
    requires t < |s.threads| && s.threads[t].Beginning?
    ensures Step(s, t, c).poisoned != s.poisoned ==> s.threads[t] == Beginning(BeginRecovered)
  {
  }

  lemma PoisonExecute(s: State, t: nat, c: Choice)
    requires t < |s.threads| && s.threads[t].Executing?
    ensures Step(s, t, c).poisoned != s.poisoned ==>
              s.threads[t].execute == ExchangeFailed && s.threads[t].transaction < |s.transactions|
  {
  }

  lemma PoisonElsewhere(s: State, t: nat, c: Choice)
    requires t < |s.threads| && !s.threads[t].Beginning? && !s.threads[t].Executing?
    ensures Step(s, t, c).poisoned == s.poisoned
  {
  }

  /** The goroutine that closed `x`, holding the execution gate, gives the
      admission of `x` back. */
  ghost predicate ReleasedBy(s: State, s': State, t: nat, x: nat) {
    && x < |s.transactions| && x < |s'.transactions|
    && !s.transactions[x].released && s'.transactions[x].released
    && s.transactions[x].closer == Some(t) && s.transactions[x].execution == Some(t)
    && s.admission == Some(ByTransaction(x)) && s'.admission == None
  }

  lemma CloseReleases(s: State, t: nat, c: Choice)
    requires t < |s.threads| && ThreadGates(s, t) && s.threads[t].Closing?
    requires s.threads[t].transaction < |s.transactions| && TransactionGates(s, s.threads[t].transaction)
    ensures s.admission.Some? && Step(s, t, c).admission == None ==>
              ReleasedBy(s, Step(s, t, c), t, s.threads[t].transaction)
  {
  }

  lemma ReleaseStep(s: State, t: nat, c: Choice)
    requires t < |s.threads| && ThreadGates(s, t) && !s.threads[t].Closing?
    ensures s.admission.Some? && Step(s, t, c).admission == None ==> s.admission.value == ByThread(t)
  {
    if s.threads[t].Executing? {
      ExecuteKeepsAdmission(s, t, c);
    }
  }

  lemma ExecuteKeepsAdmission(s: State, t: nat, c: Choice)
    requires t < |s.threads| && s.threads[t].Executing?
    ensures Step(s, t, c).admission == s.admission
  {
  }

  /** Admission is given back only by its holder: the goroutine that took it,
      or the one that closed the transaction it belongs to. */
  lemma HolderReleases(schedule: seq<Turn>, t: nat, c: Choice)
    requires t < |Run(schedule).threads|
    ensures AdmissionIsOwned(Run(schedule))
    ensures var s, s' := Run(schedule), Step(Run(schedule), t, c);
            s.admission.Some? && s'.admission == None ==>
              if s.threads[t].Closing? then ReleasedBy(s, s', t, s.threads[t].transaction)
              else s.admission.value == ByThread(t)
  {
    RunKeepsInv(schedule);
    Instance(Run(schedule), t);
    if Run(schedule).threads[t].Closing? {
      CloseReleases(Run(schedule), t, c);
    } else {
      ReleaseStep(Run(schedule), t, c);
    }
  }

  lemma ReleasedStep(s: State, s': State, t: nat, x: nat)
    requires t < |s.threads| && x < |s.transactions| && TransactionMoved(s, s', t, x)
    requires ThreadGates(s, t) && TransactionGates(s, x)
    requires s.threads[t].Closing? && s.threads[t].close == CloseExclusive ==> s'.admission == None
    ensures s.transactions[x].released ==> s'.transactions[x].released
    ensures !s.transactions[x].released && s'.transactions[x].released ==> ReleasedBy(s, s', t, x)
  {
  }

  /** A transaction gives its admission back at most once, and only then does
      it count as released. */
  lemma ReleasesOnce(schedule: seq<Turn>, t: nat, c: Choice, x: nat)
    requires t < |Run(schedule).threads| && x < |Run(schedule).transactions|
    ensures var s, s' := Run(schedule), Step(Run(schedule), t, c);
            && x < |s'.transactions|
            && (s.transactions[x].released ==> s'.transactions[x].released)
            && (!s.transactions[x].released && s'.transactions[x].released ==> ReleasedBy(s, s', t, x))
  {
    RunKeepsInv(schedule);
    Instance(Run(schedule), t);
    assert TransactionGates(Run(schedule), x);
    TransactionMoves(Run(schedule), t, c, x);
    ReleasedStep(Run(schedule), Step(Run(schedule), t, c), t, x);
  }

  // ---- The log of backend calls ------------------------------------------------

  /** A lawful log is lawful at every position. */
  lemma {:induction false} LawfulAt(log: seq<Call>, j: nat)
    requires Lawful(log) && j < |log|
    ensures Lawful(log[..j]) && Permitted(Summarize(log[..j]), log[j])
  {
    if j < |log| - 1 {
      LawfulAt(log[..|log| - 1], j);
      assert log[..|log| - 1][..j] == log[..j];
    }
  }

  lemma SummarizeNext(log: seq<Call>, j: nat)
    requires j < |log|
    ensures Summarize(log[..j + 1]) == Note(Summarize(log[..j]), log[j])
  {
    assert log[..j + 1][..j] == log[..j];
  }

  /** What an earlier call leaves in the summary of the log up to `j`. */
  lemma {:induction false} Remembered(log: seq<Call>, i: nat, j: nat)
    requires Lawful(log) && i < j <= |log|
    ensures var m := Summarize(log[..j]);
            match log[i]
            case ExchangeStarted(_, n) => n in m.started
            case ExchangeEnded(x, _, ok) => !ok ==> x in m.failed
            case CloseStarted(a) => a < m.closes
            case CloseEnded(_, ok) => ok ==> m.succeeded
            case _ => true
    decreases j
  {
    SummarizeNext(log, j - 1);
    LawfulAt(log, j - 1);
    if i < j - 1 {
      Remembered(log, i, j - 1);
    }
  }

  /** A failed exchange quarantines the device until a reopening succeeds. */
  lemma {:induction false} StaysQuarantined(log: seq<Call>, i: nat, j: nat)
    requires i < j <= |log| && log[i].ExchangeEnded? && !log[i].ok
    requires forall k | i < k < j :: log[k] != ReopenEnded(true)
    ensures Summarize(log[..j]).quarantined
    decreases j
  {
    SummarizeNext(log, j - 1);
    if i < j - 1 {
      StaysQuarantined(log, i, j - 1);
    }
  }

  /** Calls never overlap: every start is followed by its own end, and every
      end answers the start just before it. */
  lemma CallsAreSerial(schedule: seq<Turn>, i: nat)
    requires i < |Run(schedule).log|
    ensures var log := Run(schedule).log;
            && (IsStart(log[i]) && i + 1 < |log| ==> Answers(log[i + 1], log[i]))
            && (!IsStart(log[i]) ==> i > 0 && Answers(log[i], log[i - 1]))
  {
    var log := Run(schedule).log;
    RunKeepsInv(schedule);
    LawfulAt(log, i);
    OpenIsLast(log, i);
    if i + 1 < |log| {
      LawfulAt(log, i + 1);
      OpenIsLast(log, i + 1);
    }
  }

  /** The call in flight is the last one logged, if that is a start. */
  lemma {:induction false} OpenIsLast(log: seq<Call>, j: nat)
    requires j <= |log|
    ensures Summarize(log[..j]).open == if j > 0 && IsStart(log[j - 1]) then Some(log[j - 1]) else None
  {
    if j > 0 {
      SummarizeNext(log, j - 1);
    }
  }

  /** A failed exchange is never followed by another exchange, of whatever
      transaction, without a successful reopening in between. */
  lemma NoExchangeUnderQuarantine(schedule: seq<Turn>, i: nat, j: nat)
    requires var log := Run(schedule).log;
             i < j < |log| && log[i].ExchangeEnded? && !log[i].ok && log[j].ExchangeStarted?
    ensures exists k :: i < k < j && Run(schedule).log[k] == ReopenEnded(true)
  {
    var log := Run(schedule).log;
    RunKeepsInv(schedule);
    LawfulAt(log, j);
    if forall k | i < k < j :: log[k] != ReopenEnded(true) {
      StaysQuarantined(log, i, j);
    }
  }

  /** The device is reopened only to lift a quarantine: some exchange before
      has failed, and no reopening has succeeded since. */
  lemma {:induction false} QuarantineHasCause(log: seq<Call>, j: nat) returns (i: nat)
    requires j <= |log| && Summarize(log[..j]).quarantined
    ensures i < j && log[i].ExchangeEnded? && !log[i].ok
    ensures forall k | i < k < j :: log[k] != ReopenEnded(true)
  {
    SummarizeNext(log, j - 1);
    if log[j - 1].ExchangeEnded? && !log[j - 1].ok {
      i := j - 1;
    } else {
      i := QuarantineHasCause(log, j - 1);
    }
  }

  lemma ReopenOnlyUnderQuarantine(schedule: seq<Turn>, j: nat)
    requires j < |Run(schedule).log| && Run(schedule).log[j] == ReopenStarted
    ensures var log := Run(schedule).log;
            exists i :: 0 <= i < j && log[i].ExchangeEnded? && !log[i].ok && NoReopeningBetween(log, i, j)
  {
    RunKeepsInv(schedule);
    LawfulAt(Run(schedule).log, j);
    var i := QuarantineHasCause(Run(schedule).log, j);
    assert NoReopeningBetween(Run(schedule).log, i, j);
  }

  predicate NoReopeningBetween(log: seq<Call>, i: int, j: int) {
    forall k | i < k < j && 0 <= k < |log| :: log[k] != ReopenEnded(true)
  }

  /** No replay: one `Execute` call reaches the backend at most once, and a
      transaction with a failed exchange never reaches it again. */
  lemma NoReplay(schedule: seq<Turn>, i: nat, j: nat)
    requires i < j < |Run(schedule).log| && Run(schedule).log[j].ExchangeStarted?
    ensures var log := Run(schedule).log;
            && (log[i].ExchangeStarted? ==> log[i].call != log[j].call)
            && (log[i].ExchangeEnded? && !log[i].ok ==> log[i].transaction != log[j].transaction)
  {
    RunKeepsInv(schedule);
    LawfulAt(Run(schedule).log, j);
    Remembered(Run(schedule).log, i, j);
  }

  /** Once a backend close has begun, even one that fails, the device is never
      used again; closes come one per generation, in order, and stop after the
      first that succeeds. */
  lemma ClosingIsFinal(schedule: seq<Turn>, i: nat, j: nat)
    requires i < j < |Run(schedule).log|
    ensures var log := Run(schedule).log;
            && (log[i].CloseStarted? ==> !log[j].ExchangeStarted? && log[j] != ReopenStarted)
            && (log[i].CloseStarted? && log[j].CloseStarted? ==> log[i].attempt < log[j].attempt)
            && (log[i].CloseEnded? && log[i].ok ==> !log[j].CloseStarted?)
  {
    RunKeepsInv(schedule);
    LawfulAt(Run(schedule).log, j);
    Remembered(Run(schedule).log, i, j);
  }

  /** An outcome in the summary is that of a logged close. */
  lemma {:induction false} OutcomeIsLogged(log: seq<Call>, j: nat, a: nat) returns (i: nat)
    requires j <= |log| && a in Summarize(log[..j]).outcomes
    ensures i < j && log[i] == CloseEnded(a, Summarize(log[..j]).outcomes[a])
  {
    SummarizeNext(log, j - 1);
    if log[j - 1].CloseEnded? && log[j - 1].attempt == a {
      i := j - 1;
    } else {
      i := OutcomeIsLogged(log, j - 1, a);
    }
  }

  /** Every `CloseContext` caller that waits to the end is told the result of
      the generation it joined, and all callers of one generation are told the
      same. */
  lemma CallersSeeTheirGeneration(schedule: seq<Turn>, r: nat, q: nat)
    requires r < |Run(schedule).reports| && q < |Run(schedule).reports|
    ensures var s := Run(schedule);
            && CloseEnded(s.reports[r].attempt, !s.reports[r].failure) in s.log
            && (s.reports[r].attempt == s.reports[q].attempt ==> s.reports[r] == s.reports[q])
  {
    var s := Run(schedule);
    RunKeepsInv(schedule);
    var a := s.reports[r].attempt;
    assert AttemptGenerations(s, Summarize(s.log), a);
    assert s.log[..|s.log|] == s.log;
    var i := OutcomeIsLogged(s.log, |s.log|, a);
  }

  /** A failed generation lets a new one start, and only then: an unfinished or
      successful generation is still the current one, so later callers join it. */
  lemma OneGenerationAtATime(schedule: seq<Turn>, a: nat)
    requires a < |Run(schedule).attempts|
    ensures var s := Run(schedule);
            s.closeAttempt == Some(a) <==> !s.attempts[a].done || !s.attempts[a].failed
  {
    var s := Run(schedule);
    RunKeepsInv(schedule);
    assert AttemptGenerations(s, Summarize(s.log), a);
  }
}
