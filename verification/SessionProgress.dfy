/** The session protocol cannot deadlock: as long as every admitted transaction
    is eventually closed by its caller, some goroutine can always go on. */
module SessionProgress {
  import opened SessionProtocol
  import opened SessionInvariant
  import opened SessionLedger
  import opened SessionTheorems

  /** A transaction whose closure has begun but is not announced yet has its
      closer still at work; once announced, its admission is back. */
  ghost predicate CloserWorks(s: State, x: nat)
    requires x < |s.transactions|
  {
    var tx := s.transactions[x];
    && (tx.closeDone ==> tx.released)
    && (tx.closed && !tx.closeDone ==>
          && tx.closer.Some? && tx.closer.value < |s.threads|
          && var pc := s.threads[tx.closer.value];
             && pc.Closing? && pc.transaction == x && pc.close != CloseJoining && pc.close != CloseFinishing
             && (pc.close == CloseReleased ==> tx.released))
  }

  lemma CloserWorksOn(s: State, s': State, t: nat, x: nat)
    requires t < |s.threads| && x < |s.transactions| && TransactionMoved(s, s', t, x)
    requires ThreadGates(s, t) && TransactionGates(s, x) && CloserWorks(s, x)
    ensures CloserWorks(s', x)
  {
  }

  /** A transaction that has just begun is open. */
  lemma BegunIsOpen(s: State, t: nat, c: Choice)
    requires t < |s.threads|
    ensures |s.transactions| <= |Step(s, t, c).transactions|
    ensures forall x: nat | |s.transactions| <= x < |Step(s, t, c).transactions| ::
              Step(s, t, c).transactions[x] == FRESH
  {
  }

  lemma ClosersWorkStep(s: State, turn: Turn, s': State, x: nat)
    requires Inv(s) && x < |s.transactions| && CloserWorks(s, x) && s' == Next(s, turn)
    ensures x < |s'.transactions| && CloserWorks(s', x)
  {
    var t, c := turn.thread, turn.choice;
    if c != Spawn && t < |s.threads| {
      Instance(s, t);
      assert TransactionGates(s, x);
      TransactionMoves(s, t, c, x);
      CloserWorksOn(s, s', t, x);
    }
  }

  lemma {:induction false} ClosersWork(schedule: seq<Turn>, x: nat)
    requires x < |Run(schedule).transactions|
    ensures CloserWorks(Run(schedule), x)
  {
    if schedule != [] {
      var n := |schedule| - 1;
      var s, turn := Run(schedule[..n]), schedule[n];
      RunKeepsInv(schedule[..n]);
      if x < |s.transactions| {
        ClosersWork(schedule[..n], x);
        ClosersWorkStep(s, turn, Run(schedule), x);
      } else if turn.choice != Spawn && turn.thread < |s.threads| {
        BegunIsOpen(s, turn.thread, turn.choice);
      }
    }
  }

  /** `t` can take a step without anybody cancelling anything. */
  predicate CanProceed(s: State, t: nat) {
    t < |s.threads| && Step(s, t, Proceed) != s
  }

  /** Whoever holds an execution gate can go on. */
  lemma GateHolderProceeds(s: State, t: nat)
    requires t < |s.threads| && ThreadGates(s, t) && HoldsExecution(s.threads[t])
    ensures CanProceed(s, t)
  {
    var s' := Step(s, t, Proceed);
    assert s'.threads[t] != s.threads[t];
  }

  /** So can a goroutine that holds the admission token itself. */
  lemma TokenHolderProceeds(s: State, t: nat)
    requires t < |s.threads| && HoldsAdmission(s.threads[t])
    requires s.threads[t].Closer? ==> s.threads[t].attempt < |s.attempts|
    ensures CanProceed(s, t)
  {
    var s' := Step(s, t, Proceed);
    assert s'.threads[t] != s.threads[t];
  }

  /** While the admission token is taken, the goroutine it waits for, directly
      or through an execution gate, can go on. */
  lemma AdmissionProceeds(schedule: seq<Turn>) returns (u: nat)
    requires Run(schedule).admission.Some?
    requires forall x: nat | x < |Run(schedule).transactions| :: Run(schedule).transactions[x].closed
    ensures CanProceed(Run(schedule), u)
  {
    var s := Run(schedule);
    RunKeepsInv(schedule);
    match s.admission.value {
      case ByThread(t) =>
        u := t;
        assert ThreadGenerations(s, Summarize(s.log), u);
        TokenHolderProceeds(s, u);
      case ByTransaction(x) =>
        u := ClosureProceeds(schedule, x);
    }
  }

  /** A closure under way goes on, or waits for an execution that does. */
  lemma ClosureProceeds(schedule: seq<Turn>, x: nat) returns (u: nat)
    requires x < |Run(schedule).transactions|
    requires Run(schedule).transactions[x].closed
    requires !Run(schedule).transactions[x].closeDone || !Run(schedule).transactions[x].released
    ensures CanProceed(Run(schedule), u)
  {
    var s := Run(schedule);
    RunKeepsInv(schedule);
    ClosersWork(schedule, x);
    var tx := s.transactions[x];
    u := tx.closer.value;
    Instance(s, u);
    assert TransactionGates(s, x);
    if s.threads[u].close == CloseQueued && tx.execution.Some? {
      u := tx.execution.value;
      Instance(s, u);
      GateHolderProceeds(s, u);
    } else {
      var s' := Step(s, u, Proceed);
      assert s'.threads[u] != s.threads[u];
    }
  }

  /** With the admission free, a goroutine inside `Execute` goes on, or the
      holder of the gate it waits for does. */
  lemma ExecuteProceeds(s: State, t: nat) returns (u: nat)
    requires Gates(s) && t < |s.threads| && s.threads[t].Executing?
    ensures CanProceed(s, u)
  {
    u := t;
    Instance(s, t);
    var x := s.threads[t].transaction;
    if s.threads[t].execute == ExecuteQueued {
      if s.transactions[x].execution.Some? {
        u := s.transactions[x].execution.value;
        Instance(s, u);
        GateHolderProceeds(s, u);
      } else {
        assert Step(s, t, Proceed).threads[t] != s.threads[t];
      }
    } else {
      GateHolderProceeds(s, t);
    }
  }

  /** So does the goroutine a `CloseContext` caller waits for. */
  lemma ShutdownProceeds(s: State, t: nat) returns (u: nat)
    requires Inv(s) && s.admission.None? && t < |s.threads|
    requires s.threads[t].ShutdownMarked? || s.threads[t].ShutdownWaiting? || s.threads[t].Closer?
    ensures CanProceed(s, u)
  {
    u := t;
    var m, pc := Summarize(s.log), s.threads[t];
    Instance(s, t);
    assert ThreadGenerations(s, m, t);
    if pc.ShutdownWaiting? && !s.attempts[pc.attempt].done {
      assert AttemptGenerations(s, m, pc.attempt);
      u := s.attempts[pc.attempt].runner;
      Instance(s, u);
      assert ThreadGenerations(s, m, u);
      CloserProceeds(s, u);
    } else if pc.Closer? {
      CloserProceeds(s, u);
    } else {
      assert Step(s, t, Proceed).threads[t] != s.threads[t];
    }
  }

  lemma CloserProceeds(s: State, t: nat)
    requires t < |s.threads| && s.threads[t].Closer? && s.threads[t].attempt < |s.attempts| && s.admission.None?
    ensures CanProceed(s, t)
  {
    assert Step(s, t, Proceed).threads[t] != s.threads[t];
  }

  lemma BeginProceeds(s: State, t: nat)
    requires t < |s.threads| && s.threads[t].Beginning? && s.admission.None?
    ensures CanProceed(s, t)
  {
    assert Step(s, t, Proceed).threads[t] != s.threads[t];
  }

  lemma FreeCloseProceeds(s: State, t: nat, stage: CloseStage, x: nat)
    requires t < |s.threads| && x < |s.transactions| && s.threads[t] == Closing(stage, x)
    requires stage == CloseSignalling || (stage == CloseJoining && s.transactions[x].closeDone)
             || (stage == CloseQueued && s.transactions[x].execution.None?)
    ensures CanProceed(s, t)
  {
    assert Step(s, t, Proceed).threads[t] != s.threads[t];
  }

  /** And a goroutine inside `Transaction.Close`. */
  lemma CloseProceeds(schedule: seq<Turn>, t: nat) returns (u: nat)
    requires t < |Run(schedule).threads| && Run(schedule).threads[t].Closing?
    requires forall x: nat | x < |Run(schedule).transactions| :: Run(schedule).transactions[x].closed
    ensures CanProceed(Run(schedule), u)
  {
    var s := Run(schedule);
    RunKeepsInv(schedule);
    u := t;
    Instance(s, t);
    var pc := s.threads[t];
    if HoldsExecution(pc) {
      GateHolderProceeds(s, t);
    } else if pc.close == CloseQueued && s.transactions[pc.transaction].execution.Some? {
      u := s.transactions[pc.transaction].execution.value;
      Instance(s, u);
      GateHolderProceeds(s, u);
    } else if pc.close != CloseJoining || s.transactions[pc.transaction].closeDone {
      FreeCloseProceeds(s, t, pc.close, pc.transaction);
    } else {
      u := ClosureProceeds(schedule, pc.transaction);
    }
  }

  /** Deadlock freedom. If every transaction begun so far has been closed by its
      caller and some goroutine is still inside an operation, then some
      goroutine can take a step although no context ends. */
  lemma NoDeadlock(schedule: seq<Turn>, t: nat) returns (u: nat)
    requires t < |Run(schedule).threads| && Run(schedule).threads[t] != Idle
    requires forall x: nat | x < |Run(schedule).transactions| :: Run(schedule).transactions[x].closed
    ensures CanProceed(Run(schedule), u)
  {
    var s := Run(schedule);
    RunKeepsInv(schedule);
    if s.admission.Some? {
      u := AdmissionProceeds(schedule);
    } else {
      match s.threads[t]
      case Beginning(_) =>
        u := t;
        BeginProceeds(s, t);
      case Executing(_, _, _) =>
        u := ExecuteProceeds(s, t);
      case Closing(_, _) =>
        u := CloseProceeds(schedule, t);
      case _ =>
        u := ShutdownProceeds(s, t);
    }
  }
}
