/** The inductive invariant of the session protocol, kept by every atomic step. */
module SessionInvariant {
  import opened Wrappers
  import opened SessionProtocol

  // ---- What a goroutine at a given point is entitled to -------------------

  predicate HoldsAdmission(pc: Pc) {
    || (pc.Beginning? && pc.begin != BeginQueued)
    || (pc.Closer? && pc.closer != CloserQueued && pc.closer != CloserPublishing)
  }

  predicate HoldsExecution(pc: Pc) {
    || (pc.Executing? && pc.execute != ExecuteQueued)
    || (pc.Closing? && (pc.close == CloseExclusive || pc.close == CloseReleased || pc.close == CloseFinishing))
  }

  /** Has seen its transaction not closed while holding the execution gate. */
  predicate SawTransactionLive(pc: Pc) {
    pc.Executing? && pc.execute != ExecuteQueued && pc.execute != ExecuteAdmitted && pc.execute != ExecuteReturning
  }

  predicate BeforeRelease(pc: Pc) {
    pc.Closing? && (pc.close == CloseSignalling || pc.close == CloseQueued || pc.close == CloseExclusive)
  }

  // ---- Gates ---------------------------------------------------------------

  /** The admission and execution tokens a goroutine believes it holds are its
      own; a transaction is closed by one goroutine only, and stays admitted
      while an `Execute` that saw it live is under way. */
  ghost predicate ThreadGates(s: State, t: nat)
    requires t < |s.threads|
  {
    var pc := s.threads[t];
    && (HoldsAdmission(pc) ==> s.admission == Some(ByThread(t)))
    && (pc.Executing? || pc.Closing? ==>
          && pc.transaction < |s.transactions|
          && var tx := s.transactions[pc.transaction];
          && (HoldsExecution(pc) ==> tx.execution == Some(t))
          && (pc.Closing? && pc.close != CloseJoining ==> tx.closer == Some(t))
          && (BeforeRelease(pc) || SawTransactionLive(pc) ==> !tx.released))
  }

  ghost predicate TransactionGates(s: State, x: nat)
    requires x < |s.transactions|
  {
    var tx := s.transactions[x];
    && (!tx.released ==> s.admission == Some(ByTransaction(x)))
    && (tx.released || tx.closer.Some? ==> tx.closed)
    && (tx.execution.Some? ==>
          && tx.execution.value < |s.threads|
          && HoldsExecution(s.threads[tx.execution.value])
          && s.threads[tx.execution.value].transaction == x)
  }

  ghost predicate AdmissionIsOwned(s: State) {
    match s.admission
    case None => true
    case Some(ByThread(t)) => t < |s.threads| && HoldsAdmission(s.threads[t])
    case Some(ByTransaction(x)) => x < |s.transactions| && !s.transactions[x].released
  }

  ghost predicate Gates(s: State) {
    && AdmissionIsOwned(s)
    && (forall t: nat | t < |s.threads| :: ThreadGates(s, t))
    && (forall x: nat | x < |s.transactions| :: TransactionGates(s, x))
  }

  /** The part of the invariant that speaks of goroutine `u` and of whatever
      transaction it names. */
  lemma Instance(s: State, u: nat)
    requires Gates(s) && u < |s.threads|
    ensures ThreadGates(s, u)
    ensures s.threads[u].Executing? || s.threads[u].Closing? ==>
              && s.threads[u].transaction < |s.transactions|
              && TransactionGates(s, s.threads[u].transaction)
  {
    assert ThreadGates(s, u);
  }

  /** Goroutine `t` moves, perhaps launching others, without touching any
      transaction: the token stays where it is, or `t` takes it when free, or
      gives up its own. */
  lemma MoveOutside(s: State, s': State, t: nat)
    requires Gates(s) && t < |s.threads| <= |s'.threads|
    requires forall u: nat | u < |s.threads| && u != t :: s'.threads[u] == s.threads[u]
    requires forall u: nat | |s.threads| <= u < |s'.threads| :: s'.threads[u] == Idle || IsQueuedCloser(s'.threads[u])
    requires s'.transactions == s.transactions
    requires !HoldsExecution(s.threads[t]) && !HoldsExecution(s'.threads[t])
    requires s'.threads[t].Executing? ==> s'.threads[t].transaction < |s.transactions|
    requires s'.threads[t].Closing? ==>
               s'.threads[t].close == CloseJoining && s'.threads[t].transaction < |s.transactions|
    requires
      || (s'.admission == s.admission && HoldsAdmission(s'.threads[t]) == HoldsAdmission(s.threads[t]))
      || (s.admission == None && s'.admission == Some(ByThread(t)) && HoldsAdmission(s'.threads[t]))
      || (s'.admission == None && HoldsAdmission(s.threads[t]) && !HoldsAdmission(s'.threads[t]))
    ensures Gates(s')
  {
    Instance(s, t);
    forall u: nat | u < |s'.threads| ensures ThreadGates(s', u) {
      if u < |s.threads| {
        Instance(s, u);
      }
    }
    forall x: nat | x < |s'.transactions| ensures TransactionGates(s', x) {
      assert TransactionGates(s, x);
    }
  }

  predicate IsQueuedCloser(pc: Pc) {
    pc.Closer? && pc.closer == CloserQueued
  }

  /** Goroutine `t` moves within `Execute` or `Close` of transaction `x`: it may
      take the execution gate when free or give up its own, and the one closer,
      holding the gate, may give up the admission. */
  lemma MoveInside(s: State, s': State, t: nat, x: nat)
    requires Gates(s) && t < |s.threads| && x < |s.transactions|
    requires |s'.threads| == |s.threads| && |s'.transactions| == |s.transactions|
    requires s'.threads == s.threads[t := s'.threads[t]] && s'.transactions == s.transactions[x := s'.transactions[x]]
    requires s.threads[t].Executing? || s.threads[t].Closing?
    requires s.threads[t].transaction == x
    requires s'.threads[t] == Idle ||
             (s'.threads[t].Executing? && s'.threads[t].transaction == x && s.threads[t].Executing?) ||
             (s'.threads[t].Closing? && s'.threads[t].transaction == x && s.threads[t].Closing?)
    requires var tx, tx', pc, pc' := s.transactions[x], s'.transactions[x], s.threads[t], s'.threads[t];
             && tx'.closed == tx.closed && tx'.closer == tx.closer
             && (HoldsExecution(pc') ==> tx'.execution == Some(t))
             && (tx'.execution == Some(t) ==> HoldsExecution(pc'))
             && (tx'.execution == tx.execution || (tx'.execution == Some(t) && tx.execution == None)
                 || (tx'.execution == None && HoldsExecution(pc)))
             && (SawTransactionLive(pc') ==> !tx'.released)
             && (pc'.Closing? && pc'.close != CloseJoining ==> tx.closer == Some(t))
             && (BeforeRelease(pc') ==> !tx'.released)
             && ((s'.admission == s.admission && tx'.released == tx.released)
                 || (s'.admission == None && tx'.released && HoldsExecution(pc) && BeforeRelease(pc)))
    ensures Gates(s')
  {
    Instance(s, t);
    forall u: nat | u < |s'.threads| ensures ThreadGates(s', u) {
      Instance(s, u);
    }
    forall y: nat | y < |s'.transactions| ensures TransactionGates(s', y) {
      assert TransactionGates(s, y);
    }
  }

  lemma GatesBegin(s: State, t: nat, c: Choice)
    requires Gates(s) && t < |s.threads| && s.threads[t].Beginning?
    ensures Gates(Step(s, t, c))
  {
    Instance(s, t);
    var s' := Step(s, t, c);
    if s.threads[t].begin != BeginValidated {
      MoveOutside(s, s', t);
    } else {
      forall u: nat | u < |s'.threads| ensures ThreadGates(s', u) {
        Instance(s, u);
      }
      forall x: nat | x < |s'.transactions| ensures TransactionGates(s', x) {
        assert x < |s.transactions| ==> TransactionGates(s, x);
      }
    }
  }

  lemma GatesExecute(s: State, t: nat, c: Choice)
    requires Gates(s) && t < |s.threads| && s.threads[t].Executing?
    ensures Gates(Step(s, t, c))
  {
    Instance(s, t);
    MoveInside(s, Step(s, t, c), t, s.threads[t].transaction);
  }

  lemma GatesClose(s: State, t: nat, c: Choice)
    requires Gates(s) && t < |s.threads| && s.threads[t].Closing?
    ensures Gates(Step(s, t, c))
  {
    Instance(s, t);
    MoveInside(s, Step(s, t, c), t, s.threads[t].transaction);
  }

  lemma GatesShutdown(s: State, t: nat, c: Choice)
    requires Gates(s) && t < |s.threads|
    requires s.threads[t].ShutdownMarked? || s.threads[t].ShutdownWaiting?
    ensures Gates(Step(s, t, c))
  {
    MoveOutside(s, Step(s, t, c), t);
  }

  lemma GatesCloser(s: State, t: nat, c: Choice)
    requires Gates(s) && t < |s.threads| && s.threads[t].Closer?
    ensures Gates(Step(s, t, c))
  {
    var pc := s.threads[t];
    if pc.attempt < |s.attempts| {
      Instance(s, t);
      GatesCloserMove(s, Step(s, t, c), t, c, pc.closer, pc.attempt, pc.failure);
    }
  }

  lemma GatesCloserMove(s: State, s': State, t: nat, c: Choice, stage: CloserStage, a: nat, failure: bool)
    requires Gates(s) && t < |s.threads| && ThreadGates(s, t) && s.threads[t] == Closer(stage, a, failure)
    requires s'.transactions == s.transactions
    requires var e := CloserEffect(s, t, stage, a, failure, c);
             s'.threads == s.threads[t := e.pc] && s'.admission == e.admission
    ensures Gates(s')
  {
    MoveOutside(s, s', t);
  }

  lemma GatesStart(s: State, t: nat, c: Choice)
    requires Gates(s) && t < |s.threads| && s.threads[t] == Idle
    ensures Gates(Step(s, t, c))
  {
    if c.StartClose? && c.target < |s.transactions| && !s.transactions[c.target].closed {
      GatesStartClose(s, Step(s, t, c), t, c.target);
    } else {
      Instance(s, t);
      MoveOutside(s, Step(s, t, c), t);
    }
  }

  lemma GatesStartClose(s: State, s': State, t: nat, x: nat)
    requires Gates(s) && t < |s.threads| && s.threads[t] == Idle && x < |s.transactions| && !s.transactions[x].closed
    requires s' == StartStep(s, t, StartClose(x))
    ensures Gates(s')
  {
    assert TransactionGates(s, x);
    forall u: nat | u < |s'.threads| ensures ThreadGates(s', u) {
      Instance(s, u);
    }
    forall y: nat | y < |s'.transactions| ensures TransactionGates(s', y) {
      assert TransactionGates(s, y);
    }
  }

  lemma GatesStep(s: State, t: nat, c: Choice)
    requires Gates(s) && t < |s.threads|
    ensures Gates(Step(s, t, c))
  {
    match s.threads[t] {
      case Idle => GatesStart(s, t, c);
      case Beginning(_) => GatesBegin(s, t, c);
      case Executing(_, _, _) => GatesExecute(s, t, c);
      case Closing(_, _) => GatesClose(s, t, c);
      case Closer(_, _, _) => GatesCloser(s, t, c);
      case _ => GatesShutdown(s, t, c);
    }
  }

  /** What a step of goroutine `t` may do to the closing of transaction `x`. */
  ghost predicate TransactionMoved(s: State, s': State, t: nat, x: nat)
    requires t < |s.threads| && x < |s.transactions|
  {
    && x < |s'.transactions| && |s.threads| <= |s'.threads|
    && (forall u: nat | u < |s.threads| && u != t :: s'.threads[u] == s.threads[u])
    && var pc, pc', tx, tx' := s.threads[t], s'.threads[t], s.transactions[x], s'.transactions[x];
       if pc.Closing? && pc.transaction == x then
         && tx' == CloseTransaction(tx, t, pc.close)
         && pc' == CloseEffect(s, t, pc.close, x).pc
       else
         && tx'.closeDone == tx.closeDone && tx'.released == tx.released
         && ((tx'.closed == tx.closed && tx'.closer == tx.closer)
             || (pc == Idle && !tx.closed && tx'.closed && tx'.closer == Some(t) && pc' == Closing(CloseSignalling, x)))
  }

  lemma ExecuteMovesTransaction(s: State, t: nat, c: Choice, x: nat)
    requires t < |s.threads| && x < |s.transactions| && s.threads[t].Executing?
    ensures TransactionMoved(s, Step(s, t, c), t, x)
  {
    var pc := s.threads[t];
    if pc.transaction < |s.transactions| {
      var tx' := ExecuteTransaction(s.transactions[pc.transaction], t, pc.execute, c);
      assert Step(s, t, c).transactions == s.transactions[pc.transaction := tx'];
      ExecuteKeepsClosing(s.transactions[pc.transaction], t, pc.execute, c);
    }
  }

  lemma ExecuteKeepsClosing(tx: Transaction, t: nat, stage: ExecuteStage, c: Choice)
    ensures var tx' := ExecuteTransaction(tx, t, stage, c);
            tx'.closed == tx.closed && tx'.closer == tx.closer && tx'.closeDone == tx.closeDone
            && tx'.released == tx.released
  {
  }

  lemma CloseMovesTransaction(s: State, t: nat, c: Choice, x: nat)
    requires t < |s.threads| && x < |s.transactions| && s.threads[t].Closing?
    ensures TransactionMoved(s, Step(s, t, c), t, x)
  {
    var y := s.threads[t].transaction;
    assert y != x ==> Step(s, t, c).transactions[x] == s.transactions[x];
  }

  lemma StartMovesTransaction(s: State, t: nat, c: Choice, x: nat)
    requires t < |s.threads| && x < |s.transactions| && s.threads[t] == Idle
    ensures TransactionMoved(s, Step(s, t, c), t, x)
  {
  }

  lemma CloserMovesTransaction(s: State, t: nat, c: Choice, x: nat)
    requires t < |s.threads| && x < |s.transactions|
    requires s.threads[t].ShutdownMarked? || s.threads[t].ShutdownWaiting? || s.threads[t].Closer?
    ensures TransactionMoved(s, Step(s, t, c), t, x)
  {
  }

  lemma TransactionMoves(s: State, t: nat, c: Choice, x: nat)
    requires t < |s.threads| && x < |s.transactions|
    ensures TransactionMoved(s, Step(s, t, c), t, x)
  {
    match s.threads[t] {
      case Idle => StartMovesTransaction(s, t, c, x);
      case Beginning(_) =>
      case Executing(_, _, _) => ExecuteMovesTransaction(s, t, c, x);
      case Closing(_, _) => CloseMovesTransaction(s, t, c, x);
      case _ => CloserMovesTransaction(s, t, c, x);
    }
  }
}
