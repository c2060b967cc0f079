/** What the log of backend calls of a session may contain, and the invariant
    that makes every atomic step extend it lawfully. */
module SessionLedger {
  import opened Wrappers
  import opened SessionProtocol
  import opened SessionInvariant

  // ---- Reading a log -------------------------------------------------------

  /** `quarantined`: an exchange has failed and no reopening succeeded since.
      `failed`: transactions with a failed exchange. `started`: `Execute` calls
      that reached the backend. `closes`: backend closes begun. `outcomes`: the
      result of each ended close. `open`: the call in flight. */
  datatype Summary = Summary(
    quarantined: bool,
    failed: set<nat>,
    started: set<nat>,
    closes: nat,
    succeeded: bool,
    outcomes: map<nat, bool>,
    open: Option<Call>)

  function Note(m: Summary, e: Call): Summary {
    match e
    case ExchangeStarted(_, n) => m.(started := m.started + {n}, open := Some(e))
    case ExchangeEnded(x, _, ok) =>
      m.(quarantined := m.quarantined || !ok, failed := if ok then m.failed else m.failed + {x}, open := None)
    case ReopenStarted => m.(open := Some(e))
    case ReopenEnded(ok) => m.(quarantined := m.quarantined && !ok, open := None)
    case CloseStarted(_) => m.(closes := m.closes + 1, open := Some(e))
    case CloseEnded(a, ok) =>
      m.(succeeded := m.succeeded || ok, outcomes := m.outcomes[a := ok], open := None)
  }

  function Summarize(log: seq<Call>): Summary {
    if log == [] then Summary(false, {}, {}, 0, false, map[], None)
    else Note(Summarize(log[..|log| - 1]), log[|log| - 1])
  }

  predicate Answers(ended: Call, started: Call) {
    match ended
    case ExchangeEnded(x, call, _) => started == ExchangeStarted(x, call)
    case ReopenEnded(_) => started == ReopenStarted
    case CloseEnded(a, _) => started == CloseStarted(a)
    case _ => false
  }

  /** When `call` may come next after a log with summary `m`. */
  predicate Permitted(m: Summary, call: Call) {
    match call
    case ExchangeStarted(x, n) =>
      m.open == None && !m.quarantined && x !in m.failed && n !in m.started && m.closes == 0
    case ReopenStarted =>
      m.open == None && m.quarantined && m.closes == 0
    case CloseStarted(a) =>
      m.open == None && !m.succeeded && m.closes == a
    case _ =>
      m.open.Some? && Answers(call, m.open.value)
  }

  predicate Lawful(log: seq<Call>) {
    log == [] || (Lawful(log[..|log| - 1]) && Permitted(Summarize(log[..|log| - 1]), log[|log| - 1]))
  }

  lemma Extend(log: seq<Call>, e: Call)
    requires Lawful(log) && Permitted(Summarize(log), e)
    ensures Lawful(log + [e]) && Summarize(log + [e]) == Note(Summarize(log), e)
  {
    assert (log + [e])[..|log|] == log;
  }

  // ---- The invariant -------------------------------------------------------

  /** The goroutines that may act on the device; see `OneCommander`. */
  predicate Commands(pc: Pc) {
    HoldsAdmission(pc) || SawTransactionLive(pc)
  }

  lemma OneCommander(s: State, t: nat, u: nat)
    requires Gates(s) && t < |s.threads| && u < |s.threads| && t != u
    requires Commands(s.threads[t])
    ensures !Commands(s.threads[u])
  {
    Instance(s, t);
    Instance(s, u);
  }

  /** The backend call a goroutine is waiting for. */
  function Awaits(pc: Pc): Option<Call> {
    match pc
    case Beginning(BeginRecovering) => Some(ReopenStarted)
    case Executing(Exchanging, x, call) => Some(ExchangeStarted(x, call))
    case Closer(BackendClosing, a, _) => Some(CloseStarted(a))
    case _ => None
  }

  /** Has seen the session open since it took admission in `Begin`. */
  predicate SawSessionOpen(pc: Pc) {
    pc.Beginning? && pc.begin != BeginQueued && pc.begin != BeginAdmitted && pc.begin != BeginRejected
  }

  predicate NotYetExchanged(pc: Pc) {
    pc.Executing? && (pc.execute == ExecuteQueued || pc.execute == ExecuteAdmitted || pc.execute == ExecuteLive ||
                      pc.execute == ExecuteHealthy || pc.execute == ExecuteOpen)
  }

  /** The commanding goroutine's view of the device agrees with the log;
      `failed` is the failure flag of its transaction, if it has one. */
  ghost predicate CommandLedger(poisoned: bool, failed: bool, m: Summary, pc: Pc) {
    && Awaits(pc) == m.open
    && (SawSessionOpen(pc) ==> m.closes == 0)
    && (pc.Beginning? ==>
          && (pc.begin == BeginRecovered ==> poisoned && !m.quarantined)
          && (pc.begin == BeginValidated ==> !poisoned)
          && (pc.begin == BeginRecovering ==> poisoned)
          && (pc.begin != BeginRecovered ==> poisoned == m.quarantined))
    && (pc.Closer? ==> poisoned == m.quarantined)
    && (pc.Executing? ==>
          && m.closes == 0
          && (pc.execute == ExecuteHealthy || pc.execute == ExecuteOpen || pc.execute == Exchanging ==> !failed)
          && (pc.execute == ExchangeFailed ==> m.quarantined && !failed)
          && (pc.execute == ExecutePoisoned ==> poisoned && m.quarantined)
          && (pc.execute != ExchangeFailed ==> poisoned == m.quarantined)
          && (pc.execute != ExchangeFailed && pc.execute != ExecutePoisoned ==>
                && (poisoned ==> failed)
                && (pc.transaction in m.failed ==> failed)))
  }

  /** The failure flag of the transaction goroutine `t` works for. */
  function FailureSeen(s: State, pc: Pc): bool {
    (pc.Executing? || pc.Closing?) && pc.transaction < |s.transactions| && s.transactions[pc.transaction].failed
  }

  ghost predicate NobodyCommands(s: State) {
    forall t: nat | t < |s.threads| :: !Commands(s.threads[t])
  }

  ghost predicate ThreadLedger(s: State, m: Summary, t: nat)
    requires t < |s.threads|
  {
    var pc := s.threads[t];
    && (Commands(pc) ==> CommandLedger(s.poisoned, FailureSeen(s, pc), m, pc))
    && (pc.Executing? ==>
          && pc.call < |s.calls| && s.calls[pc.call] == t
          && (NotYetExchanged(pc) ==> pc.call !in m.started))
  }

  /** A transaction shows every failure of its exchanges, except while the
      goroutine that made the exchange is publishing it. */
  ghost predicate TransactionLedger(s: State, m: Summary, x: nat)
    requires x < |s.transactions|
  {
    var tx := s.transactions[x];
    && (!tx.released ==> m.closes == 0)
    && (!tx.failed && (x in m.failed || (s.poisoned && !tx.released)) ==>
          && tx.execution.Some? && tx.execution.value < |s.threads|
          && var pc := s.threads[tx.execution.value];
             pc.Executing? && pc.transaction == x && (pc.execute == ExchangeFailed || pc.execute == ExecutePoisoned))
  }

  ghost predicate Ledger(s: State) {
    var m := Summarize(s.log);
    && Lawful(s.log)
    && (m.closes > 0 ==> s.closed)
    && (NobodyCommands(s) ==> m.open == None && s.poisoned == m.quarantined)
    && (forall t: nat | t < |s.threads| :: ThreadLedger(s, m, t))
    && (forall x: nat | x < |s.transactions| :: TransactionLedger(s, m, x))
    && (forall x | x in m.failed :: x < |s.transactions|)
    && (forall n | n in m.started :: n < |s.calls|)
  }

  /** With admission free, nobody commands the device. */
  lemma FreeMeansNobody(s: State)
    requires Gates(s) && s.admission == None
    ensures NobodyCommands(s)
  {
    forall u: nat | u < |s.threads| ensures !Commands(s.threads[u]) {
      Instance(s, u);
    }
  }

  /** Nor while a goroutine still has to look whether its live transaction is
      closed. */
  lemma EntryMeansNobody(s: State, t: nat)
    requires Gates(s) && t < |s.threads| && s.threads[t].Executing? && s.threads[t].execute == ExecuteAdmitted
    requires s.threads[t].transaction < |s.transactions| && !s.transactions[s.threads[t].transaction].closed
    ensures NobodyCommands(s)
  {
    Instance(s, t);
    forall u: nat | u < |s.threads| ensures !Commands(s.threads[u]) {
      Instance(s, u);
    }
  }

  /** A step of goroutine `t` keeps what the ledger says of every other one:
      only a commanding goroutine changes what a commanding goroutine relies
      on, and there is one at most. */
  lemma OthersLedger(s: State, s': State, m: Summary, m': Summary, t: nat)
    requires Gates(s) && t < |s.threads| && |s.threads| <= |s'.threads|
    requires forall u: nat | u < |s.threads| :: ThreadLedger(s, m, u)
    requires forall u: nat | u < |s.threads| && u != t :: s'.threads[u] == s.threads[u]
    requires s.calls <= s'.calls && |s.transactions| <= |s'.transactions|
    requires forall n | n in m'.started - m.started :: n < |s.calls| && s.calls[n] == t
    requires !Commands(s.threads[t]) ==>
               && m' == m && s'.poisoned == s.poisoned
               && (forall x: nat | x < |s.transactions| :: s'.transactions[x].failed == s.transactions[x].failed)
    ensures forall u: nat | u < |s.threads| && u != t :: ThreadLedger(s', m', u)
  {
    forall u: nat | u < |s.threads| && u != t ensures ThreadLedger(s', m', u) {
      assert ThreadLedger(s, m, u);
      Instance(s, u);
      if Commands(s.threads[t]) {
        OneCommander(s, t, u);
      }
    }
  }

  /** If nobody commands after the step, nobody but `t` did before. */
  lemma NobodyBefore(s: State, s': State, t: nat)
    requires t < |s.threads| <= |s'.threads|
    requires forall u: nat | u < |s.threads| && u != t :: s'.threads[u] == s.threads[u]
    requires NobodyCommands(s')
    ensures !Commands(s'.threads[t])
    ensures !Commands(s.threads[t]) ==> NobodyCommands(s)
  {
    forall u: nat | u < |s.threads| && u != t ensures !Commands(s.threads[u]) {
      assert !Commands(s'.threads[u]);
    }
  }

  function Noted(m: Summary, event: Option<Call>): Summary {
    if event.None? then m else Note(m, event.value)
  }

  /** `t` may take this step as far as the log and its own view go. */
  ghost predicate Justified(s: State, t: nat, e: Effect, failed': bool, calls': seq<nat>)
    requires t < |s.threads|
  {
    var pc, m := s.threads[t], Summarize(s.log);
    var m' := Noted(m, e.event);
    && (e.event.Some? ==> Commands(pc) && Permitted(m, e.event.value))
    && (e.poisoned != s.poisoned ==> Commands(pc))
    && (m'.closes > m.closes ==> s.closed && HoldsAdmission(pc))
    && (forall n | n in m'.started - m.started :: n < |s.calls| && s.calls[n] == t)
    && (Commands(e.pc) ==> CommandLedger(e.poisoned, failed', m', e.pc))
    && (Commands(pc) && !Commands(e.pc) ==> m'.open == None && e.poisoned == m'.quarantined)
    && (e.pc.Executing? ==>
          && e.pc.call < |calls'| && calls'[e.pc.call] == t
          && (NotYetExchanged(e.pc) ==> e.pc.call !in m'.started))
  }

  /** Transactions a step does not touch keep their part of the ledger. */
  lemma UntouchedLedger(s: State, s': State, m: Summary, m': Summary, t: nat, y: nat)
    requires Gates(s) && t < |s.threads| && y < |s.transactions| && y < |s'.transactions|
    requires TransactionLedger(s, m, y) && s'.transactions[y] == s.transactions[y]
    requires |s.threads| <= |s'.threads| && forall u: nat | u < |s.threads| && u != t :: s'.threads[u] == s.threads[u]
    requires s.threads[t].Executing? ==> s.threads[t].transaction != y
    requires s'.poisoned && !s.poisoned ==> Commands(s.threads[t])
    requires m'.closes > m.closes ==> HoldsAdmission(s.threads[t])
    requires y in m'.failed ==> y in m.failed
    requires m'.closes >= m.closes
    ensures TransactionLedger(s', m', y)
  {
    Instance(s, t);
    assert TransactionGates(s, y);
  }

  /** `s'` is `s` after goroutine `t` took a step with effect `e` that touches
      at most transaction `x`. */
  ghost predicate Moved(s: State, s': State, t: nat, e: Effect, x: nat)
    requires t < |s.threads|
  {
    && s'.threads == s.threads[t := e.pc] && s'.poisoned == e.poisoned && s'.calls == s.calls
    && s'.closed == s.closed && s'.log == (if e.event.None? then s.log else s.log + [e.event.value])
    && |s'.transactions| == |s.transactions|
    && (forall y: nat | y < |s.transactions| && y != x :: s'.transactions[y] == s.transactions[y])
    && (s.threads[t].Executing? ==> s.threads[t].transaction == x)
    && (x < |s.transactions| && !Commands(s.threads[t]) ==> s'.transactions[x].failed == s.transactions[x].failed)
  }

  /** A justified step keeps what the ledger says of every transaction but the
      one it touches. */
  lemma UntouchedTransactions(s: State, s': State, t: nat, e: Effect, x: nat)
    requires Gates(s) && Ledger(s) && t < |s.threads| && Moved(s, s', t, e, x)
    requires Justified(s, t, e, FailureSeen(s', e.pc), s.calls)
    requires Noted(Summarize(s.log), e.event).failed <= Summarize(s.log).failed + {x}
    ensures forall y: nat | y < |s.transactions| && y != x ::
              TransactionLedger(s', Noted(Summarize(s.log), e.event), y)
  {
    var m := Summarize(s.log);
    forall y: nat | y < |s.transactions| && y != x ensures TransactionLedger(s', Noted(m, e.event), y) {
      assert TransactionLedger(s, m, y);
      UntouchedLedger(s, s', m, Noted(m, e.event), t, y);
    }
  }

  lemma LogMove(s: State, s': State, t: nat, e: Effect, x: nat)
    requires t < |s.threads| && Lawful(s.log) && Moved(s, s', t, e, x)
    requires Justified(s, t, e, FailureSeen(s', e.pc), s.calls)
    ensures Lawful(s'.log) && Summarize(s'.log) == Noted(Summarize(s.log), e.event)
  {
    if e.event.Some? {
      Extend(s.log, e.event.value);
    }
  }

  /** A justified step that keeps the ledger of the transaction it touches
      extends the log lawfully and keeps the whole ledger. */
  lemma LedgerMove(s: State, s': State, t: nat, e: Effect, x: nat)
    requires Gates(s) && Ledger(s) && t < |s.threads| && Moved(s, s', t, e, x)
    requires Justified(s, t, e, FailureSeen(s', e.pc), s.calls)
    requires x < |s.transactions| ==> TransactionLedger(s', Noted(Summarize(s.log), e.event), x)
    requires var failed, failed' := Summarize(s.log).failed, Noted(Summarize(s.log), e.event).failed;
             failed' == failed || (x < |s.transactions| && failed' == failed + {x})
    ensures Ledger(s')
  {
    var m := Summarize(s.log);
    LogMove(s, s', t, e, x);
    OthersLedger(s, s', m, Noted(m, e.event), t);
    UntouchedTransactions(s, s', t, e, x);
    MoverLedger(s, s', t, e, x);
    DeviceLedger(s, s', t, e, x);
  }

  /** What a justified step owes for the goroutine that took it, and for the
      device. */
  lemma MoverLedger(s: State, s': State, t: nat, e: Effect, x: nat)
    requires Gates(s) && Ledger(s) && t < |s.threads| && Moved(s, s', t, e, x)
    requires Justified(s, t, e, FailureSeen(s', e.pc), s.calls)
    ensures
      var m := Noted(Summarize(s.log), e.event);
      && ThreadLedger(s', m, t) && (m.closes > 0 ==> s'.closed)
      && (forall n | n in m.started :: n < |s'.calls|)
  {
  }

  lemma DeviceLedger(s: State, s': State, t: nat, e: Effect, x: nat)
    requires Ledger(s) && t < |s.threads| && Moved(s, s', t, e, x)
    requires Justified(s, t, e, FailureSeen(s', e.pc), s.calls)
    ensures
      var m := Noted(Summarize(s.log), e.event);
      NobodyCommands(s') ==> m.open == None && s'.poisoned == m.quarantined
  {
    if NobodyCommands(s') {
      NobodyBefore(s, s', t);
    }
  }

  /** What the ledger says of goroutine `t` alone: of its own point, and of the
      device when nobody commands it. */
  ghost predicate Local(s: State, t: nat)
    requires t < |s.threads|
  {
    var pc, m := s.threads[t], Summarize(s.log);
    && ThreadGates(s, t)
    && ThreadLedger(s, m, t)
    && (m.closes > 0 ==> s.closed)
    && (NobodyCommands(s) ==> m.open == None && s.poisoned == m.quarantined)
    && (pc.Executing? || pc.Closing? ==>
          && pc.transaction < |s.transactions|
          && TransactionGates(s, pc.transaction)
          && TransactionLedger(s, m, pc.transaction))
    && (s.admission == None ==> NobodyCommands(s))
    && (pc.Executing? && pc.execute == ExecuteAdmitted && !s.transactions[pc.transaction].closed ==> NobodyCommands(s))
  }

  lemma Localize(s: State, t: nat)
    requires Gates(s) && Ledger(s) && t < |s.threads|
    ensures Local(s, t)
  {
    var pc, m := s.threads[t], Summarize(s.log);
    Instance(s, t);
    assert ThreadLedger(s, m, t);
    if pc.Executing? || pc.Closing? {
      assert TransactionLedger(s, m, pc.transaction);
    }
    if s.admission == None {
      FreeMeansNobody(s);
    }
    if pc.Executing? && pc.execute == ExecuteAdmitted && !s.transactions[pc.transaction].closed {
      EntryMeansNobody(s, t);
    }
  }

  lemma ExecuteMoves(s: State, t: nat, c: Choice)
    requires t < |s.threads| && s.threads[t].Executing? && s.threads[t].transaction < |s.transactions|
    ensures var pc, s' := s.threads[t], Step(s, t, c);
            var x := pc.transaction;
            var e := ExecuteEffect(s, t, pc.execute, x, pc.call, c);
            && Moved(s, s', t, e, x)
            && s'.transactions[x] == ExecuteTransaction(s.transactions[x], t, pc.execute, c)
            && FailureSeen(s', e.pc) == (e.pc.Executing? && (s.transactions[x].failed || pc.execute == ExecutePoisoned))
  {
  }

  lemma ExecuteJustified(s: State, t: nat, c: Choice, x: nat, failed': bool)
    requires t < |s.threads| && x < |s.transactions| && Local(s, t)
    requires s.threads[t].Executing? && s.threads[t].transaction == x
    ensures var e := ExecuteEffect(s, t, s.threads[t].execute, x, s.threads[t].call, c);
            failed' == (e.pc.Executing? && (s.transactions[x].failed || s.threads[t].execute == ExecutePoisoned)) ==>
              Justified(s, t, e, failed', s.calls)
  {
    var stage := s.threads[t].execute;
    if stage.ExecuteQueued? || stage.ExecuteAdmitted? || stage.ExecuteLive? || stage.ExecuteHealthy? {
      ExecuteChecksJustified(s, t, c, x, failed');
    } else {
      ExecuteExchangesJustified(s, t, c, x, failed');
    }
  }

  lemma ExecuteChecksJustified(s: State, t: nat, c: Choice, x: nat, failed': bool)
    requires t < |s.threads| && x < |s.transactions| && Local(s, t)
    requires s.threads[t].Executing? && s.threads[t].transaction == x
    requires var stage := s.threads[t].execute;
             stage.ExecuteQueued? || stage.ExecuteAdmitted? || stage.ExecuteLive? || stage.ExecuteHealthy?
    ensures var e := ExecuteEffect(s, t, s.threads[t].execute, x, s.threads[t].call, c);
            failed' == (e.pc.Executing? && s.transactions[x].failed) ==> Justified(s, t, e, failed', s.calls)
  {
  }

  lemma ExecuteExchangesJustified(s: State, t: nat, c: Choice, x: nat, failed': bool)
    requires t < |s.threads| && x < |s.transactions| && Local(s, t)
    requires s.threads[t].Executing? && s.threads[t].transaction == x
    requires var stage := s.threads[t].execute;
             !stage.ExecuteQueued? && !stage.ExecuteAdmitted? && !stage.ExecuteLive? && !stage.ExecuteHealthy?
    ensures var e := ExecuteEffect(s, t, s.threads[t].execute, x, s.threads[t].call, c);
            failed' == (e.pc.Executing? && (s.transactions[x].failed || s.threads[t].execute == ExecutePoisoned)) ==>
              Justified(s, t, e, failed', s.calls)
  {
    var stage := s.threads[t].execute;
    if stage.ExecuteOpen? || stage.Exchanging? {
      ExchangeJustified(s, t, c, x, failed');
    }
  }

  lemma ExchangeJustified(s: State, t: nat, c: Choice, x: nat, failed': bool)
    requires t < |s.threads| && x < |s.transactions| && Local(s, t)
    requires s.threads[t].Executing? && s.threads[t].transaction == x
    requires s.threads[t].execute.ExecuteOpen? || s.threads[t].execute.Exchanging?
    ensures var e := ExecuteEffect(s, t, s.threads[t].execute, x, s.threads[t].call, c);
            failed' == (e.pc.Executing? && s.transactions[x].failed) ==> Justified(s, t, e, failed', s.calls)
  {
  }

  lemma ExecuteTouches(s: State, s': State, t: nat, c: Choice, x: nat, e: Effect)
    requires t < |s.threads| && x < |s.transactions| && Local(s, t)
    requires s.threads[t].Executing? && s.threads[t].transaction == x
    requires e == ExecuteEffect(s, t, s.threads[t].execute, x, s.threads[t].call, c)
    requires Moved(s, s', t, e, x)
    requires s'.transactions[x] == ExecuteTransaction(s.transactions[x], t, s.threads[t].execute, c)
    ensures TransactionLedger(s', Noted(Summarize(s.log), e.event), x)
  {
    var stage := s.threads[t].execute;
    if stage.ExecuteQueued? || stage.ExecuteAdmitted? || stage.ExecuteLive? || stage.ExecuteHealthy? {
      ExecuteChecksTouch(s, s', t, c, x, e);
    } else {
      ExecuteExchangesTouch(s, s', t, c, x, e);
    }
  }

  lemma ExecuteChecksTouch(s: State, s': State, t: nat, c: Choice, x: nat, e: Effect)
    requires t < |s.threads| && x < |s.transactions| && Local(s, t)
    requires s.threads[t].Executing? && s.threads[t].transaction == x
    requires var stage := s.threads[t].execute;
             stage.ExecuteQueued? || stage.ExecuteAdmitted? || stage.ExecuteLive? || stage.ExecuteHealthy?
    requires e == ExecuteEffect(s, t, s.threads[t].execute, x, s.threads[t].call, c)
    requires s'.threads == s.threads[t := e.pc] && s'.poisoned == e.poisoned && x < |s'.transactions|
    requires s'.transactions[x] == ExecuteTransaction(s.transactions[x], t, s.threads[t].execute, c)
    ensures TransactionLedger(s', Noted(Summarize(s.log), e.event), x)
  {
  }

  lemma ExecuteExchangesTouch(s: State, s': State, t: nat, c: Choice, x: nat, e: Effect)
    requires t < |s.threads| && x < |s.transactions| && Local(s, t)
    requires s.threads[t].Executing? && s.threads[t].transaction == x
    requires var stage := s.threads[t].execute;
             !stage.ExecuteQueued? && !stage.ExecuteAdmitted? && !stage.ExecuteLive? && !stage.ExecuteHealthy?
    requires e == ExecuteEffect(s, t, s.threads[t].execute, x, s.threads[t].call, c)
    requires s'.threads == s.threads[t := e.pc] && s'.poisoned == e.poisoned && x < |s'.transactions|
    requires s'.transactions[x] == ExecuteTransaction(s.transactions[x], t, s.threads[t].execute, c)
    ensures TransactionLedger(s', Noted(Summarize(s.log), e.event), x)
  {
  }

  lemma LedgerExecuteMove(s: State, s': State, t: nat, c: Choice, x: nat, e: Effect)
    requires Gates(s) && Ledger(s) && t < |s.threads| && x < |s.transactions|
    requires s.threads[t].Executing? && s.threads[t].transaction == x
    requires e == ExecuteEffect(s, t, s.threads[t].execute, x, s.threads[t].call, c)
    requires Moved(s, s', t, e, x)
    requires s'.transactions[x] == ExecuteTransaction(s.transactions[x], t, s.threads[t].execute, c)
    requires FailureSeen(s', e.pc) ==
             (e.pc.Executing? && (s.transactions[x].failed || s.threads[t].execute == ExecutePoisoned))
    ensures Ledger(s')
  {
    Localize(s, t);
    ExecuteJustified(s, t, c, x, FailureSeen(s', e.pc));
    ExecuteTouches(s, s', t, c, x, e);
    LedgerMove(s, s', t, e, x);
  }

  lemma LedgerExecute(s: State, t: nat, c: Choice)
    requires Gates(s) && Ledger(s) && t < |s.threads| && s.threads[t].Executing?
    ensures Ledger(Step(s, t, c))
  {
    var pc := s.threads[t];
    Instance(s, t);
    ExecuteMoves(s, t, c);
    LedgerExecuteMove(s, Step(s, t, c), t, c, pc.transaction,
                      ExecuteEffect(s, t, pc.execute, pc.transaction, pc.call, c));
  }

  lemma BeginJustified(s: State, t: nat, c: Choice)
    requires t < |s.threads| && Local(s, t)
    requires s.threads[t].Beginning? && s.threads[t].begin != BeginValidated
    ensures Justified(s, t, BeginEffect(s, t, s.threads[t].begin, c), false, s.calls)
  {
  }

  lemma LedgerBegin(s: State, t: nat, c: Choice)
    requires Gates(s) && Ledger(s) && t < |s.threads| && s.threads[t].Beginning? && s.threads[t].begin != BeginValidated
    ensures Ledger(Step(s, t, c))
  {
    Localize(s, t);
    BeginJustified(s, t, c);
    LedgerMove(s, Step(s, t, c), t, BeginEffect(s, t, s.threads[t].begin, c), |s.transactions|);
  }

  lemma CloseMoves(s: State, t: nat, c: Choice)
    requires t < |s.threads| && s.threads[t].Closing? && s.threads[t].transaction < |s.transactions|
    ensures var pc, s' := s.threads[t], Step(s, t, c);
            var x := pc.transaction;
            && Moved(s, s', t, CloseEffect(s, t, pc.close, x), x)
            && s'.transactions[x] == CloseTransaction(s.transactions[x], t, pc.close)
  {
  }

  lemma CloseJustified(s: State, t: nat, x: nat, failed': bool)
    requires t < |s.threads| && x < |s.transactions| && Local(s, t)
    requires s.threads[t].Closing? && s.threads[t].transaction == x
    ensures Justified(s, t, CloseEffect(s, t, s.threads[t].close, x), failed', s.calls)
  {
  }

  lemma CloseTouches(s: State, s': State, t: nat, x: nat, e: Effect)
    requires t < |s.threads| && x < |s.transactions| && Local(s, t)
    requires s.threads[t].Closing? && s.threads[t].transaction == x
    requires e == CloseEffect(s, t, s.threads[t].close, x)
    requires s'.threads == s.threads[t := e.pc] && s'.poisoned == e.poisoned && x < |s'.transactions|
    requires s'.transactions[x] == CloseTransaction(s.transactions[x], t, s.threads[t].close)
    ensures e.event == None && TransactionLedger(s', Summarize(s.log), x)
  {
  }

  lemma LedgerCloseMove(s: State, s': State, t: nat, x: nat, e: Effect)
    requires Gates(s) && Ledger(s) && t < |s.threads| && x < |s.transactions|
    requires s.threads[t].Closing? && s.threads[t].transaction == x
    requires e == CloseEffect(s, t, s.threads[t].close, x)
    requires Moved(s, s', t, e, x)
    requires s'.transactions[x] == CloseTransaction(s.transactions[x], t, s.threads[t].close)
    ensures Ledger(s')
  {
    Localize(s, t);
    CloseJustified(s, t, x, FailureSeen(s', e.pc));
    CloseTouches(s, s', t, x, e);
    LedgerMove(s, s', t, e, x);
  }

  lemma LedgerClose(s: State, t: nat, c: Choice)
    requires Gates(s) && Ledger(s) && t < |s.threads| && s.threads[t].Closing?
    ensures Ledger(Step(s, t, c))
  {
    var pc := s.threads[t];
    Instance(s, t);
    CloseMoves(s, t, c);
    LedgerCloseMove(s, Step(s, t, c), t, pc.transaction, CloseEffect(s, t, pc.close, pc.transaction));
  }

  /** A new transaction is admitted on a device known to be in order. */
  lemma LedgerBegun(s: State, t: nat, c: Choice)
    requires Gates(s) && Ledger(s) && t < |s.threads| && s.threads[t] == Beginning(BeginValidated)
    ensures Ledger(Step(s, t, c))
  {
    var m, s' := Summarize(s.log), Step(s, t, c);
    Localize(s, t);
    OthersLedger(s, s', m, m, t);
    forall y: nat | y < |s'.transactions| ensures TransactionLedger(s', m, y) {
      if y < |s.transactions| {
        assert TransactionLedger(s, m, y);
        UntouchedLedger(s, s', m, m, t, y);
      }
    }
  }

  /** A goroutine that does not command the device, before or after, and
      leaves transactions and log alone, keeps the ledger. */
  lemma LedgerQuiet(s: State, s': State, t: nat)
    requires Gates(s) && Ledger(s) && t < |s.threads| && Quiet(s, s', t)
    ensures Ledger(s')
  {
    var m := Summarize(s.log);
    OthersLedger(s, s', m, m, t);
    forall y: nat | y < |s'.transactions| ensures TransactionLedger(s', m, y) {
      assert TransactionLedger(s, m, y);
      UntouchedLedger(s, s', m, m, t, y);
    }
    if NobodyCommands(s') {
      NobodyBefore(s, s', t);
    }
  }

  lemma StartCloseMoves(s: State, s': State, t: nat, x: nat)
    requires Ledger(s) && Gates(s) && t < |s.threads| && s.threads[t] == Idle && x < |s.transactions|
    requires s' == StartStep(s, t, StartClose(x))
    ensures var e := Effect(s'.threads[t], s.admission, s.poisoned, None);
            && |s'.threads| == |s.threads| && Moved(s, s', t, e, x)
            && Justified(s, t, e, FailureSeen(s', e.pc), s.calls)
  {
    Localize(s, t);
  }

  lemma LedgerStartClose(s: State, s': State, t: nat, x: nat)
    requires Gates(s) && Ledger(s) && t < |s.threads| && s.threads[t] == Idle && x < |s.transactions|
    requires s' == StartStep(s, t, StartClose(x))
    ensures Ledger(s')
  {
    assert TransactionLedger(s, Summarize(s.log), x);
    assert TransactionGates(s, x);
    StartCloseMoves(s, s', t, x);
    LedgerMove(s, s', t, Effect(s'.threads[t], s.admission, s.poisoned, None), x);
  }

  lemma LedgerStart(s: State, t: nat, c: Choice)
    requires Gates(s) && Ledger(s) && t < |s.threads| && s.threads[t] == Idle
    ensures Ledger(Step(s, t, c))
  {
    if c.StartClose? && c.target < |s.transactions| {
      LedgerStartClose(s, Step(s, t, c), t, c.target);
    } else {
      StartIsQuiet(s, t, c, Step(s, t, c));
      LedgerQuiet(s, Step(s, t, c), t);
    }
  }

  lemma StartIsQuiet(s: State, t: nat, c: Choice, s': State)
    requires Ledger(s) && t < |s.threads| && s.threads[t] == Idle && s' == StartStep(s, t, c)
    requires !(c.StartClose? && c.target < |s.transactions|)
    ensures Quiet(s, s', t)
  {
  }

  /** `CloseContext` callers never touch the device themselves. */
  lemma LedgerShutdown(s: State, t: nat, c: Choice)
    requires Gates(s) && Ledger(s) && t < |s.threads| && (s.threads[t].ShutdownMarked? || s.threads[t].ShutdownWaiting?)
    ensures Ledger(Step(s, t, c))
  {
    if s.threads[t].ShutdownMarked? {
      ShutdownIsQuiet(s, t, Step(s, t, c));
    } else {
      ShutdownWaitIsQuiet(s, t, c, s.threads[t].attempt, Step(s, t, c));
    }
    LedgerQuiet(s, Step(s, t, c), t);
  }

  /** What `LedgerQuiet` asks of a step. */
  ghost predicate Quiet(s: State, s': State, t: nat)
    requires t < |s.threads|
  {
    && |s.threads| <= |s'.threads| && (forall u: nat | u < |s.threads| && u != t :: s'.threads[u] == s.threads[u])
    && (forall u: nat | |s.threads| <= u < |s'.threads| :: !s'.threads[u].Executing? && !Commands(s'.threads[u]))
    && s'.log == s.log && s'.poisoned == s.poisoned && s'.transactions == s.transactions
    && s.calls <= s'.calls && (s.closed ==> s'.closed)
    && !Commands(s.threads[t]) && !Commands(s'.threads[t]) && !s.threads[t].Executing?
    && ThreadLedger(s', Summarize(s.log), t)
  }

  lemma ShutdownIsQuiet(s: State, t: nat, s': State)
    requires t < |s.threads| && s.threads[t].ShutdownMarked? && s' == ShutdownStep(s, t)
    ensures Quiet(s, s', t)
  {
  }

  lemma ShutdownWaitIsQuiet(s: State, t: nat, c: Choice, a: nat, s': State)
    requires t < |s.threads| && s.threads[t].ShutdownWaiting? && s' == ShutdownWaitStep(s, t, a, c)
    ensures Quiet(s, s', t)
  {
  }

  // ---- Close generations -----------------------------------------------------

  /** What a closer goroutine or a `CloseContext` caller may count on. */
  ghost predicate ThreadGenerations(s: State, m: Summary, t: nat)
    requires t < |s.threads|
  {
    var pc := s.threads[t];
    && (pc.ShutdownMarked? || pc.ShutdownWaiting? || pc.Closer? ==> s.closed)
    && (pc.ShutdownWaiting? ==> pc.attempt < |s.attempts|)
    && (pc.Closer? ==>
          && s.closeAttempt == Some(pc.attempt) && pc.attempt < |s.attempts|
          && !s.attempts[pc.attempt].done && s.attempts[pc.attempt].runner == t
          && m.closes == pc.attempt + (if pc.closer == CloserQueued || pc.closer == CloserAdmitted then 0 else 1)
          && (pc.closer == CloserQueued || pc.closer == CloserAdmitted || pc.closer == BackendClosing ==>
                pc.attempt !in m.outcomes)
          && (pc.closer == CloserReturned || pc.closer == CloserPublishing ==>
                pc.attempt in m.outcomes && m.outcomes[pc.attempt] == !pc.failure))
  }

  /** A finished generation tells its own result; only the current generation
      can be unfinished, and only it can have succeeded. */
  ghost predicate AttemptGenerations(s: State, m: Summary, a: nat)
    requires a < |s.attempts|
  {
    var attempt := s.attempts[a];
    && (attempt.done ==> a in m.outcomes && m.outcomes[a] == !attempt.failed && a < m.closes)
    && (!attempt.done ==>
          && s.closeAttempt == Some(a) && attempt.runner < |s.threads|
          && s.threads[attempt.runner].Closer? && s.threads[attempt.runner].attempt == a)
    && (s.closeAttempt != Some(a) ==> attempt.failed)
    && (s.closeAttempt == Some(a) ==> !attempt.failed)
  }

  ghost predicate Generations(s: State) {
    var m := Summarize(s.log);
    && (|s.attempts| > 0 ==> s.closed)
    && (s.closeAttempt.Some? ==> s.closeAttempt.value + 1 == |s.attempts|)
    && (s.closeAttempt == None ==> m.closes == |s.attempts|)
    && (m.succeeded ==> s.closeAttempt.Some? && s.closeAttempt.value in m.outcomes && m.outcomes[s.closeAttempt.value])
    && (forall a | a in m.outcomes :: a < m.closes)
    && m.closes <= |s.attempts|
    && (forall t: nat | t < |s.threads| :: ThreadGenerations(s, m, t))
    && (forall a: nat | a < |s.attempts| :: AttemptGenerations(s, m, a))
    && (forall i | 0 <= i < |s.reports| ::
          var r := s.reports[i];
          r.attempt < |s.attempts| && s.attempts[r.attempt].done && s.attempts[r.attempt].failed == r.failure)
  }

  lemma CloserMoves(s: State, t: nat, c: Choice, stage: CloserStage, a: nat, failure: bool)
    requires t < |s.threads| && s.threads[t] == Closer(stage, a, failure) && a < |s.attempts|
    ensures var s' := Step(s, t, c);
            var e := CloserEffect(s, t, stage, a, failure, c);
            && Moved(s, s', t, e, |s.transactions|) && s'.transactions == s.transactions
            && (e.event.Some? ==> !e.event.value.ExchangeEnded?)
  {
  }

  lemma CloserJustified(s: State, t: nat, c: Choice, stage: CloserStage, a: nat, failure: bool)
    requires t < |s.threads| && s.threads[t] == Closer(stage, a, failure) && a < |s.attempts|
    requires Local(s, t) && ThreadGenerations(s, Summarize(s.log), t)
    requires var m := Summarize(s.log);
             m.succeeded ==> s.closeAttempt.Some? && s.closeAttempt.value in m.outcomes
    ensures Justified(s, t, CloserEffect(s, t, stage, a, failure, c), false, s.calls)
  {
  }

  lemma LedgerCloserMove(s: State, s': State, t: nat, c: Choice, stage: CloserStage, a: nat, failure: bool, e: Effect)
    requires Gates(s) && Ledger(s) && t < |s.threads| && s.threads[t] == Closer(stage, a, failure) && a < |s.attempts|
    requires ThreadGenerations(s, Summarize(s.log), t) && s'.transactions == s.transactions
    requires var m := Summarize(s.log);
             m.succeeded ==> s.closeAttempt.Some? && s.closeAttempt.value in m.outcomes
    requires e == CloserEffect(s, t, stage, a, failure, c) && Moved(s, s', t, e, |s.transactions|)
    requires e.event.Some? ==> !e.event.value.ExchangeEnded?
    ensures Ledger(s')
  {
    Localize(s, t);
    CloserJustified(s, t, c, stage, a, failure);
    LedgerMove(s, s', t, e, |s.transactions|);
  }

  lemma LedgerCloser(s: State, t: nat, c: Choice)
    requires Gates(s) && Ledger(s) && Generations(s) && t < |s.threads| && s.threads[t].Closer?
    ensures Ledger(Step(s, t, c))
  {
    var pc := s.threads[t];
    assert ThreadGenerations(s, Summarize(s.log), t);
    CloserMoves(s, t, c, pc.closer, pc.attempt, pc.failure);
    LedgerCloserMove(s, Step(s, t, c), t, c, pc.closer, pc.attempt, pc.failure,
                     CloserEffect(s, t, pc.closer, pc.attempt, pc.failure, c));
  }

  /** Steps that are no part of closing keep the generations. */
  lemma GenerationsMove(s: State, s': State, t: nat)
    requires Generations(s) && t < |s.threads| <= |s'.threads|
    requires forall u: nat | u < |s.threads| && u != t :: s'.threads[u] == s.threads[u]
    requires forall u: nat | |s.threads| <= u < |s'.threads| :: s'.threads[u] == Idle
    requires !s.threads[t].Closer? && !s'.threads[t].Closer?
    requires s'.threads[t].ShutdownMarked? || s'.threads[t].ShutdownWaiting? ==> s'.closed
    requires s'.threads[t].ShutdownWaiting? ==> s'.threads[t].attempt < |s.attempts|
    requires s'.attempts == s.attempts && s'.closeAttempt == s.closeAttempt && (s.closed ==> s'.closed)
    requires forall i | 0 <= i < |s'.reports| ::
               var r := s'.reports[i];
               r.attempt < |s.attempts| && s.attempts[r.attempt].done && s.attempts[r.attempt].failed == r.failure
    requires
      || s'.log == s.log
      || (|s'.log| == |s.log| + 1 && s'.log[..|s.log|] == s.log &&
          !s'.log[|s.log|].CloseStarted? && !s'.log[|s.log|].CloseEnded?)
    ensures Generations(s')
  {
    var m, m' := Summarize(s.log), Summarize(s'.log);
    forall u: nat | u < |s'.threads| ensures ThreadGenerations(s', m', u) {
      assert u < |s.threads| ==> ThreadGenerations(s, m, u);
    }
    forall a: nat | a < |s'.attempts| ensures AttemptGenerations(s', m', a) {
      assert AttemptGenerations(s, m, a);
    }
  }

  /** Outside closing, a step adds no close event and leaves the generations. */
  ghost predicate NotClosing(s: State, s': State, t: nat)
    requires t < |s.threads|
  {
    && |s'.threads| == |s.threads| && s'.threads == s.threads[t := s'.threads[t]]
    && !s'.threads[t].Closer? && !s'.threads[t].ShutdownWaiting?
    && (s'.threads[t].ShutdownMarked? ==> s'.closed) && (s.closed ==> s'.closed)
    && s'.attempts == s.attempts && s'.closeAttempt == s.closeAttempt && s'.reports == s.reports
    && (s'.log == s.log ||
        (|s'.log| == |s.log| + 1 && s'.log[..|s.log|] == s.log &&
         !s'.log[|s.log|].CloseStarted? && !s'.log[|s.log|].CloseEnded?))
  }

  predicate NotOfClosing(e: Effect) {
    && !e.pc.Closer? && !e.pc.ShutdownWaiting? && !e.pc.ShutdownMarked?
    && (e.event.Some? ==> !e.event.value.CloseStarted? && !e.event.value.CloseEnded?)
  }

  lemma ApplyIsOther(s: State, t: nat, e: Effect, transactions: seq<Transaction>)
    requires t < |s.threads| && NotOfClosing(e)
    ensures NotClosing(s, Apply(s, t, e).(transactions := transactions), t)
  {
  }

  lemma StartIsOther(s: State, t: nat, c: Choice, s': State)
    requires t < |s.threads| && s.threads[t] == Idle && s' == StartStep(s, t, c)
    ensures NotClosing(s, s', t)
  {
  }

  lemma BeginIsOther(s: State, t: nat, stage: BeginStage, c: Choice)
    requires t < |s.threads| && s.threads[t] == Beginning(stage)
    ensures NotOfClosing(BeginEffect(s, t, stage, c))
  {
  }

  lemma ExecuteIsOther(s: State, t: nat, stage: ExecuteStage, x: nat, call: nat, c: Choice)
    requires t < |s.threads| && x < |s.transactions| && s.threads[t] == Executing(stage, x, call)
    ensures NotOfClosing(ExecuteEffect(s, t, stage, x, call, c))
  {
  }

  lemma CloseIsOther(s: State, t: nat, stage: CloseStage, x: nat)
    requires t < |s.threads| && x < |s.transactions| && s.threads[t] == Closing(stage, x)
    ensures NotOfClosing(CloseEffect(s, t, stage, x))
  {
  }

  lemma OtherStep(s: State, t: nat, c: Choice)
    requires t < |s.threads|
    requires s.threads[t] == Idle || s.threads[t].Beginning? || s.threads[t].Executing? || s.threads[t].Closing?
    ensures NotClosing(s, Step(s, t, c), t)
  {
    var s' := Step(s, t, c);
    match s.threads[t] {
      case Idle =>
        StartIsOther(s, t, c, s');
      case Beginning(stage) =>
        BeginIsOther(s, t, stage, c);
        ApplyIsOther(s, t, BeginEffect(s, t, stage, c), s'.transactions);
      case Executing(stage, x, call) =>
        if x < |s.transactions| {
          ExecuteIsOther(s, t, stage, x, call, c);
          ApplyIsOther(s, t, ExecuteEffect(s, t, stage, x, call, c), s'.transactions);
        }
      case Closing(stage, x) =>
        if x < |s.transactions| {
          CloseIsOther(s, t, stage, x);
          ApplyIsOther(s, t, CloseEffect(s, t, stage, x), s'.transactions);
        }
      case _ =>
    }
  }

  lemma GenerationsOther(s: State, t: nat, c: Choice)
    requires Generations(s) && t < |s.threads|
    requires s.threads[t] == Idle || s.threads[t].Beginning? || s.threads[t].Executing? || s.threads[t].Closing?
    ensures Generations(Step(s, t, c))
  {
    OtherStep(s, t, c);
    GenerationsMove(s, Step(s, t, c), t);
  }

  /** A `CloseContext` caller joins the current generation, or starts the next
      one when the last has failed, and reports only a finished one. */
  lemma GenerationsShutdown(s: State, t: nat, c: Choice)
    requires Generations(s) && t < |s.threads| && (s.threads[t].ShutdownMarked? || s.threads[t].ShutdownWaiting?)
    ensures Generations(Step(s, t, c))
  {
    assert ThreadGenerations(s, Summarize(s.log), t);
    if s.threads[t].ShutdownWaiting? {
      GenerationsWait(s, t, c, s.threads[t].attempt, Step(s, t, c));
    } else if s.closeAttempt.Some? {
      GenerationsMove(s, Step(s, t, c), t);
    } else {
      GenerationsOpen(s, t, Step(s, t, c));
    }
  }

  lemma GenerationsWait(s: State, t: nat, c: Choice, a: nat, s': State)
    requires Generations(s) && t < |s.threads| && s.threads[t] == ShutdownWaiting(a)
    requires ThreadGenerations(s, Summarize(s.log), t) && s' == ShutdownWaitStep(s, t, a, c)
    ensures Generations(s')
  {
    GenerationsMove(s, s', t);
  }

  lemma GenerationsOpen(s: State, t: nat, s': State)
    requires Generations(s) && t < |s.threads| && s.threads[t].ShutdownMarked? && s.closeAttempt == None
    requires ThreadGenerations(s, Summarize(s.log), t) && s' == ShutdownStep(s, t)
    ensures Generations(s')
  {
    var m := Summarize(s.log);
    forall u: nat | u < |s'.threads| ensures ThreadGenerations(s', m, u) {
      if u < |s.threads| {
        assert ThreadGenerations(s, m, u);
      }
    }
    forall a: nat | a < |s'.attempts| ensures AttemptGenerations(s', m, a) {
      if a < |s.attempts| {
        assert AttemptGenerations(s, m, a);
      }
    }
  }

  /** A closer goroutine is the only one of its generation. */
  lemma OneCloser(s: State, m: Summary, t: nat, u: nat)
    requires t < |s.threads| && u < |s.threads| && s.threads[t].Closer? && s.threads[u].Closer?
    requires ThreadGenerations(s, m, t) && ThreadGenerations(s, m, u)
    ensures t == u
  {
  }

  /** What a closer's step before it publishes leaves alone, and what it adds to
      the log. */
  ghost predicate ClosingMoved(s: State, s': State, t: nat)
    requires t < |s.threads| && s.threads[t].Closer?
  {
    && |s'.threads| == |s.threads| && s'.threads == s.threads[t := s'.threads[t]]
    && s'.threads[t].Closer? && s'.threads[t].attempt == s.threads[t].attempt
    && s'.attempts == s.attempts && s'.closeAttempt == s.closeAttempt && s'.reports == s.reports
    && s'.closed == s.closed
    && (s'.log == s.log ||
        (|s'.log| == |s.log| + 1 && s'.log[..|s.log|] == s.log &&
         (s'.log[|s.log|] == CloseStarted(s.threads[t].attempt) ||
          (s'.log[|s.log|].CloseEnded? && s'.log[|s.log|].attempt == s.threads[t].attempt
           && s.threads[t].closer == BackendClosing))))
  }

  lemma ClosingMoves(s: State, t: nat, c: Choice, stage: CloserStage, a: nat, failure: bool)
    requires t < |s.threads| && s.threads[t] == Closer(stage, a, failure) && a < |s.attempts|
    requires stage != CloserPublishing
    ensures ClosingMoved(s, Step(s, t, c), t)
  {
  }

  /** The closer's own view after the step. */
  lemma ClosingMover(s: State, t: nat, c: Choice, stage: CloserStage, a: nat, failure: bool)
    requires t < |s.threads| && s.threads[t] == Closer(stage, a, failure) && a < |s.attempts|
    requires stage != CloserPublishing && ThreadGenerations(s, Summarize(s.log), t)
    ensures ThreadGenerations(Step(s, t, c), Summarize(Step(s, t, c).log), t)
  {
    var e := CloserEffect(s, t, stage, a, failure, c);
    ClosingLog(s, t, e);
    ClosingView(s, Apply(s, t, e), t, c, stage, a, failure, e);
  }

  lemma ClosingLog(s: State, t: nat, e: Effect)
    requires t < |s.threads|
    ensures Summarize(Apply(s, t, e).log) == Noted(Summarize(s.log), e.event)
  {
    if e.event.Some? {
      assert (s.log + [e.event.value])[..|s.log|] == s.log;
    }
  }

  lemma ClosingView(s: State, s': State, t: nat, c: Choice, stage: CloserStage, a: nat, failure: bool, e: Effect)
    requires t < |s.threads| && s.threads[t] == Closer(stage, a, failure) && a < |s.attempts|
    requires stage != CloserPublishing && ThreadGenerations(s, Summarize(s.log), t)
    requires e == CloserEffect(s, t, stage, a, failure, c)
    requires s'.threads == s.threads[t := e.pc] && s'.attempts == s.attempts && s'.closeAttempt == s.closeAttempt
    requires s'.closed == s.closed
    ensures ThreadGenerations(s', Noted(Summarize(s.log), e.event), t)
  {
  }

  lemma ClosingOthers(s: State, s': State, t: nat, m: Summary, m': Summary)
    requires Generations(s) && m == Summarize(s.log) && m' == Summarize(s'.log)
    requires t < |s.threads| && s.threads[t].Closer? && ClosingMoved(s, s', t) && ThreadGenerations(s, m, t)
    requires ThreadGenerations(s', m', t) && m'.closes <= |s.attempts|
    ensures Generations(s')
  {
    forall u: nat | u < |s'.threads| ensures ThreadGenerations(s', m', u) {
      assert ThreadGenerations(s, m, u);
      if u != t && s.threads[u].Closer? {
        OneCloser(s, m, t, u);
      }
    }
    forall a: nat | a < |s'.attempts| ensures AttemptGenerations(s', m', a) {
      assert AttemptGenerations(s, m, a);
    }
  }

  lemma GenerationsClosing(s: State, t: nat, c: Choice)
    requires Generations(s) && t < |s.threads|
    requires s.threads[t].Closer? && s.threads[t].closer != CloserPublishing
    ensures Generations(Step(s, t, c))
  {
    var m, s', pc := Summarize(s.log), Step(s, t, c), s.threads[t];
    assert ThreadGenerations(s, m, t);
    ClosingMoves(s, t, c, pc.closer, pc.attempt, pc.failure);
    ClosingMover(s, t, c, pc.closer, pc.attempt, pc.failure);
    ClosingOthers(s, s', t, m, Summarize(s'.log));
  }

  /** Publishing a failure opens the way for the next generation; publishing a
      success closes it for good. */
  lemma GenerationsPublish(s: State, t: nat, c: Choice)
    requires Generations(s) && t < |s.threads| && s.threads[t].Closer? && s.threads[t].closer == CloserPublishing
    ensures Generations(Step(s, t, c))
  {
    var m, s' := Summarize(s.log), Step(s, t, c);
    assert ThreadGenerations(s, m, t);
    forall u: nat | u < |s'.threads| ensures ThreadGenerations(s', m, u) {
      assert ThreadGenerations(s, m, u);
      if u != t && s.threads[u].Closer? {
        OneCloser(s, m, t, u);
      }
    }
    forall a: nat | a < |s'.attempts| ensures AttemptGenerations(s', m, a) {
      assert AttemptGenerations(s, m, a);
    }
  }
}
