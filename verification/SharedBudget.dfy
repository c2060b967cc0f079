/** The byte budget that all subscription queues of a server share, down to the
    single loads and compare-and-swaps of `reserve` and `release`, with any
    number of queues taking turns in any order. */
module SharedBudget {
  /** Where a queue is. A queue's mutex admits one operation at a time, so one
      reservation or release is under way per queue. `at` remembers how often the
      balance had changed when it was loaded. A `Closed` queue does nothing more:
      its `finished` guards let no operation reach the budget, which is proved
      of the queue's operations as `SubscriptionTheorems.ClosedReservesNothing`. */
  datatype Phase =
    | Idle
    | Reserving(size: nat)
    | ReserveLoaded(size: nat, loaded: int, at: nat)
    | Reserved(size: nat)
    | Releasing(size: nat)
    | ReleaseLoaded(size: nat, loaded: int, at: nat)
    | Closing
    | CloseLoaded(loaded: int, at: nat)
    | CloseReleased
    | Closed
    | Panicked

  /** A queue and the charges of the events it holds. */
  datatype Queue = Queue(phase: Phase, charges: seq<nat>)

  /** `changes` counts the successful swaps. */
  datatype Server = Server(limit: nat, used: int, changes: nat, queues: seq<Queue>)

  datatype Intent = Reserve(size: nat) | Remove(index: nat) | Close

  datatype Turn = Open | Go(queue: nat, intent: Intent)

  function Sum(charges: seq<nat>): nat {
    if charges == [] then 0 else Sum(charges[..|charges| - 1]) + charges[|charges| - 1]
  }

  // ---- The machine -------------------------------------------------------------------

  datatype Effect = Effect(queue: Queue, used: int)

  /** What an idle queue starts to do. The charge of a removed event is taken out
      of the queue before it is released; `release` has nothing to do for a zero
      charge. */
  function Begin(q: Queue, intent: Intent): Queue {
    match intent
    case Reserve(size) => q.(phase := Reserving(size))
    case Remove(index) =>
      if index >= |q.charges| then q
      else
        var rest := q.charges[..index] + q.charges[index + 1..];
        if q.charges[index] == 0 then q.(charges := rest) else Queue(Releasing(q.charges[index]), rest)
    case Close => q.(phase := if Sum(q.charges) == 0 then CloseReleased else Closing)
  }

  /** One atomic access, or one step under the queue's mutex. */
  function Act(limit: nat, used: int, changes: nat, q: Queue, intent: Intent): Effect {
    match q.phase
    case Idle => Effect(Begin(q, intent), used)
    case Reserving(size) =>
      if size > limit - used then Effect(q.(phase := Idle), used)
      else Effect(q.(phase := ReserveLoaded(size, used, changes)), used)
    case ReserveLoaded(size, loaded, at) =>
      if used == loaded then Effect(q.(phase := Reserved(size)), used + size)
      else Effect(q.(phase := Reserving(size)), used)
    case Reserved(size) => Effect(Queue(Idle, q.charges + [size]), used)
    case Releasing(size) =>
      if size > used then Effect(q.(phase := Panicked), used)
      else Effect(q.(phase := ReleaseLoaded(size, used, changes)), used)
    case ReleaseLoaded(size, loaded, at) =>
      if used == loaded then Effect(q.(phase := Idle), used - size) else Effect(q.(phase := Releasing(size)), used)
    case Closing =>
      if Sum(q.charges) > used then Effect(q.(phase := Panicked), used)
      else Effect(q.(phase := CloseLoaded(used, changes)), used)
    case CloseLoaded(loaded, at) =>
      if used == loaded then Effect(q.(phase := CloseReleased), used - Sum(q.charges))
      else Effect(q.(phase := Closing), used)
    case CloseReleased => Effect(Queue(Closed, []), used)
    case Closed => Effect(q, used)
    case Panicked => Effect(q, used)
  }

  function Step(s: Server, turn: Turn): Server {
    match turn
    case Open => s.(queues := s.queues + [Queue(Idle, [])])
    case Go(k, intent) =>
      if k >= |s.queues| then s
      else
        var e := Act(s.limit, s.used, s.changes, s.queues[k], intent);
        Server(s.limit, e.used, if e.used == s.used then s.changes else s.changes + 1, s.queues[k := e.queue])
  }

  function Run(limit: nat, turns: seq<Turn>): Server {
    if turns == [] then Server(limit, 0, 0, [])
    else Step(Run(limit, turns[..|turns| - 1]), turns[|turns| - 1])
  }

  // ---- Conservation -------------------------------------------------------------------

  /** What a queue owes the budget: the charges it holds, one reserved but not
      booked yet, one booked out but not released yet. */
  function Share(q: Queue): nat {
    match q.phase
    case Reserved(size) => Sum(q.charges) + size
    case Releasing(size) => Sum(q.charges) + size
    case ReleaseLoaded(size, _, _) => Sum(q.charges) + size
    case CloseReleased => 0
    case Closed => 0
    case _ => Sum(q.charges)
  }

  function Shares(queues: seq<Queue>): nat {
    if queues == [] then 0 else Shares(queues[..|queues| - 1]) + Share(queues[|queues| - 1])
  }

  /** A loaded balance can only be outdated if it changed since. */
  predicate Honest(s: Server, q: Queue) {
    match q.phase
    case ReserveLoaded(size, loaded, at) =>
      size <= s.limit - loaded && at <= s.changes && (at == s.changes ==> loaded == s.used)
    case ReleaseLoaded(size, loaded, at) => at <= s.changes && (at == s.changes ==> loaded == s.used)
    case CloseLoaded(loaded, at) => at <= s.changes && (at == s.changes ==> loaded == s.used)
    case Closed => q.charges == []
    case Panicked => false
    case _ => true
  }

  predicate Inv(s: Server) {
    && s.used == Shares(s.queues)
    && s.used <= s.limit
    && forall k | 0 <= k < |s.queues| :: Honest(s, s.queues[k])
  }

  lemma {:induction false} SharesUpdate(queues: seq<Queue>, k: nat, q: Queue)
    requires k < |queues|
    ensures Share(queues[k]) <= Shares(queues)
    ensures Shares(queues[k := q]) == Shares(queues) - Share(queues[k]) + Share(q)
  {
    var n := |queues| - 1;
    if k == n {
      assert queues[k := q][..n] == queues[..n];
    } else {
      assert queues[k := q][..n] == queues[..n][k := q];
      SharesUpdate(queues[..n], k, q);
    }
  }

  lemma {:induction false} SumWithout(charges: seq<nat>, index: nat)
    requires index < |charges|
    ensures Sum(charges) == Sum(charges[..index] + charges[index + 1..]) + charges[index]
  {
    var n := |charges| - 1;
    var rest := charges[..index] + charges[index + 1..];
    if index == n {
      assert rest == charges[..n];
    } else {
      SumWithout(charges[..n], index);
      assert rest[..n - 1] == charges[..n][..index] + charges[..n][index + 1..];
    }
  }

  lemma SumAppend(charges: seq<nat>, size: nat)
    ensures Sum(charges + [size]) == Sum(charges) + size
  {
    assert (charges + [size])[..|charges|] == charges;
  }

  /** Every access moves the balance by exactly what it moves the queue's share,
      and never beyond the limit. */
  lemma ActConserves(s: Server, q: Queue, intent: Intent)
    requires Honest(s, q) && Share(q) <= s.used <= s.limit
    ensures
      var e := Act(s.limit, s.used, s.changes, q, intent);
      e.used - s.used == Share(e.queue) - Share(q) && e.used <= s.limit
  {
    if q.phase.Idle? {
      BeginConserves(q, intent);
    } else if q.phase.Reserved? {
      SumAppend(q.charges, q.phase.size);
    }
  }

  /** An event taken out of the queue stays in the share until it is released. */
  lemma BeginConserves(q: Queue, intent: Intent)
    requires q.phase.Idle?
    ensures Share(Begin(q, intent)) == Share(q)
  {
    if intent.Remove? && intent.index < |q.charges| {
      SumWithout(q.charges, intent.index);
    }
  }

  lemma ActIsHonest(s: Server, q: Queue, intent: Intent, s': Server)
    requires Honest(s, q) && Share(q) <= s.used
    requires
      var e := Act(s.limit, s.used, s.changes, q, intent);
      s'.limit == s.limit && s'.used == e.used && s'.changes == if e.used == s.used then s.changes else s.changes + 1
    ensures Honest(s', Act(s.limit, s.used, s.changes, q, intent).queue)
  {
  }

  /** Another queue's honesty survives a swap, which outdates what it loaded. */
  lemma HonestyLasts(s: Server, q: Queue, s': Server)
    requires Honest(s, q) && s'.limit == s.limit
    requires (s'.used == s.used && s'.changes == s.changes) || s'.changes == s.changes + 1
    ensures Honest(s', q)
  {
  }

  lemma StepKeepsInv(s: Server, turn: Turn)
    requires Inv(s)
    ensures Inv(Step(s, turn))
  {
    var s' := Step(s, turn);
    match turn
    case Open =>
      assert s'.queues[..|s.queues|] == s.queues;
    case Go(k, intent) =>
      if k < |s.queues| {
        var e := Act(s.limit, s.used, s.changes, s.queues[k], intent);
        SharesUpdate(s.queues, k, e.queue);
        ActConserves(s, s.queues[k], intent);
        forall j | 0 <= j < |s'.queues| ensures Honest(s', s'.queues[j]) {
          if j == k {
            ActIsHonest(s, s.queues[k], intent, s');
          } else {
            HonestyLasts(s, s.queues[j], s');
          }
        }
      }
  }

  lemma {:induction false} RunKeepsInv(limit: nat, turns: seq<Turn>)
    ensures Inv(Run(limit, turns)) && Run(limit, turns).limit == limit
  {
    if turns != [] {
      RunKeepsInv(limit, turns[..|turns| - 1]);
      StepKeepsInv(Run(limit, turns[..|turns| - 1]), turns[|turns| - 1]);
    }
  }

  // ---- Results -------------------------------------------------------------------------

  /** In every interleaving the balance is the sum of all shares, within the
      limit, and no release ever panics. */
  lemma BalanceIsExact(limit: nat, turns: seq<Turn>, k: nat)
    ensures
      var s := Run(limit, turns);
      && s.used == Shares(s.queues) && 0 <= s.used <= limit
      && (k < |s.queues| ==> !s.queues[k].phase.Panicked?)
  {
    RunKeepsInv(limit, turns);
    var s := Run(limit, turns);
    if k < |s.queues| {
      assert Honest(s, s.queues[k]);
    }
  }

  /** A reservation is refused if and only if the shares of all queues and the
      charge exceed the limit when the balance is loaded. */
  lemma RefusedOnlyIfFull(limit: nat, turns: seq<Turn>, k: nat, intent: Intent)
    requires k < |Run(limit, turns).queues| && Run(limit, turns).queues[k].phase.Reserving?
    ensures
      var s := Run(limit, turns);
      var q' := Step(s, Go(k, intent)).queues[k];
      q'.phase.Idle? <==> Shares(s.queues) + s.queues[k].phase.size > limit
  {
    RunKeepsInv(limit, turns);
  }

  lemma RetryAct(s: Server, q: Queue, intent: Intent)
    requires Honest(s, q)
    ensures
      var q' := Act(s.limit, s.used, s.changes, q, intent).queue;
      && (q.phase.ReserveLoaded? && q'.phase.Reserving? ==> q.phase.at < s.changes)
      && (q.phase.ReleaseLoaded? && q'.phase.Releasing? ==> q.phase.at < s.changes)
      && (q.phase.CloseLoaded? && q'.phase.Closing? ==> q.phase.at < s.changes)
  {
  }

  lemma StepActs(s: Server, k: nat, intent: Intent)
    requires k < |s.queues|
    ensures Step(s, Go(k, intent)).queues == s.queues[k := Act(s.limit, s.used, s.changes, s.queues[k], intent).queue]
  {
  }

  /** A compare-and-swap fails only after another one succeeded since the load:
      the loops cannot spin with nobody getting anywhere. */
  lemma RetryMeansProgress(limit: nat, turns: seq<Turn>, k: nat, intent: Intent)
    requires k < |Run(limit, turns).queues|
    ensures
      var s := Run(limit, turns);
      && |Step(s, Go(k, intent)).queues| == |s.queues|
      && var q, q' := s.queues[k], Step(s, Go(k, intent)).queues[k];
      && (q.phase.ReserveLoaded? && q'.phase.Reserving? ==> q.phase.at < s.changes)
      && (q.phase.ReleaseLoaded? && q'.phase.Releasing? ==> q.phase.at < s.changes)
      && (q.phase.CloseLoaded? && q'.phase.Closing? ==> q.phase.at < s.changes)
  {
    RunKeepsInv(limit, turns);
    var s := Run(limit, turns);
    RetryAct(s, s.queues[k], intent);
    StepActs(s, k, intent);
  }

  /** Queue `k` takes `n` steps, and nobody else any. */
  function Alone(s: Server, k: nat, intent: Intent, n: nat): Server {
    if n == 0 then s else Step(Alone(s, k, intent, n - 1), Go(k, intent))
  }

  function With(s: Server, k: nat, q: Queue): Server
    requires k < |s.queues|
  {
    s.(queues := s.queues[k := q])
  }

  /** `s` with another balance, which counts as a change if it is one. */
  function Moved(s: Server, used: int): Server {
    s.(used := used, changes := if used == s.used then s.changes else s.changes + 1)
  }

  lemma StepWith(s: Server, k: nat, q: Queue, intent: Intent)
    requires k < |s.queues|
    ensures
      var e := Act(s.limit, s.used, s.changes, q, intent);
      Step(With(s, k, q), Go(k, intent)) == With(Moved(s, e.used), k, e.queue)
  {
    var e := Act(s.limit, s.used, s.changes, q, intent);
    assert s.queues[k := q][k := e.queue] == s.queues[k := e.queue];
  }

  /** Undisturbed, a charge that fits is reserved whole and booked. */
  lemma ReserveSucceeds(s: Server, k: nat, size: nat)
    requires k < |s.queues| && s.queues[k].phase == Idle && size <= s.limit - s.used
    ensures Alone(s, k, Reserve(size), 4) ==
            With(Moved(s, s.used + size), k, Queue(Idle, s.queues[k].charges + [size]))
  {
    var q, intent := s.queues[k], Reserve(size);
    assert With(s, k, q) == s;
    StepWith(s, k, q, intent);
    assert Alone(s, k, intent, 1) == With(s, k, q.(phase := Reserving(size)));
    StepWith(s, k, q.(phase := Reserving(size)), intent);
    assert Alone(s, k, intent, 2) == With(s, k, q.(phase := ReserveLoaded(size, s.used, s.changes)));
    StepWith(s, k, q.(phase := ReserveLoaded(size, s.used, s.changes)), intent);
    assert Alone(s, k, intent, 3) == With(Moved(s, s.used + size), k, q.(phase := Reserved(size)));
    StepWith(Moved(s, s.used + size), k, q.(phase := Reserved(size)), intent);
  }

  /** Undisturbed, a removed event's charge goes back whole. */
  lemma RemoveSucceeds(s: Server, k: nat, index: nat)
    requires k < |s.queues| && s.queues[k].phase == Idle && index < |s.queues[k].charges|
    requires 0 < s.queues[k].charges[index] <= s.used
    ensures Alone(s, k, Remove(index), 3) ==
            With(Moved(s, s.used - s.queues[k].charges[index]), k,
              Queue(Idle, s.queues[k].charges[..index] + s.queues[k].charges[index + 1..]))
  {
    var q, intent, size := s.queues[k], Remove(index), s.queues[k].charges[index];
    var rest := q.charges[..index] + q.charges[index + 1..];
    assert With(s, k, q) == s;
    StepWith(s, k, q, intent);
    assert Alone(s, k, intent, 1) == With(s, k, Queue(Releasing(size), rest));
    StepWith(s, k, Queue(Releasing(size), rest), intent);
    assert Alone(s, k, intent, 2) == With(s, k, Queue(ReleaseLoaded(size, s.used, s.changes), rest));
    StepWith(s, k, Queue(ReleaseLoaded(size, s.used, s.changes), rest), intent);
  }

  lemma CloseReachesSwap(s: Server, k: nat)
    requires k < |s.queues| && s.queues[k].phase == Idle && 0 < Sum(s.queues[k].charges) <= s.used
    ensures Alone(s, k, Close, 2) == With(s, k, s.queues[k].(phase := CloseLoaded(s.used, s.changes)))
  {
    var q := s.queues[k];
    assert With(s, k, q) == s;
    StepWith(s, k, q, Close);
    assert Alone(s, k, Close, 1) == With(s, k, q.(phase := Closing));
    StepWith(s, k, q.(phase := Closing), Close);
  }

  lemma CloseSwaps(s: Server, k: nat, q: Queue)
    requires k < |s.queues| && q.phase == CloseLoaded(s.used, s.changes) && 0 < Sum(q.charges) <= s.used
    ensures Step(With(s, k, q), Go(k, Close)) ==
            With(Moved(s, s.used - Sum(q.charges)), k, q.(phase := CloseReleased))
  {
    StepWith(s, k, q, Close);
  }

  lemma CloseEnds(s: Server, k: nat, q: Queue)
    requires k < |s.queues| && q.phase == CloseReleased
    ensures Step(With(s, k, q), Go(k, Close)) == With(s, k, Queue(Closed, []))
  {
    StepWith(s, k, q, Close);
  }

  lemma TwoSteps(s: Server, k: nat, intent: Intent, n: nat, a: Server, b: Server, c: Server)
    requires Alone(s, k, intent, n) == a && Step(a, Go(k, intent)) == b && Step(b, Go(k, intent)) == c
    ensures Alone(s, k, intent, n + 2) == c
  {
    assert Alone(s, k, intent, n + 1) == b;
  }

  /** Undisturbed, closing gives back all that the queue holds. */
  lemma CloseSucceeds(s: Server, k: nat)
    requires k < |s.queues| && s.queues[k].phase == Idle && 0 < Sum(s.queues[k].charges) <= s.used
    ensures Alone(s, k, Close, 4) == With(Moved(s, s.used - Sum(s.queues[k].charges)), k, Queue(Closed, []))
  {
    var q := s.queues[k];
    var loaded := q.(phase := CloseLoaded(s.used, s.changes));
    var back := Moved(s, s.used - Sum(q.charges));
    CloseReachesSwap(s, k);
    CloseSwaps(s, k, loaded);
    CloseEnds(back, k, q.(phase := CloseReleased));
    TwoSteps(s, k, Close, 2, With(s, k, loaded), With(back, k, q.(phase := CloseReleased)),
             With(back, k, Queue(Closed, [])));
  }

  lemma {:induction false} QueuesStay(limit: nat, turns: seq<Turn>, i: nat)
    requires i <= |turns|
    ensures |Run(limit, turns[..i]).queues| <= |Run(limit, turns).queues|
    ensures forall k | 0 <= k < |Run(limit, turns[..i]).queues| && Run(limit, turns[..i]).queues[k].phase.Closed? ::
              Run(limit, turns).queues[k].phase.Closed?
  {
    if i == |turns| {
      assert turns[..i] == turns;
    } else {
      var n := |turns| - 1;
      assert turns[..n][..i] == turns[..i];
      QueuesStay(limit, turns[..n], i);
    }
  }

  /** Once a queue's `close` is done, its share is zero for the rest of the run,
      whatever is attempted on it. */
  lemma ClosedShareStaysZero(limit: nat, turns: seq<Turn>, i: nat, k: nat)
    requires i <= |turns| && k < |Run(limit, turns[..i]).queues|
    requires Run(limit, turns[..i]).queues[k].phase.Closed?
    ensures k < |Run(limit, turns).queues| && Share(Run(limit, turns).queues[k]) == 0
    ensures Run(limit, turns).queues[k].charges == []
  {
    QueuesStay(limit, turns, i);
    RunKeepsInv(limit, turns);
    assert Honest(Run(limit, turns), Run(limit, turns).queues[k]);
  }
}
