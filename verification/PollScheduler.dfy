/** `subscriptionPollScheduler`: weighted polling work, admitted in FIFO order at
    a fixed rate whatever the clock readings. Instants and durations are
    nanosecond counts. */
module PollScheduling {
  import opened Wrappers

  datatype ScheduleError = InvalidConfig | InvalidWeight | ResourceExhausted

  /** A request that was granted: its slot runs from `start` to `end`. */
  datatype Grant = Grant(request: PollRequest, start: int, end: int)

  /** What `wait` finds ready; its choice among several is the runtime's. */
  datatype Ready = GrantClosed | ContextDone | TimerFired

  datatype WaitResult = Admitted | WaitCanceled

  class PollRequest {
    const weight: nat
    var readyAt: int
    var endAt: int
    var granted: bool

    constructor (weight: nat)
      ensures this.weight == weight && !granted
    {
      this.weight := weight;
      readyAt, endAt, granted := 0, 0, false;
    }
  }

  // ---- Slots and grants as values ----------------------------------------------

  function TotalWeight(requests: seq<PollRequest>): nat {
    if requests == [] then 0 else TotalWeight(requests[..|requests| - 1]) + requests[|requests| - 1].weight
  }

  function GrantedWeight(grants: seq<Grant>): nat {
    if grants == [] then 0 else GrantedWeight(grants[..|grants| - 1]) + grants[|grants| - 1].request.weight
  }

  function Requests(grants: seq<Grant>): seq<PollRequest> {
    seq(|grants|, i requires 0 <= i < |grants| => grants[i].request)
  }

  /** The requests of `all` that were not cancelled, in order. */
  function Uncancelled(all: seq<PollRequest>, cancelled: set<PollRequest>): seq<PollRequest> {
    if all == [] then []
    else Uncancelled(all[..|all| - 1], cancelled) +
         (if all[|all| - 1] in cancelled then [] else [all[|all| - 1]])
  }

  ghost predicate Distinct(requests: seq<PollRequest>) {
    forall i, j | 0 <= i < j < |requests| :: requests[i] != requests[j]
  }

  /** Slots in grant order: each as long as its weight asks, none overlapping
      the one before. */
  ghost predicate Disjoint(grants: seq<Grant>, unit: nat) {
    && (forall i | 0 <= i < |grants| :: grants[i].end == grants[i].start + grants[i].request.weight * unit)
    && (forall i | 0 <= i < |grants| - 1 :: grants[i].end <= grants[i + 1].start)
  }

  lemma NextSlot(grants: seq<Grant>, unit: nat, k: nat)
    requires Disjoint(grants, unit) && k + 1 < |grants|
    ensures grants[k].start + grants[k].request.weight * unit <= grants[k + 1].start
  {
  }

  lemma {:induction false} AllButLast(grants: seq<Grant>, unit: nat, i: nat, j: nat)
    requires Disjoint(grants, unit) && i <= j < |grants|
    ensures GrantedWeight(grants[i..j]) * unit <= grants[j].start - grants[i].start
    decreases j
  {
    if i < j {
      AllButLast(grants, unit, i, j - 1);
      WeightUpTo(grants, i, j - 1);
      NextSlot(grants, unit, j - 1);
      Extend(GrantedWeight(grants[i..j - 1]), grants[j - 1].request.weight, unit,
             grants[j - 1].start - grants[i].start, grants[j].start - grants[i].start);
    } else {
      assert grants[i..j] == [];
    }
  }

  /** The rate bound. Of the grants `i` to `j`, all but the last fit, unit by
      unit, between the first start and the last; with the last, the excess is
      one window at most. */
  lemma RateBound(grants: seq<Grant>, unit: nat, capacity: nat, i: nat, j: nat)
    requires Disjoint(grants, unit) && i <= j < |grants|
    requires forall k | 0 <= k < |grants| :: grants[k].request.weight <= capacity
    ensures GrantedWeight(grants[i..j]) * unit <= grants[j].start - grants[i].start
    ensures GrantedWeight(grants[i..j + 1]) * unit <= grants[j].start - grants[i].start + capacity * unit
  {
    AllButLast(grants, unit, i, j);
    WeightUpTo(grants, i, j);
    Exceed(GrantedWeight(grants[i..j]), grants[j].request.weight, capacity, unit, grants[j].start - grants[i].start);
  }

  lemma WeightUpTo(grants: seq<Grant>, i: nat, j: nat)
    requires i <= j < |grants|
    ensures GrantedWeight(grants[i..j + 1]) == GrantedWeight(grants[i..j]) + grants[j].request.weight
  {
    assert grants[i..j + 1][..j - i] == grants[i..j];
  }

  lemma Extend(sum: nat, weight: nat, unit: nat, earlier: int, later: int)
    requires sum * unit <= earlier && earlier + weight * unit <= later
    ensures (sum + weight) * unit <= later
  {
    Distribute(sum, weight, unit);
  }

  lemma Exceed(sum: nat, weight: nat, capacity: nat, unit: nat, span: int)
    requires sum * unit <= span && weight <= capacity
    ensures (sum + weight) * unit <= span + capacity * unit
  {
    Distribute(sum, weight, unit);
    Monotone(weight, capacity, unit);
  }

  /** Stated as the rate itself: no span of `length` nanoseconds sees more than
      its share of units start, but for the last grant. */
  lemma GrantsPerSpan(grants: seq<Grant>, unit: nat, capacity: nat, i: nat, j: nat, length: nat)
    requires unit > 0 && Disjoint(grants, unit) && i <= j < |grants|
    requires forall k | 0 <= k < |grants| :: grants[k].request.weight <= capacity
    requires grants[j].start - grants[i].start <= length
    ensures GrantedWeight(grants[i..j]) <= length / unit
    ensures GrantedWeight(grants[i..j + 1]) <= length / unit + capacity
  {
    RateBound(grants, unit, capacity, i, j);
    AtMostQuotient(GrantedWeight(grants[i..j]), unit, length);
    assert grants[i..j + 1][..j - i] == grants[i..j];
  }

  lemma Distribute(a: nat, b: nat, unit: nat)
    ensures (a + b) * unit == a * unit + b * unit
  {
  }

  lemma Monotone(a: nat, b: nat, unit: nat)
    requires a <= b
    ensures a * unit <= b * unit
  {
  }

  lemma AtMostQuotient(a: nat, unit: nat, length: nat)
    requires unit > 0 && a * unit <= length
    ensures a <= length / unit
  {
    if a > length / unit {
      Monotone(length / unit + 1, a, unit);
      Distribute(length / unit, 1, unit);
    }
  }

  lemma UnitIsPositive(capacity: nat, window: nat)
    requires capacity > 0
    ensures window / capacity > 0 <==> capacity <= window
    ensures capacity * (window / capacity) <= window
  {
  }

  // ---- What one dispatch does ---------------------------------------------------

  /** The line and the end of committed work. */
  datatype Line = Line(committedUntil: int, waiting: seq<PollRequest>)

  /** One dispatch grants the head when committed work is over, and nobody
      else. */
  function Dispatched(line: Line, unit: nat, now: int): Line {
    if line.waiting == [] || line.committedUntil > now then line
    else Line(now + line.waiting[0].weight * unit, line.waiting[1..])
  }

  function DispatchGrants(line: Line, unit: nat, now: int): seq<Grant> {
    if line.waiting == [] || line.committedUntil > now then []
    else [Grant(line.waiting[0], now, now + line.waiting[0].weight * unit)]
  }

  function DispatchedAll(line: Line, unit: nat, times: seq<int>): Line {
    if times == [] then line
    else Dispatched(DispatchedAll(line, unit, times[..|times| - 1]), unit, times[|times| - 1])
  }

  /** Each dispatch comes at or after the wake-up announced then, which is the
      end of committed work. */
  predicate InTime(line: Line, unit: nat, times: seq<int>) {
    times == [] ||
    (var n := |times| - 1;
     InTime(line, unit, times[..n]) && times[n] >= DispatchedAll(line, unit, times[..n]).committedUntil)
  }

  /** Each dispatch comes exactly then. */
  predicate OnTheDot(line: Line, unit: nat, times: seq<int>) {
    times == [] ||
    (var n := |times| - 1;
     OnTheDot(line, unit, times[..n]) && times[n] == DispatchedAll(line, unit, times[..n]).committedUntil)
  }

  /** No starvation: `n` dispatches in time grant the first `n` requests in line,
      for every `n`. */
  lemma {:induction false} EveryWakeUpAdvances(line: Line, unit: nat, times: seq<int>)
    requires |times| <= |line.waiting| && InTime(line, unit, times)
    ensures DispatchedAll(line, unit, times).waiting == line.waiting[|times|..]
  {
    if times != [] {
      EveryWakeUpAdvances(line, unit, times[..|times| - 1]);
    }
  }

  /** When dispatches come exactly at the announced wake-ups, the `n`-th request
      in line starts when the work ahead of it is done, and not a unit later. */
  lemma {:induction false} PunctualStart(line: Line, unit: nat, times: seq<int>)
    requires |times| <= |line.waiting| && OnTheDot(line, unit, times)
    ensures InTime(line, unit, times)
    ensures DispatchedAll(line, unit, times).committedUntil ==
            line.committedUntil + TotalWeight(line.waiting[..|times|]) * unit
  {
    if times != [] {
      var n := |times| - 1;
      PunctualStart(line, unit, times[..n]);
      EveryWakeUpAdvances(line, unit, times[..n]);
      assert line.waiting[..n + 1][..n] == line.waiting[..n];
      Distribute(TotalWeight(line.waiting[..n]), line.waiting[n].weight, unit);
    }
  }

  /** Later arrivals change nothing for those already in line. */
  lemma {:induction false} ArrivalsDoNotMatter(line: Line, unit: nat, times: seq<int>, arrivals: seq<PollRequest>)
    requires |times| <= |line.waiting| && InTime(line, unit, times)
    ensures DispatchedAll(line.(waiting := line.waiting + arrivals), unit, times) ==
            DispatchedAll(line, unit, times).(waiting := line.waiting[|times|..] + arrivals)
  {
    if times != [] {
      var n := |times| - 1;
      ArrivalsDoNotMatter(line, unit, times[..n], arrivals);
      EveryWakeUpAdvances(line, unit, times[..n]);
      ArrivalsDoNotMatterOnce(DispatchedAll(line, unit, times[..n]), unit, times[n], arrivals);
      assert line.waiting[n..][1..] == line.waiting[n + 1..];
    }
  }

  lemma ArrivalsDoNotMatterOnce(line: Line, unit: nat, now: int, arrivals: seq<PollRequest>)
    requires line.waiting != [] && now >= line.committedUntil
    ensures Dispatched(line.(waiting := line.waiting + arrivals), unit, now) ==
            Dispatched(line, unit, now).(waiting := line.waiting[1..] + arrivals)
  {
    assert (line.waiting + arrivals)[1..] == line.waiting[1..] + arrivals;
  }

  // ---- What cancelling does to the others ---------------------------------------

  /** The grants of successive dispatches. */
  function GrantedAll(line: Line, unit: nat, times: seq<int>): seq<Grant> {
    if times == [] then []
    else
      var n := |times| - 1;
      GrantedAll(line, unit, times[..n]) + DispatchGrants(DispatchedAll(line, unit, times[..n]), unit, times[n])
  }

  /** `queue` without its `j`-th request. */
  function Cut(queue: seq<PollRequest>, j: nat): seq<PollRequest>
    requires j < |queue|
  {
    queue[..j] + queue[j + 1..]
  }

  /** Where the `k`-th request stands once the `j`-th is gone. */
  function Place(k: nat, j: nat): nat
    requires k != j
  {
    if k < j then k else k - 1
  }

  /** `line` is `start` after `grants`, which went to its first requests. */
  predicate Follows(start: Line, unit: nat, grants: seq<Grant>, line: Line) {
    && |grants| <= |start.waiting| && line.waiting == start.waiting[|grants|..]
    && (forall k | 0 <= k < |grants| :: grants[k].request == start.waiting[k])
    && (if grants == [] then line.committedUntil == start.committedUntil
        else
          var last := grants[|grants| - 1];
          line.committedUntil == last.end == last.start + last.request.weight * unit)
  }

  lemma DispatchFollows(start: Line, unit: nat, grants: seq<Grant>, line: Line, now: int)
    requires Follows(start, unit, grants, line)
    ensures Follows(start, unit, grants + DispatchGrants(line, unit, now), Dispatched(line, unit, now))
  {
    assert grants + [] == grants;
  }

  /** How many of the first `m` requests are left once the `j`-th is gone. */
  function Others(m: nat, j: nat): nat {
    if m <= j then m else m - 1
  }

  /** Without the `j`-th request everybody is at least as far: whoever was granted
      is, and no later; the work committed to as many is over no later; and who
      is ahead started before the others' committed work is over, or before
      `floor`, a lower bound of the dispatches to come. */
  predicate Ahead(j: nat, floor: int, grants: seq<Grant>, until: int, fewer: seq<Grant>, until': int) {
    var n := Others(|grants|, j);
    && |fewer| >= n
    && (forall k | 0 <= k < |grants| && k != j :: fewer[Place(k, j)].start <= grants[k].start)
    && (forall i | n <= i < |fewer| :: fewer[i].start <= until || fewer[i].start <= floor)
    && (|fewer| == n ==> until' <= until)
  }

  /** Both lines after what they granted, `cut` being `start` without the `j`-th
      request. */
  predicate SideBySide(start: Line, cut: Line, unit: nat, j: nat, floor: int, grants: seq<Grant>, line: Line,
                       fewer: seq<Grant>, line': Line)
  {
    && j < |start.waiting| && cut == start.(waiting := Cut(start.waiting, j))
    && Follows(start, unit, grants, line) && Follows(cut, unit, fewer, line')
    && Ahead(j, floor, grants, line.committedUntil, fewer, line'.committedUntil)
  }

  /** The shorter line is dispatched first. */
  lemma ShorterNext(start: Line, cut: Line, unit: nat, j: nat, floor: int, grants: seq<Grant>, line: Line,
                    fewer: seq<Grant>, line': Line, now: int)
    requires SideBySide(start, cut, unit, j, floor, grants, line, fewer, line') && floor <= now
    ensures SideBySide(start, cut, unit, j, now, grants, line, fewer + DispatchGrants(line', unit, now),
              Dispatched(line', unit, now))
  {
    DispatchFollows(cut, unit, fewer, line', now);
    if line'.waiting == [] || line'.committedUntil > now {
      assert fewer + [] == fewer;
    }
  }

  /** Then it is not at rest where the longer one may go on. */
  lemma NotAtRest(start: Line, cut: Line, unit: nat, j: nat, floor: int, grants: seq<Grant>, line: Line,
                  fewer: seq<Grant>, line': Line, now: int)
    requires SideBySide(start, cut, unit, j, floor, grants, line, fewer, line')
    ensures |fewer + DispatchGrants(line', unit, now)| == Others(|grants|, j) ==>
              Dispatched(line', unit, now).committedUntil > now || |grants| == |start.waiting| || |grants| == j
  {
  }

  /** The longer line is dispatched then. */
  lemma LongerNext(start: Line, cut: Line, unit: nat, j: nat, floor: int, grants: seq<Grant>, line: Line,
                   fewer: seq<Grant>, line': Line, now: int)
    requires SideBySide(start, cut, unit, j, now, grants, line, fewer, line')
    requires |fewer| == Others(|grants|, j) ==>
               line'.committedUntil > now || |grants| == |start.waiting| || |grants| == j
    ensures SideBySide(start, cut, unit, j, floor, grants + DispatchGrants(line, unit, now),
              Dispatched(line, unit, now), fewer, line')
  {
    DispatchFollows(start, unit, grants, line, now);
    var until, until' := line.committedUntil, line'.committedUntil;
    if line.waiting == [] || until > now {
      assert grants + [] == grants;
      assert line.waiting == [] ==> |fewer| <= |start.waiting| - 1;
      LongerWaits(j, now, floor, grants, until, fewer, until');
    } else {
      var g := Grant(line.waiting[0], now, now + line.waiting[0].weight * unit);
      Monotone(0, line.waiting[0].weight, unit);
      if |grants| == j {
        CancelledGrants(j, now, floor, grants, until, fewer, until', g);
      } else {
        SameRequest(start.waiting, j, |grants|);
        LastEnds(cut, unit, fewer, line');
        LongerGrants(j, now, floor, grants, until, fewer, until', g);
      }
    }
  }

  lemma SameRequest(queue: seq<PollRequest>, j: nat, k: nat)
    requires j < |queue| && k < |queue| && k != j
    ensures Cut(queue, j)[Place(k, j)] == queue[k]
  {
  }

  lemma LastEnds(start: Line, unit: nat, grants: seq<Grant>, line: Line)
    requires Follows(start, unit, grants, line) && grants != []
    ensures var n := |grants| - 1;
            line.committedUntil == grants[n].start + start.waiting[n].weight * unit
  {
  }

  lemma LongerWaits(j: nat, now: int, floor: int, grants: seq<Grant>, until: int, fewer: seq<Grant>, until': int)
    requires Ahead(j, now, grants, until, fewer, until') && (until > now || |fewer| <= Others(|grants|, j))
    ensures Ahead(j, floor, grants, until, fewer, until')
  {
  }

  lemma CancelledGrants(j: nat, now: int, floor: int, grants: seq<Grant>, until: int, fewer: seq<Grant>, until': int,
                        g: Grant)
    requires Ahead(j, now, grants, until, fewer, until') && until <= now == g.start <= g.end && |grants| == j
    ensures Ahead(j, floor, grants + [g], g.end, fewer, until')
  {
  }

  lemma LongerGrants(j: nat, now: int, floor: int, grants: seq<Grant>, until: int, fewer: seq<Grant>, until': int,
                     g: Grant)
    requires Ahead(j, now, grants, until, fewer, until') && until <= now == g.start <= g.end && |grants| != j
    requires |fewer| > Place(|grants|, j)
    requires |fewer| == Place(|grants|, j) + 1 ==> until' - fewer[|fewer| - 1].start == g.end - g.start
    ensures Ahead(j, floor, grants + [g], g.end, fewer, until')
  {
  }

  /** One dispatch of both lines at one time. */
  lemma BothNext(start: Line, cut: Line, unit: nat, j: nat, floor: int, grants: seq<Grant>, line: Line,
                 fewer: seq<Grant>, line': Line, now: int)
    requires SideBySide(start, cut, unit, j, floor, grants, line, fewer, line') && floor <= now
    ensures SideBySide(start, cut, unit, j, floor, grants + DispatchGrants(line, unit, now),
              Dispatched(line, unit, now), fewer + DispatchGrants(line', unit, now), Dispatched(line', unit, now))
  {
    ShorterNext(start, cut, unit, j, floor, grants, line, fewer, line', now);
    NotAtRest(start, cut, unit, j, floor, grants, line, fewer, line', now);
    LongerNext(start, cut, unit, j, floor, grants, line, fewer + DispatchGrants(line', unit, now),
               Dispatched(line', unit, now), now);
  }

  lemma {:induction false} StaysAhead(start: Line, cut: Line, unit: nat, now: int, times: seq<int>, j: nat)
    requires j < |start.waiting| && cut == start.(waiting := Cut(start.waiting, j))
    requires forall i | 0 <= i < |times| :: now <= times[i]
    ensures SideBySide(start, cut, unit, j, now, GrantedAll(start, unit, times), DispatchedAll(start, unit, times),
              CutGrants(cut, unit, now, times), DispatchedAll(Dispatched(cut, unit, now), unit, times))
  {
    if times == [] {
      assert [] + DispatchGrants(cut, unit, now) == CutGrants(cut, unit, now, times);
      ShorterNext(start, cut, unit, j, now, [], start, [], cut, now);
    } else {
      var n := |times| - 1;
      StaysAhead(start, cut, unit, now, times[..n], j);
      CutGrantsNext(cut, unit, now, times);
      BothNext(start, cut, unit, j, now, GrantedAll(start, unit, times[..n]), DispatchedAll(start, unit, times[..n]),
               CutGrants(cut, unit, now, times[..n]), DispatchedAll(Dispatched(cut, unit, now), unit, times[..n]),
               times[n]);
    }
  }

  lemma CutGrantsNext(cut: Line, unit: nat, now: int, times: seq<int>)
    requires times != []
    ensures var n := |times| - 1;
            CutGrants(cut, unit, now, times) ==
            CutGrants(cut, unit, now, times[..n]) +
            DispatchGrants(DispatchedAll(Dispatched(cut, unit, now), unit, times[..n]), unit, times[n])
  {
  }

  /** The grants of a line that is dispatched at once, as a cancellation does, and
      then at `times`. */
  function CutGrants(cut: Line, unit: nat, now: int, times: seq<int>): seq<Grant> {
    DispatchGrants(cut, unit, now) + GrantedAll(Dispatched(cut, unit, now), unit, times)
  }

  lemma NobodyIsDelayed(start: Line, cut: Line, unit: nat, j: nat, floor: int, grants: seq<Grant>, line: Line,
                        fewer: seq<Grant>, line': Line, k: nat)
    requires SideBySide(start, cut, unit, j, floor, grants, line, fewer, line') && k < |grants| && k != j
    ensures Place(k, j) < |fewer| && k < |start.waiting|
    ensures fewer[Place(k, j)].request == grants[k].request == start.waiting[k]
    ensures fewer[Place(k, j)].start <= grants[k].start
  {
    SameRequest(start.waiting, j, k);
  }

  /** Cancelling a waiting request delays nobody. Whatever the clock readings
      after it at which the line is dispatched, every other request that would
      have got its slot gets it without the cancelled one, too, and no later. */
  lemma CancelNeverDelays(line: Line, cut: Line, unit: nat, now: int, times: seq<int>, j: nat, k: nat)
    requires j < |line.waiting| && cut == line.(waiting := Cut(line.waiting, j))
    requires forall i | 0 <= i < |times| :: now <= times[i]
    requires k < |GrantedAll(line, unit, times)| && k != j
    ensures
      var with, without := GrantedAll(line, unit, times), CutGrants(cut, unit, now, times);
      && Place(k, j) < |without| && k < |line.waiting|
      && without[Place(k, j)].request == with[k].request == line.waiting[k]
      && without[Place(k, j)].start <= with[k].start
  {
    StaysAhead(line, cut, unit, now, times, j);
    NobodyIsDelayed(line, cut, unit, j, now, GrantedAll(line, unit, times), DispatchedAll(line, unit, times),
                    CutGrants(cut, unit, now, times), DispatchedAll(Dispatched(cut, unit, now), unit, times), k);
  }

  lemma RequestsAppend(grants: seq<Grant>, g: Grant)
    ensures Requests(grants + [g]) == Requests(grants) + [g.request]
  {
  }

  lemma UncancelledAppend(all: seq<PollRequest>, cancelled: set<PollRequest>, r: PollRequest)
    requires r !in cancelled
    ensures Uncancelled(all + [r], cancelled) == Uncancelled(all, cancelled) + [r]
  {
    assert (all + [r])[..|all|] == all;
  }

  /** Nobody stands in line twice. */
  lemma {:induction false} UncancelledDistinct(all: seq<PollRequest>, cancelled: set<PollRequest>)
    requires Distinct(all)
    ensures Distinct(Uncancelled(all, cancelled))
    ensures forall r | r in Uncancelled(all, cancelled) :: r in all
  {
    if all != [] {
      var front, last := all[..|all| - 1], all[|all| - 1];
      assert Distinct(front) && last !in front;
      UncancelledDistinct(front, cancelled);
      var kept := Uncancelled(front, cancelled);
      assert last !in kept;
      DistinctAppend(kept, last);
    }
  }

  lemma {:induction false} UncancelledKeeps(all: seq<PollRequest>, cancelled: set<PollRequest>, r: PollRequest)
    requires r in all && r !in cancelled
    ensures r in Uncancelled(all, cancelled)
  {
    if r != all[|all| - 1] {
      UncancelledKeeps(all[..|all| - 1], cancelled, r);
    }
  }

  lemma {:induction false} UncancelledDrops(all: seq<PollRequest>, cancelled: set<PollRequest>, r: PollRequest)
    requires r in cancelled
    ensures r !in Uncancelled(all, cancelled)
  {
    if all != [] {
      UncancelledDrops(all[..|all| - 1], cancelled, r);
    }
  }

  lemma DistinctAppend(requests: seq<PollRequest>, r: PollRequest)
    requires Distinct(requests) && r !in requests
    ensures Distinct(requests + [r])
  {
  }

  /** Taking `queue[index]` out of the line behind the granted requests is
      exactly cancelling it. */
  lemma WithdrawnLine(all: seq<PollRequest>, cancelled: set<PollRequest>, granted: seq<PollRequest>,
                      queue: seq<PollRequest>, index: nat)
    requires Distinct(all) && Uncancelled(all, cancelled) == granted + queue && index < |queue|
    ensures Uncancelled(all, cancelled + {queue[index]}) == granted + Cut(queue, index)
    ensures Without(queue, queue[index]) == Cut(queue, index)
  {
    UncancelledDistinct(all, cancelled);
    NotTwice(granted, queue, index);
    CancelOne(all, cancelled, queue[index]);
    CutIsWithout([], queue, index);
    CutIsWithout(granted, queue, index);
    assert [] + queue == queue && [] + Cut(queue, index) == Cut(queue, index);
  }

  lemma CutIsWithout(granted: seq<PollRequest>, queue: seq<PollRequest>, index: nat)
    requires index < |queue| && queue[index] !in granted
    requires queue[index] !in queue[..index] && queue[index] !in queue[index + 1..]
    ensures Without(granted + queue, queue[index]) == granted + Cut(queue, index)
  {
    var front, back := granted + queue[..index], queue[index + 1..];
    WithoutPresent(front, queue[index], back);
    assert granted + queue == front + [queue[index]] + back;
    assert granted + Cut(queue, index) == front + back;
  }

  lemma NotTwice(granted: seq<PollRequest>, queue: seq<PollRequest>, index: nat)
    requires Distinct(granted + queue) && index < |queue|
    ensures queue[index] !in granted && queue[index] !in queue[..index] && queue[index] !in queue[index + 1..]
  {
    var line := granted + queue;
    forall i | 0 <= i < |granted| ensures granted[i] != queue[index] {
      assert line[i] == granted[i] && line[|granted| + index] == queue[index];
    }
    forall i | 0 <= i < |queue| && i != index ensures queue[i] != queue[index] {
      assert line[|granted| + i] == queue[i] && line[|granted| + index] == queue[index];
    }
  }

  function Without(requests: seq<PollRequest>, r: PollRequest): seq<PollRequest> {
    if requests == [] then []
    else Without(requests[..|requests| - 1], r) +
         (if requests[|requests| - 1] == r then [] else [requests[|requests| - 1]])
  }

  lemma {:induction false} CancelOne(all: seq<PollRequest>, cancelled: set<PollRequest>, r: PollRequest)
    ensures Uncancelled(all, cancelled + {r}) == Without(Uncancelled(all, cancelled), r)
  {
    if all != [] {
      CancelOne(all[..|all| - 1], cancelled, r);
      var last := all[|all| - 1];
      if last !in cancelled {
        var kept := Uncancelled(all[..|all| - 1], cancelled);
        assert (kept + [last])[..|kept|] == kept;
      } else {
        assert Uncancelled(all[..|all| - 1], cancelled) + [] == Uncancelled(all[..|all| - 1], cancelled);
      }
    }
  }

  lemma {:induction false} WithoutAbsent(requests: seq<PollRequest>, r: PollRequest)
    requires r !in requests
    ensures Without(requests, r) == requests
  {
    if requests != [] {
      WithoutAbsent(requests[..|requests| - 1], r);
    }
  }

  lemma {:induction false} WithoutPresent(front: seq<PollRequest>, r: PollRequest, back: seq<PollRequest>)
    requires r !in front && r !in back
    ensures Without(front + [r] + back, r) == front + back
    decreases |back|
  {
    if back == [] {
      assert (front + [r] + back)[..|front|] == front;
      WithoutAbsent(front, r);
    } else {
      var n := |back| - 1;
      assert (front + [r] + back)[..|front| + 1 + n] == front + [r] + back[..n];
      WithoutPresent(front, r, back[..n]);
    }
  }

  /** The accepted requests, in order and without the cancelled ones, are the
      granted and then the waiting ones. */
  ghost predicate InOrder(accepted: seq<PollRequest>, cancelled: set<PollRequest>, grants: seq<Grant>,
                          queue: seq<PollRequest>)
  {
    && Distinct(accepted)
    && (forall r | r in cancelled :: r in accepted)
    && Uncancelled(accepted, cancelled) == Requests(grants) + queue
  }

  ghost predicate Weighed(capacity: nat, accepted: seq<PollRequest>) {
    forall r | r in accepted :: 0 < r.weight <= capacity
  }

  lemma WaitingIsAccepted(accepted: seq<PollRequest>, cancelled: set<PollRequest>, grants: seq<Grant>,
                          queue: seq<PollRequest>, i: nat)
    requires InOrder(accepted, cancelled, grants, queue) && i < |queue|
    ensures queue[i] in accepted
  {
    UncancelledDistinct(accepted, cancelled);
    assert (Requests(grants) + queue)[|grants| + i] == queue[i];
  }

  lemma GrantedIsAccepted(accepted: seq<PollRequest>, cancelled: set<PollRequest>, grants: seq<Grant>,
                          queue: seq<PollRequest>, i: nat)
    requires InOrder(accepted, cancelled, grants, queue) && i < |grants|
    ensures grants[i].request in accepted
  {
    UncancelledDistinct(accepted, cancelled);
    assert (Requests(grants) + queue)[i] == grants[i].request;
  }

  lemma AcceptInOrder(accepted: seq<PollRequest>, cancelled: set<PollRequest>, grants: seq<Grant>,
                      queue: seq<PollRequest>, r: PollRequest)
    requires InOrder(accepted, cancelled, grants, queue) && r !in accepted
    ensures InOrder(accepted + [r], cancelled, grants, queue + [r])
  {
    DistinctAppend(accepted, r);
    UncancelledAppend(accepted, cancelled, r);
    assert Requests(grants) + queue + [r] == Requests(grants) + (queue + [r]);
  }

  lemma GrantInOrder(accepted: seq<PollRequest>, cancelled: set<PollRequest>, grants: seq<Grant>,
                     queue: seq<PollRequest>, g: Grant)
    requires InOrder(accepted, cancelled, grants, queue) && queue != [] && g.request == queue[0]
    ensures InOrder(accepted, cancelled, grants + [g], queue[1..])
  {
    RequestsAppend(grants, g);
    assert Requests(grants) + queue == Requests(grants + [g]) + queue[1..];
  }

  lemma WithdrawInOrder(accepted: seq<PollRequest>, cancelled: set<PollRequest>, grants: seq<Grant>,
                        queue: seq<PollRequest>, index: nat)
    requires InOrder(accepted, cancelled, grants, queue) && index < |queue|
    ensures InOrder(accepted, cancelled + {queue[index]}, grants, Cut(queue, index))
    ensures Without(queue, queue[index]) == Cut(queue, index)
  {
    WithdrawnLine(accepted, cancelled, Requests(grants), queue, index);
    WaitingIsAccepted(accepted, cancelled, grants, queue, index);
  }

  lemma WeightAhead(queue: seq<PollRequest>, k: nat)
    requires 0 < k <= |queue|
    ensures TotalWeight(queue[..k]) == TotalWeight(queue[..k - 1]) + queue[k - 1].weight
  {
    assert queue[..k][..k - 1] == queue[..k - 1];
  }

  /** The requests hold slots, each as long as its weight asks, that follow one
      another from `start` to `end`. */
  ghost predicate Consecutive(requests: seq<PollRequest>, unit: nat, start: int, end: int)
    reads requests
  {
    if requests == [] then end == start
    else
      var n := |requests| - 1;
      && requests[n].endAt == end == requests[n].readyAt + requests[n].weight * unit
      && Consecutive(requests[..n], unit, start, requests[n].readyAt)
  }

  lemma {:induction false} SlotAt(requests: seq<PollRequest>, unit: nat, start: int, end: int, k: nat)
    requires Consecutive(requests, unit, start, end)
    ensures end == start + TotalWeight(requests) * unit
    ensures k < |requests| ==>
              && requests[k].readyAt == start + TotalWeight(requests[..k]) * unit
              && requests[k].endAt == requests[k].readyAt + requests[k].weight * unit
  {
    if requests != [] {
      var n := |requests| - 1;
      SlotAt(requests[..n], unit, start, requests[n].readyAt, k);
      Distribute(TotalWeight(requests[..n]), requests[n].weight, unit);
      if k < n {
        assert requests[..n][..k] == requests[..k];
      }
    }
  }

  lemma DisjointAppend(grants: seq<Grant>, g: Grant, unit: nat)
    requires Disjoint(grants, unit) && g.end == g.start + g.request.weight * unit
    requires grants != [] ==> grants[|grants| - 1].end <= g.start
    ensures Disjoint(grants + [g], unit)
  {
  }

  // ---- The scheduler ----------------------------------------------------------------

  class PollScheduler {
    const capacity: nat
    const window: nat
    const workUnitInterval: nat
    var committedUntil: int
    var queue: seq<PollRequest>

    /** History: the slots granted, every request ever accepted, and those
        cancelled while they waited. */
    ghost var grants: seq<Grant>
    ghost var accepted: seq<PollRequest>
    ghost var cancelled: set<PollRequest>

    /** The durable part of the invariant. */
    ghost predicate Sound()
      reads this
    {
      && capacity > 0 && workUnitInterval > 0 && capacity * workUnitInterval <= window
      && InOrder(accepted, cancelled, grants, queue)
      && Weighed(capacity, accepted)
      && Disjoint(grants, workUnitInterval)
      && (grants != [] ==> grants[|grants| - 1].end <= committedUntil)
    }

    ghost predicate Ungranted()
      reads this, queue
    {
      forall i | 0 <= i < |queue| :: !queue[i].granted
    }

    ghost predicate AllGranted()
      reads this, Requests(grants)
    {
      forall r | r in Requests(grants) :: r.granted
    }

    /** The waiting requests hold consecutive slots from `committedUntil` on. */
    ghost predicate Scheduled()
      reads this, queue
    {
      Consecutive(queue, workUnitInterval, committedUntil, committedUntil + TotalWeight(queue) * workUnitInterval)
    }

    ghost predicate Valid()
      reads this, queue, Requests(grants)
    {
      Sound() && Ungranted() && AllGranted() && Scheduled()
    }

    constructor (capacity: nat, window: nat, now: int)
      requires capacity > 0 && window / capacity > 0
      ensures Valid() && this.capacity == capacity && this.window == window
      ensures queue == [] && grants == [] && accepted == [] && cancelled == {} && committedUntil == now
      ensures workUnitInterval == window / capacity
    {
      UnitIsPositive(capacity, window);
      this.capacity := capacity;
      this.window := window;
      workUnitInterval := window / capacity;
      committedUntil := now;
      queue, grants, accepted, cancelled := [], [], [], {};
    }

    /** `workDuration`; it never exceeds the window, so it cannot overflow. */
    function WorkDuration(weight: nat): nat {
      weight * workUnitInterval
    }

    method AssignSlot(request: PollRequest, start: int) returns (end: int)
      modifies request`readyAt, request`endAt
      ensures request.readyAt == start && request.endAt == end == start + request.weight * workUnitInterval
    {
      request.readyAt := start;
      request.endAt := start + WorkDuration(request.weight);
      end := request.endAt;
    }

    /** `scheduleQueuedLocked`: consecutive slots from `now`, or from the end of
        committed work if that is later. */
    method ScheduleQueued(now: int)
      requires Distinct(queue)
      modifies queue`readyAt, queue`endAt
      ensures var first := if committedUntil > now then committedUntil else now;
              Consecutive(queue, workUnitInterval, first, first + TotalWeight(queue) * workUnitInterval)
    {
      var first := if committedUntil > now then committedUntil else now;
      var base := first;
      var i := 0;
      while i < |queue|
        invariant i <= |queue|
        invariant base == first + TotalWeight(queue[..i]) * workUnitInterval
        invariant Consecutive(queue[..i], workUnitInterval, first, base)
      {
        WeightAhead(queue, i + 1);
        Distribute(TotalWeight(queue[..i]), queue[i].weight, workUnitInterval);
        base := AssignSlot(queue[i], base);
        assert queue[..i + 1][..i] == queue[..i];
        i := i + 1;
      }
      assert queue[..i] == queue;
    }

    lemma LineIsDistinct()
      requires Sound()
      ensures Distinct(queue)
    {
      UncancelledDistinct(accepted, cancelled);
      var line := Requests(grants) + queue;
      forall i, j | 0 <= i < j < |queue| ensures queue[i] != queue[j] {
        assert line[|grants| + i] == queue[i] && line[|grants| + j] == queue[j];
      }
    }

    /** Grants the head its slot, which starts now; its grant channel has not
        been closed before. */
    method GrantHead(now: int)
      requires Sound() && Ungranted() && AllGranted() && queue != [] && committedUntil <= now == queue[0].readyAt
      requires queue[0].endAt == now + queue[0].weight * workUnitInterval
      modifies this`queue, this`committedUntil, this`grants, queue[0]
      ensures Sound() && Ungranted() && AllGranted()
      ensures Line(committedUntil, queue) == Dispatched(old(Line(committedUntil, queue)), workUnitInterval, now)
      ensures grants == old(grants) + DispatchGrants(old(Line(committedUntil, queue)), workUnitInterval, now)
      ensures old(queue[0]).granted && !old(queue[0].granted) && committedUntil > now
    {
      var request := queue[0];
      ghost var g := Grant(request, request.readyAt, request.endAt);
      WaitingIsAccepted(accepted, cancelled, grants, queue, 0);
      Monotone(1, request.weight, workUnitInterval);
      GrantInOrder(accepted, cancelled, grants, queue, g);
      DisjointAppend(grants, g, workUnitInterval);
      RequestsAppend(grants, g);
      LineIsDistinct();
      queue := queue[1..];
      committedUntil := request.endAt;
      grants := grants + [g];
      request.granted := true;
    }

    /** Schedules the line, and grants the head if its slot is not ahead. */
    method DispatchHead(now: int) returns (waits: bool)
      requires Sound() && Ungranted() && AllGranted() && queue != []
      modifies this`queue, this`committedUntil, this`grants, queue
      ensures Sound() && Ungranted() && AllGranted()
      ensures waits <==> old(committedUntil) > now
      ensures waits ==> Scheduled() && unchanged(this) && committedUntil > now
      ensures !waits ==>
                && old(queue[0]).granted && committedUntil > now && queue == old(queue)[1..]
                && Line(committedUntil, queue) == Dispatched(old(Line(committedUntil, queue)), workUnitInterval, now)
                && grants == old(grants) + DispatchGrants(old(Line(committedUntil, queue)), workUnitInterval, now)
    {
      LineIsDistinct();
      ScheduleQueued(now);
      ghost var first := if committedUntil > now then committedUntil else now;
      SlotAt(queue, workUnitInterval, first, first + TotalWeight(queue) * workUnitInterval, 0);
      // A slot is never scheduled before the present, so the code's branch for
      // late slots is not needed.
      assert queue[0].readyAt >= now;
      waits := queue[0].readyAt > now;
      if !waits {
        GrantHead(now);
      }
    }

    /** `dispatchLocked`: grants the head if and only if committed work is over,
        and at most one request; afterwards whoever leads the line waits for a
        slot in the future. */
    method DispatchLocked(now: int)
      requires Sound() && Ungranted() && AllGranted()
      modifies this`queue, this`committedUntil, this`grants, queue
      ensures Valid()
      ensures Line(committedUntil, queue) == Dispatched(old(Line(committedUntil, queue)), workUnitInterval, now)
      ensures grants == old(grants) + DispatchGrants(old(Line(committedUntil, queue)), workUnitInterval, now)
      ensures queue != [] ==> committedUntil > now
      ensures forall r | r in old(queue) && r !in queue :: r.granted
    {
      ghost var line := Line(committedUntil, queue);
      while queue != []
        invariant Sound() && Ungranted() && AllGranted()
        invariant
          || unchanged(this)
          || (
            && line.waiting != [] && line.waiting[0].granted && committedUntil > now && queue == line.waiting[1..]
            && Line(committedUntil, queue) == Dispatched(line, workUnitInterval, now)
            && grants == old(grants) + DispatchGrants(line, workUnitInterval, now))
        decreases |queue|
      {
        var waits := DispatchHead(now);
        if waits {
          return;
        }
      }
    }

    /** Where a waiting request stands: behind the committed work and all the
        work ahead of it in line. What comes behind it does not enter. */
    lemma WaitingSlot(k: nat)
      requires Valid() && k < |queue|
      ensures queue[k].readyAt == committedUntil + TotalWeight(queue[..k]) * workUnitInterval
    {
      SlotAt(queue, workUnitInterval, committedUntil, committedUntil + TotalWeight(queue) * workUnitInterval, k);
    }

    /** The rate, for whatever was enqueued, cancelled and dispatched at whatever
        clock readings: of the grants `i` to `j`, which start within `length`
        nanoseconds, all but the last take no more than the share of `length`. */
    lemma RateHolds(i: nat, j: nat, length: nat)
      requires Sound() && i <= j < |grants| && grants[j].start - grants[i].start <= length
      ensures GrantedWeight(grants[i..j]) <= length / workUnitInterval
      ensures GrantedWeight(grants[i..j + 1]) <= length / workUnitInterval + capacity
    {
      forall k | 0 <= k < |grants| ensures grants[k].request.weight <= capacity {
        GrantedIsAccepted(accepted, cancelled, grants, queue, k);
      }
      GrantsPerSpan(grants, workUnitInterval, capacity, i, j, length);
    }

    /** Puts a new request at the end of the line. */
    method Accept(weight: nat) returns (request: PollRequest)
      requires Sound() && Ungranted() && AllGranted() && 0 < weight <= capacity
      modifies this`queue, this`accepted
      ensures Sound() && Ungranted() && AllGranted() && fresh(request) && request.weight == weight
      ensures request !in cancelled
      ensures queue == old(queue) + [request] && accepted == old(accepted) + [request]
    {
      request := new PollRequest(weight);
      AcceptInOrder(accepted, cancelled, grants, queue, request);
      queue := queue + [request];
      accepted := accepted + [request];
    }

    /** What `enqueue` does under its mutex. */
    method Join(weight: nat, now: int) returns (request: PollRequest)
      requires Valid() && 0 < weight <= capacity
      modifies this`queue, this`committedUntil, this`grants, this`accepted, queue
      ensures Valid() && fresh(request) && request.weight == weight && accepted == old(accepted) + [request]
      ensures request !in cancelled
      ensures var line := Line(old(committedUntil), old(queue) + [request]);
              && Line(committedUntil, queue) == Dispatched(line, workUnitInterval, now)
              && grants == old(grants) + DispatchGrants(line, workUnitInterval, now)
              && (queue != [] ==> committedUntil > now)
    {
      request := Accept(weight);
      DispatchLocked(now);
    }

    /** `enqueue`: a valid weight joins the end of the line, which is then
        dispatched once; anything else changes nothing. */
    method Enqueue(weight: int, now: int) returns (result: Result<PollRequest, ScheduleError>)
      requires Valid()
      modifies this`queue, this`committedUntil, this`grants, this`accepted, queue
      ensures Valid()
      ensures weight <= 0 ==> result == Err(InvalidWeight)
      ensures weight > capacity ==> result == Err(ResourceExhausted)
      ensures result.Err? ==> !(0 < weight <= capacity) && unchanged(this) && unchanged(old(queue))
      ensures result.Ok? ==>
                var line := Line(old(committedUntil), old(queue) + [result.value]);
                && fresh(result.value) && result.value.weight == weight
                && accepted == old(accepted) + [result.value] && result.value !in cancelled
                && Line(committedUntil, queue) == Dispatched(line, workUnitInterval, now)
                && grants == old(grants) + DispatchGrants(line, workUnitInterval, now)
                && (queue != [] ==> committedUntil > now)
    {
      if weight <= 0 {
        return Err(InvalidWeight);
      }
      if weight > capacity {
        return Err(ResourceExhausted);
      }
      var request := Join(weight, now);
      return Ok(request);
    }

    /** Takes the request at `index` out of the line. */
    method Withdraw(index: nat)
      requires Sound() && Ungranted() && AllGranted() && index < |queue|
      modifies this`queue, this`cancelled
      ensures Sound() && Ungranted() && AllGranted()
      ensures queue == Without(old(queue), old(queue[index])) == old(Cut(queue, index))
      ensures cancelled == old(cancelled) + {old(queue[index])}
    {
      WithdrawInOrder(accepted, cancelled, grants, queue, index);
      cancelled := cancelled + {queue[index]};
      queue := queue[..index] + queue[index + 1..];
    }

    /** `cancel`: a waiting request leaves the line and the next is considered; a
        request already granted, or unknown, changes nothing. */
    method Cancel(request: PollRequest, now: int)
      requires Valid()
      modifies this`queue, this`committedUntil, this`grants, this`cancelled, queue
      ensures Valid()
      ensures request !in old(queue) ==> unchanged(this) && unchanged(old(queue))
      ensures request in old(queue) ==>
                var line := Line(old(committedUntil), Without(old(queue), request));
                && cancelled == old(cancelled) + {request}
                && Line(committedUntil, queue) == Dispatched(line, workUnitInterval, now)
                && grants == old(grants) + DispatchGrants(line, workUnitInterval, now)
    {
      var index := 0;
      while index < |queue|
        invariant index <= |queue| && request !in queue[..index]
        invariant unchanged(this) && unchanged(old(queue))
      {
        if queue[index] == request {
          Withdraw(index);
          DispatchLocked(now);
          return;
        }
        index := index + 1;
      }
    }

    /** An accepted request that was not cancelled has its slot if and only if its
        grant was closed, and waits in line if and only if not. */
    lemma GrantedOrWaiting(r: PollRequest)
      requires Valid() && r in accepted && r !in cancelled
      ensures r.granted <==> r in Requests(grants)
      ensures r.granted <==> r !in queue
    {
      UncancelledKeeps(accepted, cancelled, r);
      assert r in Requests(grants) + queue;
    }

    /** The end of one round of `wait`: the timer fires and the line is
        dispatched; or the grant is taken; or the context has ended, and the
        request is cancelled, even if its grant was there to be taken, too. Then
        the slot is given back if and only if it had not been granted. */
    method EndRound(request: PollRequest, ready: Ready, now: int) returns (result: Option<WaitResult>)
      requires Valid() && request in accepted && request !in cancelled
      requires ready.GrantClosed? ==> request.granted
      modifies this`queue, this`committedUntil, this`grants, this`cancelled, queue
      ensures Valid()
      ensures ready.GrantClosed? ==> result == Some(Admitted) && unchanged(this) && unchanged(old(queue))
      ensures ready.TimerFired? ==>
                && result == None && cancelled == old(cancelled)
                && Line(committedUntil, queue) == Dispatched(old(Line(committedUntil, queue)), workUnitInterval, now)
                && grants == old(grants) + DispatchGrants(old(Line(committedUntil, queue)), workUnitInterval, now)
      ensures ready.ContextDone? ==>
                && result == Some(WaitCanceled)
                && (request in Requests(grants) <==> old(request.granted))
                && (if old(request.granted) then unchanged(this) && unchanged(old(queue))
                    else
                      var line := Line(old(committedUntil), Without(old(queue), request));
                      && cancelled == old(cancelled) + {request}
                      && Line(committedUntil, queue) == Dispatched(line, workUnitInterval, now)
                      && grants == old(grants) + DispatchGrants(line, workUnitInterval, now))
    {
      GrantedOrWaiting(request);
      match ready
      case GrantClosed =>
        result := Some(Admitted);
      case TimerFired =>
        DispatchLocked(now);
        result := None;
      case ContextDone =>
        Cancel(request, now);
        CancelledIsGone(request);
        result := Some(WaitCanceled);
    }

    lemma CancelledIsGone(r: PollRequest)
      requires Sound()
      ensures r in cancelled ==> r !in Requests(grants) && r !in queue
    {
      if r in cancelled {
        UncancelledDrops(accepted, cancelled, r);
        var line := Requests(grants) + queue;
        assert forall k | 0 <= k < |queue| :: queue[k] == line[|grants| + k];
        assert forall k | 0 <= k < |grants| :: Requests(grants)[k] == line[k];
      }
    }

    /** `nextWakeupLocked`: a positive wait, to the head's slot if there is one
        ahead. */
    method NextWakeup(now: int) returns (wait: int)
      requires Valid()
      ensures wait > 0
      ensures if queue != [] && committedUntil > now then now + wait == committedUntil else wait == 1
    {
      if queue == [] {
        return 1;
      }
      WaitingSlot(0);
      wait := queue[0].readyAt - now;
      if wait <= 0 {
        return 1;
      }
    }

    /** `dispatchAndNextWakeup`: one dispatch, then a timer that ends exactly when
        the next dispatch will grant the head. */
    method DispatchAndNextWakeup(now: int) returns (wait: int)
      requires Valid()
      modifies this`queue, this`committedUntil, this`grants, queue
      ensures Valid() && wait > 0
      ensures Line(committedUntil, queue) == Dispatched(old(Line(committedUntil, queue)), workUnitInterval, now)
      ensures grants == old(grants) + DispatchGrants(old(Line(committedUntil, queue)), workUnitInterval, now)
      ensures queue != [] ==> now + wait == committedUntil
      ensures queue != [] ==>
                Dispatched(Line(committedUntil, queue), workUnitInterval, now + wait).waiting == queue[1..]
    {
      DispatchLocked(now);
      wait := NextWakeup(now);
    }
  }

  /** A request that finds an idle line is granted at once. */
  method EnqueueIdle(scheduler: PollScheduler, weight: nat, now: int) returns (request: PollRequest)
    requires scheduler.Valid() && scheduler.queue == [] && scheduler.committedUntil <= now
    requires 0 < weight <= scheduler.capacity
    modifies scheduler
    ensures scheduler.Valid() && scheduler.queue == [] && request.granted
    ensures request in scheduler.accepted && request !in scheduler.cancelled
    ensures scheduler.committedUntil == now + weight * scheduler.workUnitInterval > now
  {
    Monotone(1, weight, scheduler.workUnitInterval);
    var enqueued := scheduler.Enqueue(weight, now);
    request := enqueued.value;
    scheduler.GrantedOrWaiting(request);
  }

  /** A wait that is cancelled although its slot was granted: the request is
      enqueued on an idle line, and its context ends before the grant is taken.
      The wait reports the cancellation, and the slot is spent all the same. */
  method CanceledGrantKeepsItsSlot(scheduler: PollScheduler, weight: nat, now: int)
    returns (request: PollRequest, result: Option<WaitResult>)
    requires scheduler.Valid() && scheduler.queue == [] && scheduler.committedUntil <= now
    requires 0 < weight <= scheduler.capacity
    modifies scheduler
    ensures scheduler.Valid() && result == Some(WaitCanceled) && request in Requests(scheduler.grants)
    ensures scheduler.committedUntil == now + weight * scheduler.workUnitInterval > now
  {
    request := EnqueueIdle(scheduler, weight, now);
    var wakeup := scheduler.DispatchAndNextWakeup(now);
    scheduler.GrantedOrWaiting(request);
    result := scheduler.EndRound(request, ContextDone, now);
  }

  /** At one instant of a run with the default budget: a sixty-fourth of a second
      is gone for a poll that was never made. */
  method DefaultBudgetLosesASlot() returns (scheduler: PollScheduler, result: Option<WaitResult>)
    ensures result == Some(WaitCanceled) && scheduler.committedUntil == 15_625_000
  {
    var created := NewPollScheduler(64, 1_000_000_000, 0);
    scheduler := created.value;
    var request;
    request, result := CanceledGrantKeepsItsSlot(scheduler, 1, 0);
  }

  /** `newSubscriptionPollScheduler`, whose window and capacity must leave every
      unit of work at least a nanosecond. */
  method NewPollScheduler(capacity: int, window: int, now: int) returns (result: Result<PollScheduler, ScheduleError>)
    ensures result.Ok? <==> 0 < capacity <= window
    ensures result.Ok? ==> fresh(result.value) && result.value.Valid() && result.value.capacity == capacity
    ensures result.Ok? ==> result.value.workUnitInterval == window / capacity && result.value.cancelled == {}
    ensures result.Ok? ==> result.value.queue == [] && result.value.grants == [] && result.value.committedUntil == now
    ensures result.Err? ==> result.error == InvalidConfig
  {
    if capacity <= 0 || window <= 0 {
      return Err(InvalidConfig);
    }
    UnitIsPositive(capacity, window);
    if window / capacity <= 0 {
      return Err(InvalidConfig);
    }
    var scheduler := new PollScheduler(capacity, window, now);
    return Ok(scheduler);
  }
}
