/**
 The two algorithms that rank the ready queue: priority aging serves a process with
 slice left before any new epoch, and shortest-job-first keeps its queue sorted by
 estimates that do not change while a process waits.
 */
module SchedulerPriorities {
  import opened SchedulerState
  import opened SchedulerQueues
  import opened SchedulerRuns
  import opened SchedulerSafety
  import opened SchedulerFairness
  import opened SetSizes

  // -------------------------------------------------- entering a decision

  /** The record of the current process once the event has taken the CPU from it. */
  ghost function Leaving(s: KState, e: Event): Proc
    requires Shaped(s)
  {
    var p := s.procs[s.current];
    match e
    case Blocked(st, _) => p.(state := st)
    case Awaited(t, _) => p.(state := WAITING_ANOTHER_PROCESS, pidToWait := t)
    case Exited(_) => p.(state := ZOMBIE)
    case _ => p
  }

  /** The state in which the decision that ends an event is taken. */
  ghost function Entry(s: KState, e: Event): KState
    requires Shaped(s)
  {
    var u := WithProc(s, s.current, Leaving(s, e));
    match e
    case Ticked(_) =>
      var v := CountTick(s);
      WithProc(v, v.current, v.procs[v.current].(counter := 0))
    case Exited(_) => Rest(WakeWaiters(u, s.current, 0))
    case _ => Rest(u)
  }

  ghost function DrawsOf(e: Event): seq<nat> {
    match e
    case Ticked(draws) => draws
    case Yielded(draws) => draws
    case Blocked(_, draws) => draws
    case Awaited(_, draws) => draws
    case Exited(draws) => draws
    case _ => []
  }

  /** A decision is entered with the slice of the current process used up and everybody else's untouched. */
  ghost predicate Entered(s: KState, u: KState) {
    && Consistent(u) && PositivePriorities(u.procs)
    && |u.procs| == |s.procs| && u.current == s.current < |s.procs| && u.algorithm == s.algorithm
    && u.procs[u.current].counter == 0
    && (forall x :: 0 <= x < |s.procs| && x != s.current ==>
          u.procs[x].counter == s.procs[x].counter && u.procs[x].pending == s.procs[x].pending
          && u.procs[x].estBurst == s.procs[x].estBurst && (s.procs[x].state == READY ==> u.procs[x].state == READY))
  }

  lemma RestEntered(s: KState, u: KState)
    requires Consistent(u) && |u.procs| == |s.procs| && u.current == s.current && u.algorithm == s.algorithm
    requires forall x :: 0 <= x < |s.procs| && x != s.current ==>
               u.procs[x].counter == s.procs[x].counter && u.procs[x].pending == s.procs[x].pending
               && u.procs[x].estBurst == s.procs[x].estBurst
                  && (s.procs[x].state == READY ==> u.procs[x].state == READY)
    ensures Entered(s, Rest(u))
    ensures forall draws :: Room(u, draws) || |u.queues[READY_QUEUE]| < |draws| ==>
              |Rest(u).queues[READY_QUEUE]| < |draws|
  {
    hide Linked, Links, PositivePriorities, Halved;
    var p := u.procs[u.current];
    var r := if u.current != INIT && p.state != RUNNING && p.state != READY then EndBurst(p) else p;
    SaneAt(u, u.current);
    EndedSane(p);
    RecordKeeps(u, u.current, r.(counter := 0));
    Priorities(Rest(u));
  }

  /** The state in which a decision looks at the queue. */
  ghost function Deciding(s: KState, e: Event): KState
    requires Shaped(s) && Shaped(Entry(s, e))
  {
    var u := Entry(s, e);
    Park(AddPreempt(u, u.current, 1))
  }

  lemma EntryFacts(s: KState, e: Event)
    requires Invariant(s) && PositivePriorities(s.procs) && Enabled(s, e) && Picks(s, e)
    ensures Entered(s, Entry(s, e)) && |Entry(s, e).queues[READY_QUEUE]| < |DrawsOf(e)|
    ensures PositivePriorities(Entry(s, e).procs)
    ensures After(s, e) == Pick(Entry(s, e), DrawsOf(e))
  {
    hide Linked, Links, PositivePriorities, Sane, WakeWaiters, CountTick, Pick;
    SaneAt(s, s.current);
    if e.Ticked? {
      CountTickKeeps(s);
      var v := CountTick(s);
      SaneAt(v, v.current);
      var p := v.procs[v.current].(counter := 0);
      StaysSane(v.procs[v.current], p);
      RecordKeeps(v, v.current, p);
      Priorities(WithProc(v, v.current, p));
    } else if e.Yielded? {
      assert WithProc(s, s.current, Leaving(s, e)) == s;
      RestEntered(s, s);
    } else {
      var y := Leaving(s, e);
      StaysSane(s.procs[s.current], y);
      LeavesKeeps(s, y);
      var u := WithProc(s, s.current, y);
      if e.Exited? {
        WakeWaitersKeeps(u, s.current, 0);
        RestEntered(s, WakeWaiters(u, s.current, 0));
      } else {
        RestEntered(s, u);
      }
    }
  }

  // ---------------------------------------------------------------- aging

  /** Recharging never takes a counter above what it was or twice the priority. */
  lemma RechargeBound(p: Proc)
    ensures Recharge(p).counter <= (if p.counter >= 2 * p.priority then p.counter else 2 * p.priority)
    ensures p.priority >= 1 && p.counter <= 0 ==> Recharge(p).counter > p.counter
  {
  }

  /** The winner has slice left, and nobody who stays in the queue has more. */
  lemma {:induction false} AgingWinner(s: KState)
    requires Shaped(s) && PositivePriorities(s.procs)
    ensures var (v, i) := SelectAging(s);
            i != INIT ==> v.procs[i].counter > 0 && forall k :: 0 <= k < |v.queues[READY_QUEUE]| ==>
                            v.procs[v.queues[READY_QUEUE][k]].counter <= v.procs[i].counter
    decreases |s.queues[READY_QUEUE]|, Deficit(s)
  {
    hide Swept, Epoch, PositivePriorities, Deficit, Best;
    var v := Swept(s);
    var q := v.queues[READY_QUEUE];
    var j := Best(v.procs, q, |q|);
    if j == |q| && q != [] {
      EpochRaises(s);
      AgingWinner(Epoch(v));
    }
  }

  ghost predicate SameCounters(procs: seq<Proc>, others: seq<Proc>) {
    |others| == |procs| && forall x :: 0 <= x < |procs| ==> others[x].counter == procs[x].counter
  }

  /** While a process that survives its signals has slice left, no epoch is started. */
  lemma NoEpoch(s: KState, k: nat)
    requires Shaped(s) && PositivePriorities(s.procs) && k < |s.queues[READY_QUEUE]|
    requires var p := s.procs[s.queues[READY_QUEUE][k]]; Survives(p) && p.counter > 0
    ensures var (v, j) := SelectAging(s);
            j != INIT && s.procs[j].counter > 0 && SameCounters(s.procs, v.procs)
  {
    hide Best, Survivors, Linked, Links, Delivered, PositivePriorities;
    SweptSame(s);
    var q := s.queues[READY_QUEUE];
    SurvivorStays(s.procs, q, q[k]);
    var v := Swept(s);
    var r := v.queues[READY_QUEUE];
    var n :| 0 <= n < |r| && r[n] == q[k];
    assert v.procs[r[n]].counter > 0;
    assert Best(v.procs, r, |r|) < |r|;
    hide Swept, Delivered;
  }

  lemma {:induction false} SurvivorStays(procs: seq<Proc>, q: seq<nat>, i: nat)
    requires forall k :: 0 <= k < |q| ==> q[k] < |procs|
    requires i in q && i < |procs| && Survives(procs[i])
    ensures i in Survivors(procs, q)
  {
    if i != q[0] {
      SurvivorStays(procs, q[1..], i);
    }
  }

  /** A process that a signal ends is out of the queue whatever the selection does next. */
  lemma AgingDrops(s: KState, i: nat)
    requires Shaped(s) && PositivePriorities(s.procs) && Linked(s, INIT) && Placed(s) && !s.algorithm.Multilevel()
    requires i < |s.procs| && i in s.queues[READY_QUEUE] && !Survives(s.procs[i])
    ensures Ended(SelectAging(s).0, i)
  {
    hide Linked, Best, Survivors, Epoch, PositivePriorities;
    SweptLinks(s);
    var v := Swept(s);
    assert Ended(v, i);
    hide Swept;
    var q := v.queues[READY_QUEUE];
    if Best(v.procs, q, |q|) == |q| && q != [] {
      EpochRaises(s);
      EpochLinks(v);
      AgingLinks(Epoch(v));
      var w := SelectAging(Epoch(v)).0;
      AllDecidedTwice(v, Epoch(v), w);
      assert Decided(v.procs[i], w.procs[i]);
    }
  }

  lemma QueuedInReady(s: KState, i: nat) returns (k: nat)
    requires Shaped(s) && Linked(s, INIT) && Placed(s) && !s.algorithm.Multilevel() && IsReady(s, i)
    ensures k < |s.queues[READY_QUEUE]| && s.queues[READY_QUEUE][k] == i
  {
    hide Linked;
    LinkedLists(s);
    var l :| 0 <= l < N_QUEUES && InQueue(s.queues, l, i);
    k :| 0 <= k < |s.queues[l]| && s.queues[l][k] == i;
  }

  /** The selection serves somebody with slice left, or starts an epoch, which leaves no counter at 0. */
  ghost predicate Outcome(s: KState, v: KState, j: nat) {
    && |v.procs| == |s.procs|
    && (|| (SameCounters(s.procs, v.procs) && (j == INIT || (j < |s.procs| && s.procs[j].counter > 0)))
        || forall x :: 0 <= x < |s.procs| && s.procs[x].counter >= 0 ==> v.procs[x].counter >= 1)
  }

  lemma {:induction false} AgingOutcome(s: KState)
    requires Shaped(s) && PositivePriorities(s.procs)
    ensures var (v, j) := SelectAging(s); Outcome(s, v, j)
    decreases |s.queues[READY_QUEUE]|, Deficit(s)
  {
    hide Swept, Deficit, Best;
    SweptSame(s);
    var v := Swept(s);
    var q := v.queues[READY_QUEUE];
    var j := Best(v.procs, q, |q|);
    if j == |q| && q != [] {
      EpochRaises(s);
      AgingOutcome(Epoch(v));
    }
  }

  /** A decision keeps counters that are not negative so, and passes over a ready process only in two ways. */
  lemma AgingPick(u: KState, draws: seq<nat>)
    requires Consistent(u) && PositivePriorities(u.procs) && |u.queues[READY_QUEUE]| < |draws|
             && u.algorithm == PRIORITY_AGING
    ensures Outcome(u, Pick(u, draws), Pick(u, draws).current)
  {
    hide Linked, SelectAging, Park, Undecided, Selected, Sane, PositivePriorities, Placed;
    var b, c, next := PickSteps(u, draws);
    PreemptKeeps(u, u.current, 1);
    ParkLinks(AddPreempt(u, u.current, 1));
    UndecidedFacts(b, INIT);
    SelectedFacts(b, c, next);
    SwitchRecords(c, next);
    AgingOutcome(b);
  }

  /** A decision that finds a ready process does not idle. */
  lemma AgingServesSomebody(u: KState, draws: seq<nat>, i: nat)
    requires Consistent(u) && PositivePriorities(u.procs) && |u.queues[READY_QUEUE]| < |draws|
             && u.algorithm == PRIORITY_AGING
    requires IsReady(u, i)
    ensures var v := Pick(u, draws); Ended(v, i) || v.current != INIT
  {
    hide Linked, SelectAging, Park, Undecided, Selected, Sane, PositivePriorities, Placed;
    var b, c, next := PickSteps(u, draws);
    PreemptKeeps(u, u.current, 1);
    ParkLinks(AddPreempt(u, u.current, 1));
    UndecidedFacts(b, INIT);
    SelectedFacts(b, c, next);
    SwitchRecords(c, next);
    PickEffects(u, draws);
    assert Redecided(u, Pick(u, draws), i);
    if next == INIT {
      IdleMeansNone(b, c);
      assert !IsReady(c, i);
      assert Pick(u, draws).procs[i].state == c.procs[i].state;
    }
  }

  /** While a ready process has slice left its decisions start no epoch, and serve somebody with slice left. */
  lemma AgingSameEpoch(u: KState, draws: seq<nat>, i: nat)
    requires Consistent(u) && PositivePriorities(u.procs) && |u.queues[READY_QUEUE]| < |draws|
             && u.algorithm == PRIORITY_AGING
    requires IsReady(u, i) && u.procs[i].counter > 0
    ensures var v := Pick(u, draws);
            || Ended(v, i)
            || (v.current < |u.procs| && u.procs[v.current].counter > 0 && SameCounters(u.procs, v.procs))
  {
    hide Linked, SelectAging, Park, Undecided, Selected, Sane, PositivePriorities, Placed;
    var b, c, next := PickSteps(u, draws);
    PreemptKeeps(u, u.current, 1);
    ParkLinks(AddPreempt(u, u.current, 1));
    UndecidedFacts(b, INIT);
    assert IsReady(b, i) && b.procs[i].counter > 0 && b.procs[i].pending == u.procs[i].pending;
    var k := QueuedInReady(b, i);
    SelectedFacts(b, c, next);
    SwitchRecords(c, next);
    if Survives(b.procs[i]) {
      NoEpoch(b, k);
    } else {
      AgingDrops(b, i);
    }
  }

  /** The processes that wait with slice left. */
  ghost function Charged(s: KState): set<nat> {
    set x: nat | x < |s.procs| && x != s.current && s.procs[x].counter > 0
  }

  /** How many decisions can still pass over a process with slice left. */
  ghost function PassesLeft(s: KState): int {
    |Charged(s)| + N_PROCESSES - |s.procs|
  }

  /** That number is at most 63. */
  lemma PassesBound(s: KState)
    requires Shaped(s)
    ensures 0 <= PassesLeft(s) <= 63
  {
    BelowSize(|s.procs|);
    assert s.current in Below(|s.procs|);
    SubsetSize(Charged(s), Below(|s.procs|) - {s.current});
  }

  /** No counter but that of the current process is negative. */
  ghost predicate NonNegative(s: KState) {
    forall x :: 0 <= x < |s.procs| && x != s.current ==> s.procs[x].counter >= 0
  }

  /** How many decisions can still pass over a ready process: until the next epoch, and after it. */
  ghost function TurnsLeft(s: KState, i: nat): int
    requires i < |s.procs|
  {
    PassesLeft(s) + if s.procs[i].counter > 0 then 0 else 64
  }

  lemma AgingPickStep(s: KState, e: Event, i: nat)
    requires Invariant(s) && PositivePriorities(s.procs) && Enabled(s, e) && s.algorithm == PRIORITY_AGING
             && Picks(s, e)
    requires NonNegative(s) && IsReady(s, i)
    ensures var v := After(s, e);
            && NonNegative(v) && Shaped(v)
            && (v.current == i || Ended(v, i) || (IsReady(v, i) && TurnsLeft(v, i) < TurnsLeft(s, i)))
  {
    hide Linked, Links, PositivePriorities, Sane, After, Entry, Placed, Pick, Enabled, Picks, PassesLeft;
    EntryFacts(s, e);
    var u := Entry(s, e);
    var v := Pick(u, DrawsOf(e));
    AgingPick(u, DrawsOf(e));
    AgingServesSomebody(u, DrawsOf(e), i);
    if u.procs[i].counter > 0 {
      AgingSameEpoch(u, DrawsOf(e), i);
    }
    PickEffects(u, DrawsOf(e));
    assert Redecided(u, v, i);
    PassesBound(s);
    PassesBound(v);
    if SameCounters(u.procs, v.procs) && v.current < |u.procs| && u.procs[v.current].counter > 0 {
      OnePass(s, u, v);
    }
  }

  lemma OnePass(s: KState, u: KState, v: KState)
    requires Entered(s, u) && SameCounters(u.procs, v.procs) && v.current < |u.procs| && u.procs[v.current].counter > 0
    ensures PassesLeft(v) < PassesLeft(s)
  {
    assert Charged(v) == Charged(s) - {v.current};
    assert v.current in Charged(s);
  }

  /** The counters stay as they should be, and a ready process comes nearer to its turn with every decision. */
  lemma AgingStep(s: KState, e: Event, i: nat)
    requires Invariant(s) && PositivePriorities(s.procs) && Enabled(s, e) && s.algorithm == PRIORITY_AGING
    requires NonNegative(s) && IsReady(s, i)
    ensures var v := After(s, e);
            && NonNegative(v) && Shaped(v)
            && (|| v.current == i || Ended(v, i)
                || (IsReady(v, i) && TurnsLeft(v, i) <= TurnsLeft(s, i) - if Picks(s, e) then 1 else 0))
  {
    hide Linked, Links, PositivePriorities, Sane, After, Placed, PassesLeft, Picks, Enabled;
    if Picks(s, e) {
      AgingPickStep(s, e, i);
    } else {
      QuietCharges(s, e);
      StepKeeps(s, e);
    }
  }

  /** The same without a process to look at. */
  lemma CountersKept(s: KState, e: Event)
    requires Invariant(s) && PositivePriorities(s.procs) && Enabled(s, e) && s.algorithm == PRIORITY_AGING
             && NonNegative(s)
    ensures NonNegative(After(s, e))
  {
    hide Linked, Links, PositivePriorities, Sane, After, Placed, PassesLeft, Picks, Enabled, Entry, Pick;
    if Picks(s, e) {
      EntryFacts(s, e);
      AgingPick(Entry(s, e), DrawsOf(e));
    } else {
      QuietCharges(s, e);
    }
  }

  /** Apart from the current process and a process that is woken, records keep their state and counter. */
  ghost predicate QuietlyKept(s: KState, e: Event, v: KState) {
    && v.current == s.current && |s.procs| <= |v.procs|
    && (forall x :: 0 <= x < |s.procs| && x != s.current ==>
          v.procs[x].counter == s.procs[x].counter
            && v.procs[x].state == if e == Woken(x) then READY else s.procs[x].state)
    && forall x :: |s.procs| <= x < |v.procs| ==> v.procs[x].counter > 0
  }

  lemma QuietFork(s: KState, memory: bool)
    requires Invariant(s)
    ensures var v := Fork(s, memory).0;
            PassesLeft(v) <= PassesLeft(s) && QuietlyKept(s, Forked(memory), v)
  {
    hide Linked, Links, Sane, Enqueue, Placed, Consistent, PassesLeft;
    InvariantFacts(s);
    ConsistentFacts(s);
    var v := Fork(s, memory).0;
    ForkSteps(s, memory);
    if Fails(s, Forked(memory)) {
      SameCharges(s, v);
    } else {
      hide Fork;
      OneMoreCharged(s, v);
    }
  }

  lemma OneMoreCharged(s: KState, v: KState)
    requires |v.procs| == |s.procs| + 1 && v.current == s.current < |s.procs|
    requires forall x :: 0 <= x < |s.procs| && x != s.current ==> v.procs[x].counter == s.procs[x].counter
    requires v.procs[|s.procs|].counter > 0
    ensures PassesLeft(v) <= PassesLeft(s)
  {
    assert Charged(v) == Charged(s) + {|s.procs|};
  }

  lemma SameCharges(s: KState, v: KState)
    requires |v.procs| == |s.procs| && v.current == s.current
    requires forall x :: 0 <= x < |s.procs| && x != s.current ==> v.procs[x].counter == s.procs[x].counter
    ensures PassesLeft(v) == PassesLeft(s)
  {
    assert Charged(v) == Charged(s);
  }

  lemma QuietCharges(s: KState, e: Event)
    requires Invariant(s) && PositivePriorities(s.procs) && Enabled(s, e) && s.algorithm == PRIORITY_AGING
             && !Picks(s, e)
    ensures PassesLeft(After(s, e)) <= PassesLeft(s) && QuietlyKept(s, e, After(s, e))
  {
    hide Linked, Links, PositivePriorities, Sane, Schedule, Enqueue, Block, Exit, Placed, Fork, CountTick, PassesLeft,
      Pick;
    var v := After(s, e);
    match e
    case Ticked(draws) =>
      CountTickKeeps(s);
      SameCharges(s, v);
    case Forked(memory) => QuietFork(s, memory);
    case Woken(i) =>
      SaneAt(s, i);
      StaysSane(s.procs[i], s.procs[i].(state := READY));
      WakeKeeps(s, i, s.procs[i].(state := READY));
      SameCharges(s, v);
    case Awaited(_, _) =>
    case Sent(_, _) =>
      SameCharges(s, v);
    case Configured(_, _, _) =>
      SameCharges(s, v);
  }

  lemma {:induction false} RunNonNegative(states: seq<KState>, events: seq<Event>, n: nat)
    requires Run(states, events) && n <= |events| && states[0].algorithm == PRIORITY_AGING
    ensures NonNegative(states[n]) && states[n].algorithm == PRIORITY_AGING
  {
    hide Invariant, Enabled, After, AllStepped;
    if n > 0 {
      RunNonNegative(states, events, n - 1);
      RunFacts(states, events, n - 1);
      CountersKept(states[n - 1], events[n - 1]);
    }
  }

  lemma {:induction false} TurnComes(states: seq<KState>, events: seq<Event>, a: nat, b: nat, i: nat)
    requires Run(states, events) && a <= b <= |events| && states[0].algorithm == PRIORITY_AGING
    requires IsReady(states[a], i) && Decisions(states, events, a, b) > TurnsLeft(states[a], i)
    ensures Served(states, a, b, i)
    decreases b - a
  {
    hide Invariant, Enabled, After, Start, Run, Picks, AllStepped, PassesLeft, IsReady;
    RunFacts(states, events, a);
    RunNonNegative(states, events, a);
    PassesBound(states[a]);
    AgingStep(states[a], events[a], i);
    if !ServedAt(states, a + 1, i) {
      TurnComes(states, events, a + 1, b, i);
      var m :| a + 1 < m <= b && ServedAt(states, m, i);
      assert a < m <= b && ServedAt(states, m, i);
    }
  }

  /**
   Main result: under priority aging every ready process is dispatched, killed or
   stopped within 128 decisions, whatever its priority and whatever else arrives.
   */
  lemma AgingServes(states: seq<KState>, events: seq<Event>, a: nat, b: nat, i: nat)
    requires Run(states, events) && a <= b <= |events| && states[0].algorithm == PRIORITY_AGING
    requires 0 < i < |states[a].procs| && states[a].procs[i].state == READY
    requires Decisions(states, events, a, b) >= 128
    ensures Served(states, a, b, i)
  {
    hide Invariant, Run, Start, Decisions, PassesLeft;
    RunFacts(states, events, a);
    PassesBound(states[a]);
    TurnComes(states, events, a, b, i);
  }
}
