/**
 Bounded waiting: under the FIFO policies the process at position `p` of the queue
 that is looked at first is dispatched within `p + 1` decisions, and under the
 feedback queues no ready process waits for more than a fixed number of ticks.
 */
module SchedulerFairness {
  import opened SchedulerState
  import opened SchedulerQueues
  import opened SchedulerRuns
  import opened SchedulerSafety
  import opened SetSizes

  /** The algorithms that take from the head of a queue filled at its tail. */
  predicate Fifo(a: Algorithm) {
    a == ROUND_ROBIN || a == FCFS || a == MLQ || a == MLFQ
  }

  /** The queue that a decision looks at first. */
  function Front(a: Algorithm): (k: nat)
    ensures k < N_QUEUES
  {
    if a.Multilevel() then 1 else READY_QUEUE
  }

  ghost predicate Holds(s: KState, k: nat, p: nat, i: nat) {
    k < |s.queues| && p < |s.queues[k]| && s.queues[k][p] == i
  }

  /** Killed or stopped by a signal. */
  ghost predicate Ended(s: KState, i: nat) {
    i < |s.procs| && s.procs[i].state in {ZOMBIE, STOPPED}
  }

  /** The process is nearer to the head of the queue than position `p`. */
  ghost predicate Nearer(s: KState, k: nat, p: nat, i: nat) {
    exists r: nat :: r < p && Holds(s, k, r, i)
  }

  // ------------------------------------------------------------ decisions

  lemma TakeReadyPlace(s: KState, k: nat, p: nat, i: nat)
    requires Shaped(s) && Linked(s, INIT) && k < N_QUEUES && Holds(s, k, p, i)
    ensures var (v, j) := TakeReady(s, k);
            j == i || Ended(v, i) || (j != INIT && Nearer(v, k, p, i))
  {
    hide Linked;
    var q := s.queues[k];
    var d := FirstSurvivor(s.procs, q);
    var (v, j) := TakeReady(s, k);
    if d < p {
      assert q[d + 1..][p - d - 1] == i;
      assert Holds(v, k, p - d - 1, i);
    } else if d > p {
      assert i in q[..d] && q[..|q|] == q;
      assert i in (if d == |q| then q else q[..d + 1]);
    }
  }

  /** The front queue is served first, whatever the levels behind it hold. */
  lemma SelectPlace(s: KState, draws: seq<nat>, p: nat, i: nat)
    requires Shaped(s) && Linked(s, INIT) && Placed(s) && Fifo(s.algorithm) && Holds(s, Front(s.algorithm), p, i)
    requires PositivePriorities(s.procs) && |s.queues[READY_QUEUE]| <= |draws|
    ensures var (v, j) := Select(s, draws);
            j == i || Ended(v, i) || Nearer(v, Front(s.algorithm), p, i)
  {
    hide Linked, Placed, TakeReady, PositivePriorities, Nearer;
    var k := Front(s.algorithm);
    TakeReadyPlace(s, k, p, i);
    var (v, j) := TakeReady(s, k);
    if s.algorithm.Multilevel() {
      assert SelectMultilevel(s, 0)
             == if j != INIT then (Recharged(v, j, Quantum(s.algorithm, 0)), j) else SelectMultilevel(v, 1);
      if j == INIT {
        TakeReadyLinks(s, 1);
        TakeReadyPolicy(s, k);
        ReadyQueueUnused(s);
        MultilevelLinks(v, 1);
        var w := SelectMultilevel(v, 1).0;
        assert Decided(v.procs[i], w.procs[i]);
      } else {
        NearerQueues(v, Recharged(v, j, Quantum(s.algorithm, 0)), k, p, i);
      }
    } else {
      NearerQueues(v, Recharged(v, j, ROUND_ROBIN_QUANTUM), k, p, i);
    }
  }

  lemma TakeReadyPolicy(s: KState, k: nat)
    requires Shaped(s) && k < N_QUEUES
    ensures TakeReady(s, k).0.algorithm == s.algorithm
  {
  }

  lemma ReadyQueueUnused(s: KState)
    requires |s.queues| == N_QUEUES && Placed(s) && s.algorithm.Multilevel()
    ensures s.queues[READY_QUEUE] == []
  {
  }

  lemma NearerQueues(s: KState, v: KState, k: nat, p: nat, i: nat)
    requires v.queues == s.queues
    ensures Nearer(s, k, p, i) ==> Nearer(v, k, p, i)
  {
    if Nearer(s, k, p, i) {
      var r: nat :| r < p && Holds(s, k, r, i);
      assert Holds(v, k, r, i);
    }
  }

  /** FIFO insertion leaves what was queued where it was. */
  lemma EnqueuePlace(s: KState, x: nat, k: nat, p: nat, i: nat)
    requires Shaped(s) && x < |s.procs| && s.algorithm != SJF && Holds(s, k, p, i)
    ensures Holds(Enqueue(s, x), k, p, i)
  {
  }

  lemma PickPlace(s: KState, draws: seq<nat>, p: nat, i: nat)
    requires Consistent(s) && PositivePriorities(s.procs) && |s.queues[READY_QUEUE]| < |draws|
    requires Fifo(s.algorithm) && Holds(s, Front(s.algorithm), p, i)
    ensures var v := Pick(s, draws);
            v.current == i || Ended(v, i) || Nearer(v, Front(s.algorithm), p, i)
  {
    hide Linked, Select, Consistent, Undecided, Selected, PositivePriorities, Nearer, Enqueue;
    var b, c, next := PickSteps(s, draws);
    var k := Front(s.algorithm);
    ConsistentFacts(s);
    var a := AddPreempt(s, s.current, 1);
    assert Holds(a, k, p, i);
    if a.current != INIT && a.procs[a.current].state == RUNNING {
      EnqueuePlace(a, a.current, k, p, i);
    }
    UndecidedFacts(b, INIT);
    SelectPlace(b, draws, p, i);
    var v := Pick(s, draws);
    SelectedFacts(b, c, next);
    SwitchRecords(c, next);
    NearerQueues(c, v, k, p, i);
  }

  // ---------------------------------------------------------------- steps

  /** Does the event end in a scheduling decision? */
  ghost predicate Picks(s: KState, e: Event)
    requires Shaped(s)
  {
    match e
    case Ticked(_) => Expires(s) && s.algorithm.Preemptive()
    case Yielded(_) => true
    case Blocked(_, _) => true
    case Awaited(t, _) => 0 <= t < |s.procs| && s.procs[t].state != ZOMBIE
    case Exited(_) => true
    case _ => false
  }

  ghost predicate Progress(s: KState, e: Event, v: KState, p: nat, i: nat)
    requires Shaped(s)
  {
    || v.current == i || Ended(v, i)
    || (if Picks(s, e) then Nearer(v, Front(s.algorithm), p, i) else Holds(v, Front(s.algorithm), p, i))
  }

  lemma SchedulePlace(s: KState, draws: seq<nat>, p: nat, i: nat)
    requires Consistent(s) && PositivePriorities(s.procs) && |s.queues[READY_QUEUE]| < |draws|
    requires Fifo(s.algorithm) && Holds(s, Front(s.algorithm), p, i)
    ensures var v := Schedule(s, draws);
            v.current == i || Ended(v, i) || Nearer(v, Front(s.algorithm), p, i)
  {
    hide Linked, Links, Pick, PositivePriorities, Halved, Nearer;
    var x := s.procs[s.current];
    var r := if s.current != INIT && x.state != RUNNING && x.state != READY then EndBurst(x) else x;
    SaneAt(s, s.current);
    EndedSane(x);
    RecordKeeps(s, s.current, r.(counter := 0));
    var u := WithProc(s, s.current, r.(counter := 0));
    Priorities(u);
    assert Holds(u, Front(s.algorithm), p, i);
    PickPlace(u, draws, p, i);
  }

  lemma {:induction false} WakeWaitersPlace(s: KState, target: nat, j: nat, k: nat, p: nat, i: nat)
    requires Shaped(s) && j <= |s.procs| && s.algorithm != SJF && Holds(s, k, p, i)
    ensures Holds(WakeWaiters(s, target, j), k, p, i)
    decreases |s.procs| - j
  {
    hide Enqueue;
    if j < |s.procs| {
      if Waits(s.procs[j], target) {
        var u := WithProc(s, j, s.procs[j].(state := READY, pidToWait := -1));
        assert Holds(u, k, p, i);
        EnqueuePlace(u, j, k, p, i);
        EnqueueGrows(u, j);
        WakeWaitersPlace(Enqueue(u, j), target, j + 1, k, p, i);
      } else {
        WakeWaitersPlace(s, target, j + 1, k, p, i);
      }
    }
  }

  lemma CountTickPlace(s: KState, p: nat, i: nat)
    requires Shaped(s) && Fifo(s.algorithm) && Holds(s, Front(s.algorithm), p, i)
    ensures Holds(CountTick(s), Front(s.algorithm), p, i)
  {
  }

  lemma TickProgress(s: KState, draws: seq<nat>, p: nat, i: nat)
    requires Invariant(s) && PositivePriorities(s.procs) && Room(s, draws)
    requires Fifo(s.algorithm) && Holds(CountTick(s), Front(s.algorithm), p, i)
    ensures Progress(s, Ticked(draws), Tick(s, draws), p, i)
  {
    hide Linked, Links, Pick, PositivePriorities, Sane, CountTick, Nearer;
    CountTickKeeps(s);
    var v := CountTick(s);
    SaneAt(v, v.current);
    var w := WithProc(v, v.current, v.procs[v.current].(counter := 0));
    StaysSane(v.procs[v.current], w.procs[v.current]);
    RecordKeeps(v, v.current, v.procs[v.current].(counter := 0));
    assert Holds(w, Front(s.algorithm), p, i);
    if Expires(s) && s.algorithm.Preemptive() {
      Priorities(w);
      PickPlace(w, draws, p, i);
    }
  }

  lemma LeaveProgress(s: KState, e: Event, p: nat, i: nat)
    requires Invariant(s) && PositivePriorities(s.procs) && Enabled(s, e)
    requires e.Blocked? || e.Awaited? || e.Exited?
    requires Fifo(s.algorithm) && Holds(s, Front(s.algorithm), p, i)
    ensures Progress(s, e, After(s, e), p, i)
  {
    hide Linked, Links, Schedule, PositivePriorities, Sane, WakeWaiters, Nearer;
    SaneAt(s, s.current);
    var x := s.procs[s.current];
    var y := match e
      case Blocked(st, _) => x.(state := st)
      case Awaited(t, _) => x.(state := WAITING_ANOTHER_PROCESS, pidToWait := t)
      case _ => x.(state := ZOMBIE);
    StaysSane(x, y);
    LeavesKeeps(s, y);
    var u := WithProc(s, s.current, y);
    assert Holds(u, Front(s.algorithm), p, i);
    Priorities(u);
    match e
    case Blocked(st, draws) => SchedulePlace(u, draws, p, i);
    case Awaited(t, draws) => SchedulePlace(u, draws, p, i);
    case Exited(draws) =>
      WakeWaitersKeeps(u, s.current, 0);
      WakeWaitersPlace(u, s.current, 0, Front(s.algorithm), p, i);
      Priorities(WakeWaiters(u, s.current, 0));
      SchedulePlace(WakeWaiters(u, s.current, 0), draws, p, i);
  }

  /** Every decision brings a process of the front queue nearer to its head, and no event sets it back. */
  lemma StepProgress(s: KState, e: Event, p: nat, i: nat)
    requires Invariant(s) && Enabled(s, e) && PositivePriorities(s.procs)
    requires Fifo(s.algorithm) && Holds(s, Front(s.algorithm), p, i)
    ensures Progress(s, e, After(s, e), p, i)
  {
    hide Linked, Links, PositivePriorities, Sane, Tick, Schedule, Block, Wait, Exit, Enqueue, Nearer;
    var k := Front(s.algorithm);
    match e
    case Ticked(draws) =>
      CountTickPlace(s, p, i);
      TickProgress(s, draws, p, i);
    case Yielded(draws) => SchedulePlace(s, draws, p, i);
    case Blocked(_, _) => LeaveProgress(s, e, p, i);
    case Awaited(_, _) => LeaveProgress(s, e, p, i);
    case Exited(_) => LeaveProgress(s, e, p, i);
    case Forked(memory) =>
      if !Fails(s, e) {
        var a := AddPreempt(s, s.current, 1);
        var x := Child(a.procs[a.current]);
        var u := a.(procs := a.procs + [x], level := a.level[|a.procs| := Clamped(x.queuePriority)]);
        assert Holds(u, k, p, i);
        EnqueuePlace(u, |a.procs|, k, p, i);
      }
    case Woken(j) =>
      assert Holds(WithState(s, j, READY), k, p, i);
      EnqueuePlace(WithState(s, j, READY), j, k, p, i);
    case Sent(_, _) =>
    case Configured(_, _, _) =>
  }

  // ----------------------------------------------------------------- runs

  /** The decisions taken from event `a` up to event `b`. */
  ghost function Decisions(states: seq<KState>, events: seq<Event>, a: nat, b: nat): nat
    requires a <= b <= |events| < |states|
    decreases b - a
  {
    if a == b then 0
    else (if Shaped(states[a]) && Picks(states[a], events[a]) then 1 else 0) + Decisions(states, events, a + 1, b)
  }

  /** The process is dispatched, killed or stopped after some event between `a` and `b`. */
  ghost predicate Served(states: seq<KState>, a: nat, b: nat, i: nat)
    requires a <= b < |states|
  {
    exists m :: a < m <= b && ServedAt(states, m, i)
  }

  ghost predicate ServedAt(states: seq<KState>, m: nat, i: nat)
    requires m < |states|
  {
    states[m].current == i || Ended(states[m], i)
  }

  /**
   Main result: the process at position `p` of the front queue is served by the
   time `p + 1` decisions have been taken, whatever else happens.
   */
  lemma {:induction false} BoundedWaiting(states: seq<KState>, events: seq<Event>, a: nat, b: nat, p: nat, i: nat)
    requires Run(states, events) && a <= b <= |events| && Fifo(states[a].algorithm)
    requires Holds(states[a], Front(states[a].algorithm), p, i)
    requires Decisions(states, events, a, b) > p
    ensures Served(states, a, b, i)
    decreases b - a
  {
    hide Invariant, Enabled, After, Start, Run, Picks, Fifo, AllStepped;
    RunFacts(states, events, a);
    StepProgress(states[a], events[a], p, i);
    if !ServedAt(states, a + 1, i) {
      var r: nat := p;
      if Picks(states[a], events[a]) {
        r :| r < p && Holds(states[a + 1], Front(states[a].algorithm), r, i);
      }
      assert Served(states, a + 1, b, i) by { BoundedWaiting(states, events, a + 1, b, r, i); }
      var m :| a + 1 < m <= b && ServedAt(states, m, i);
      assert a < m <= b && ServedAt(states, m, i);
    }
  }

  // --------------------------------------------------- the feedback queues

  const LONGEST_QUANTUM := 20

  /** The policies that hand out the front queue in turn, each process for a slice. */
  predicate Sliced(a: Algorithm) {
    a == ROUND_ROBIN || a == MLQ || a == MLFQ
  }

  /** The longest slice in ticks that a policy hands out. */
  function TopSlice(a: Algorithm): int {
    if a == ROUND_ROBIN then 10 else LONGEST_QUANTUM
  }

  /** What is left of the slice of the current process. */
  function Slack(s: KState): nat
    requires Shaped(s)
  {
    if s.procs[s.current].counter > 0 then s.procs[s.current].counter else 0
  }

  ghost predicate BoundedSlices(s: KState) {
    && (forall i :: 0 <= i < |s.procs| ==> s.procs[i].counter <= TopSlice(s.algorithm))
    && s.ticks < MLFQ_BOOST_PERIOD
  }

  /** At most 63 processes wait at level 0, and each holds the CPU for at most the longest quantum. */
  const TOP_RANK := 62 * (LONGEST_QUANTUM + 1) + LONGEST_QUANTUM

  ghost predicate RankedAt(s: KState, i: nat, p: nat, rank: nat)
    requires Shaped(s)
  {
    Holds(s, 1, p, i) && p * (LONGEST_QUANTUM + 1) + Slack(s) <= rank
  }

  /** An upper bound for the ticks until the process is served. */
  ghost predicate Ranked(s: KState, i: nat, rank: nat)
    requires Shaped(s)
  {
    || (exists p: nat :: RankedAt(s, i, p, rank))
    || (0 < i < |s.procs| && s.procs[i].state == READY && TOP_RANK + MLFQ_BOOST_PERIOD - s.ticks <= rank)
  }

  /** A queue without repetitions holds at most 63 processes. */
  lemma QueueBound(s: KState, k: nat)
    requires Shaped(s) && Linked(s, INIT) && k < N_QUEUES
    ensures |s.queues[k]| < |s.procs|
  {
    hide Linked;
    LinkedLists(s);
    BelowSize(|s.procs|);
    DistinctWithin(s.queues[k], Below(|s.procs|) - {0});
  }

  // -------------------------------------------------------------- slices

  /** A counter is left alone or recharged to no more than the longest slice. */
  ghost predicate SliceKept(p: Proc, q: Proc, a: Algorithm) {
    q.counter <= p.counter || q.counter <= TopSlice(a)
  }

  ghost predicate SlicesKept(s: KState, v: KState) {
    |s.procs| <= |v.procs| && forall x :: 0 <= x < |s.procs| ==> SliceKept(s.procs[x], v.procs[x], s.algorithm)
  }

  lemma TakeReadySlices(s: KState, k: nat)
    requires Shaped(s) && k < N_QUEUES
    ensures SlicesKept(s, TakeReady(s, k).0) && |TakeReady(s, k).0.procs| == |s.procs|
  {
  }

  lemma {:induction false} MultilevelSlices(s: KState, l: nat)
    requires Shaped(s) && l <= ML_MAX_LEVELS && s.algorithm.Multilevel()
    ensures SlicesKept(s, SelectMultilevel(s, l).0)
    decreases ML_MAX_LEVELS - l
  {
    hide TakeReady;
    if l < ML_MAX_LEVELS {
      TakeReadySlices(s, l + 1);
      TakeReadyPolicy(s, l + 1);
      var (v, i) := TakeReady(s, l + 1);
      if i == INIT {
        MultilevelSlices(v, l + 1);
      }
    }
  }

  lemma SelectSlices(s: KState, draws: seq<nat>)
    requires Shaped(s) && PositivePriorities(s.procs) && |s.queues[READY_QUEUE]| <= |draws| && Sliced(s.algorithm)
    ensures SlicesKept(s, Select(s, draws).0)
  {
    hide TakeReady, SelectMultilevel, PositivePriorities;
    if s.algorithm == ROUND_ROBIN {
      TakeReadySlices(s, READY_QUEUE);
    } else {
      MultilevelSlices(s, 0);
    }
  }

  lemma PickSlices(s: KState, draws: seq<nat>)
    requires Consistent(s) && PositivePriorities(s.procs) && |s.queues[READY_QUEUE]| < |draws| && Sliced(s.algorithm)
    ensures SlicesKept(s, Pick(s, draws))
  {
    hide Linked, Select, Park, Undecided, Selected, Sane, PositivePriorities;
    var b, c, next := PickSteps(s, draws);
    PreemptKeeps(s, s.current, 1);
    ParkLinks(AddPreempt(s, s.current, 1));
    UndecidedFacts(b, INIT);
    SelectSlices(b, draws);
    SelectedFacts(b, c, next);
    SwitchRecords(c, next);
  }

  /** What a step of the multilevel algorithms does to the slices, the boost timer and a CPU that is not handed on. */
  ghost predicate Timed(s: KState, e: Event, v: KState)
    requires Shaped(s)
  {
    && Shaped(v)
    && v.ticks == (if !e.Ticked? || s.algorithm != MLFQ then s.ticks
                   else if s.ticks + 1 >= MLFQ_BOOST_PERIOD then 0
                   else s.ticks + 1)
    && SlicesKept(s, v) && (forall x :: |s.procs| <= x < |v.procs| ==> v.procs[x].counter <= TopSlice(s.algorithm))
    && (!Picks(s, e) ==> v.current == s.current
                         && v.procs[v.current].counter == s.procs[s.current].counter - (if e.Ticked? then 1 else 0))
  }

  lemma TimedShape(s: KState, e: Event, v: KState)
    requires Shaped(s) && Timed(s, e, v)
    ensures Shaped(v)
  {
  }

  lemma ScheduleTimed(s: KState, draws: seq<nat>)
    requires Consistent(s) && PositivePriorities(s.procs) && |s.queues[READY_QUEUE]| < |draws| && Sliced(s.algorithm)
    ensures SlicesKept(s, Schedule(s, draws)) && Schedule(s, draws).ticks == s.ticks && Shaped(Schedule(s, draws))
  {
    hide Linked, Links, Pick, PositivePriorities, Halved;
    ScheduleEffects(s, draws);
    var x := s.procs[s.current];
    var r := if s.current != INIT && x.state != RUNNING && x.state != READY then EndBurst(x) else x;
    SaneAt(s, s.current);
    EndedSane(x);
    RecordKeeps(s, s.current, r.(counter := 0));
    var u := WithProc(s, s.current, r.(counter := 0));
    Priorities(u);
    PickSlices(u, draws);
    assert SlicesKept(s, u);
    assert forall y :: 0 <= y < |s.procs| ==> SliceKept(u.procs[y], Pick(u, draws).procs[y], s.algorithm);
  }

  lemma TickTimed(s: KState, draws: seq<nat>)
    requires Invariant(s) && PositivePriorities(s.procs) && Room(s, draws) && Sliced(s.algorithm)
    ensures Timed(s, Ticked(draws), Tick(s, draws))
  {
    hide Linked, Links, Pick, PositivePriorities, Sane;
    CountTickKeeps(s);
    var v := CountTick(s);
    SaneAt(v, v.current);
    var w := WithProc(v, v.current, v.procs[v.current].(counter := 0));
    StaysSane(v.procs[v.current], w.procs[v.current]);
    RecordKeeps(v, v.current, v.procs[v.current].(counter := 0));
    assert SlicesKept(s, v) && (Expires(s) ==> SlicesKept(s, w));
    if Expires(s) {
      Priorities(w);
      PickEffects(w, draws);
      PickSlices(w, draws);
      assert forall y :: 0 <= y < |s.procs| ==> SliceKept(w.procs[y], Pick(w, draws).procs[y], s.algorithm);
    }
  }

  lemma LeaveTimed(s: KState, e: Event)
    requires Invariant(s) && PositivePriorities(s.procs) && Enabled(s, e) && Sliced(s.algorithm)
    requires e.Blocked? || e.Awaited? || e.Exited?
    ensures Timed(s, e, After(s, e))
  {
    hide Linked, Links, Schedule, PositivePriorities, Sane, WakeWaiters;
    SaneAt(s, s.current);
    var x := s.procs[s.current];
    var y := match e
      case Blocked(st, _) => x.(state := st)
      case Awaited(t, _) => x.(state := WAITING_ANOTHER_PROCESS, pidToWait := t)
      case _ => x.(state := ZOMBIE);
    StaysSane(x, y);
    LeavesKeeps(s, y);
    var u := WithProc(s, s.current, y);
    Priorities(u);
    match e
    case Blocked(st, draws) =>
      ScheduleTimed(u, draws);
      ScheduleEffects(u, draws);
      SameCounters(s, u, Schedule(u, draws));
    case Awaited(t, draws) =>
      if Picks(s, e) {
        ScheduleTimed(u, draws);
        ScheduleEffects(u, draws);
        SameCounters(s, u, Schedule(u, draws));
      }
    case Exited(draws) =>
      WakeWaitersKeeps(u, s.current, 0);
      var w := WakeWaiters(u, s.current, 0);
      Priorities(w);
      ScheduleTimed(w, draws);
      ScheduleEffects(w, draws);
      SameCounters(s, w, Schedule(w, draws));
  }

  lemma SameCounters(s: KState, u: KState, v: KState)
    requires SlicesKept(u, v) && |s.procs| == |u.procs| && u.algorithm == s.algorithm
    requires forall x :: 0 <= x < |s.procs| ==> u.procs[x].counter == s.procs[x].counter
    ensures SlicesKept(s, v)
  {
    assert forall x :: 0 <= x < |s.procs| ==> SliceKept(u.procs[x], v.procs[x], s.algorithm);
  }

  lemma ForkTimed(s: KState, memory: bool)
    requires Invariant(s) && Sliced(s.algorithm)
    ensures Timed(s, Forked(memory), Fork(s, memory).0)
  {
    hide Linked, Links, PositivePriorities, Sane, Enqueue;
    if !Fails(s, Forked(memory)) {
      var a := AddPreempt(s, s.current, 1);
      PreemptKeeps(s, s.current, 1);
      SaneAt(a, a.current);
      var child := Child(a.procs[a.current]);
      ChildSane(a.procs[a.current]);
      RegisterKeeps(a, child);
      var i := |a.procs|;
      EnqueueGrows(a.(procs := a.procs + [child], level := a.level[i := Clamped(child.queuePriority)]), i);
    }
  }

  lemma WakeTimed(s: KState, i: nat)
    requires Invariant(s) && Enabled(s, Woken(i)) && Sliced(s.algorithm)
    ensures Timed(s, Woken(i), Wake(s, i))
  {
    hide Linked, Links, PositivePriorities, Sane, Enqueue;
    SaneAt(s, i);
    StaysSane(s.procs[i], s.procs[i].(state := READY));
    EnqueueGrows(WithState(s, i, READY), i);
    WakeKeeps(s, i, s.procs[i].(state := READY));
  }

  lemma StepTimed(s: KState, e: Event)
    requires Invariant(s) && PositivePriorities(s.procs) && Enabled(s, e) && Sliced(s.algorithm)
    ensures Timed(s, e, After(s, e))
  {
    hide Linked, Links, PositivePriorities, Sane, Tick, Schedule, Enqueue, Block, Exit, Wait, Fork, Wake;
    match e
    case Ticked(draws) => TickTimed(s, draws);
    case Yielded(draws) => ScheduleTimed(s, draws); ScheduleEffects(s, draws);
    case Blocked(_, _) => LeaveTimed(s, e);
    case Awaited(_, _) => LeaveTimed(s, e);
    case Exited(_) => LeaveTimed(s, e);
    case Forked(memory) => ForkTimed(s, memory);
    case Woken(i) => WakeTimed(s, i);
    case Sent(_, _) =>
    case Configured(_, _, _) =>
  }

  // ------------------------------------------------------- no starvation

  /** A boost brings everybody to level 0. */
  lemma BoostPlaces(s: KState, i: nat) returns (p: nat)
    requires Invariant(s) && s.algorithm == MLFQ && IsReady(s, i) && s.ticks + 1 >= MLFQ_BOOST_PERIOD
    ensures Holds(CountTick(s), 1, p, i)
  {
    hide Linked;
    LinkedLists(s);
    ReadyQueueUnused(s);
    p := GatheredPlace(s.queues, i);
    BoostGathers(s);
  }

  /** Whoever is in the queue of a level has a place in the queue of all of them. */
  lemma GatheredPlace(queues: seq<seq<nat>>, i: nat) returns (p: nat)
    requires |queues| == N_QUEUES && queues[READY_QUEUE] == [] && Queued(queues, i)
    ensures p < |Gathered(queues)| && Gathered(queues)[p] == i
  {
    var k :| 0 <= k < N_QUEUES && InQueue(queues, k, i);
    assert i in queues[k];
    assert i in Gathered(queues);
    p :| 0 <= p < |Gathered(queues)| && Gathered(queues)[p] == i;
  }

  function Gathered(queues: seq<seq<nat>>): seq<nat>
    requires |queues| == N_QUEUES
  {
    queues[1] + queues[2] + queues[3] + queues[4] + queues[5]
  }

  lemma BoostGathers(s: KState)
    requires Shaped(s) && s.algorithm == MLFQ && s.ticks + 1 >= MLFQ_BOOST_PERIOD
    ensures CountTick(s).queues[1] == Gathered(s.queues) && |CountTick(s).queues| == N_QUEUES
  {
  }

  /** At level 0 every decision uses up a position and every other tick a part of the slice. */
  lemma FrontRankStep(s: KState, e: Event, v: KState, p: nat, i: nat, rank: nat)
    requires Shaped(s) && Timed(s, e, v) && Progress(s, e, v, p, i) && s.algorithm == MLFQ
    requires BoundedSlices(v) && p * (LONGEST_QUANTUM + 1) + Slack(s) <= rank
    requires e.Ticked? ==> s.procs[s.current].preemptDisabled <= 0
    ensures v.current == i || Ended(v, i)
            || ((e.Ticked? ==> rank > 0) && Ranked(v, i, if e.Ticked? then rank - 1 else rank))
  {
    hide Linked, SlicesKept;
    if v.current != i && !Ended(v, i) {
      assert Slack(v) <= LONGEST_QUANTUM;
      if Picks(s, e) {
        var r: nat :| r < p && Holds(v, 1, r, i);
        assert RankedAt(v, i, r, if e.Ticked? then rank - 1 else rank);
      } else {
        assert RankedAt(v, i, p, if e.Ticked? then rank - 1 else rank);
        assert e.Ticked? ==> Slack(s) > 0 && Slack(v) == Slack(s) - 1;
      }
    }
  }

  /** Behind level 0 every tick brings the boost nearer. */
  lemma BackRankStep(s: KState, e: Event, v: KState, i: nat, rank: nat)
    requires Shaped(s) && Timed(s, e, v) && s.algorithm == MLFQ && BoundedSlices(s)
    requires 0 < i < |s.procs| && i < |v.procs| && Stepped(s, e, v, i) && s.procs[i].state == READY
    requires TOP_RANK + MLFQ_BOOST_PERIOD - s.ticks <= rank
    requires !(e.Ticked? && s.ticks + 1 >= MLFQ_BOOST_PERIOD)
    ensures v.current == i || Ended(v, i)
            || ((e.Ticked? ==> rank > 0) && Ranked(v, i, if e.Ticked? then rank - 1 else rank))
  {
  }

  lemma BoostRankStep(s: KState, draws: seq<nat>, i: nat, rank: nat)
    requires Invariant(s) && PositivePriorities(s.procs) && Room(s, draws) && s.algorithm == MLFQ
    requires BoundedSlices(s) && IsReady(s, i) && TOP_RANK + MLFQ_BOOST_PERIOD - s.ticks <= rank
    requires s.ticks + 1 >= MLFQ_BOOST_PERIOD
    ensures var v := Tick(s, draws);
            v.current == i || Ended(v, i) || (Shaped(v) && rank > 0 && Ranked(v, i, rank - 1))
  {
    hide Linked, PositivePriorities, Placed, CountTick, Sane, Timed, Progress, Ended, Tick, Ranked;
    var e, v := Ticked(draws), Tick(s, draws);
    TickSteps(s, draws);
    TickTimed(s, draws);
    TimedShape(s, e, v);
    SlicesBounded(s, e, v);
    var p := BoostPlaces(s, i);
    TickProgress(s, draws, p, i);
    ServedSoon(s, e, v, p, i);
    if v.current != i && !Ended(v, i) {
      RankGrows(v, i, TOP_RANK, rank - 1);
    }
  }

  lemma TickedRoom(s: KState, draws: seq<nat>)
    requires Shaped(s) && PositivePriorities(s.procs) && Enabled(s, Ticked(draws))
    ensures Room(s, draws) && After(s, Ticked(draws)) == Tick(s, draws)
  {
  }

  /** Every tick brings a ready process that it does not serve closer, and no other event sets it back. */
  lemma RankStep(s: KState, e: Event, i: nat, rank: nat)
    requires Invariant(s) && PositivePriorities(s.procs) && Enabled(s, e) && s.algorithm == MLFQ
    requires BoundedSlices(s) && Ranked(s, i, rank) && (e.Ticked? ==> s.procs[s.current].preemptDisabled <= 0)
    ensures var v := After(s, e);
            v.current == i || Ended(v, i)
              || (Shaped(v) && (e.Ticked? ==> rank > 0) && Ranked(v, i, if e.Ticked? then rank - 1 else rank))
  {
    hide Linked, PositivePriorities, Placed, After, Sane, Stepped, Enabled, BoundedSlices, Timed, Progress, Ended,
      Tick;
    if e.Ticked? && s.ticks + 1 >= MLFQ_BOOST_PERIOD && !exists p: nat :: RankedAt(s, i, p, rank) {
      TickedRoom(s, e.draws);
      BoostRankStep(s, e.draws, i, rank);
    } else {
      var v := After(s, e);
      StepKeeps(s, e);
      StepTimed(s, e);
      SlicesBounded(s, e, v);
      TimedShape(s, e, v);
      if p: nat :| RankedAt(s, i, p, rank) {
        StepProgress(s, e, p, i);
        FrontRankStep(s, e, v, p, i, rank);
      } else {
        assert Stepped(s, e, v, i);
        BackRankStep(s, e, v, i, rank);
      }
    }
  }

  lemma RankGrows(s: KState, i: nat, rank: nat, more: nat)
    requires Shaped(s) && rank <= more && Ranked(s, i, rank)
    ensures Ranked(s, i, more)
  {
    hide Slack, Holds;
    if p: nat :| RankedAt(s, i, p, rank) {
      assert RankedAt(s, i, p, more);
    }
  }

  lemma SlicesBounded(s: KState, e: Event, v: KState)
    requires Shaped(s) && Timed(s, e, v) && BoundedSlices(s) && v.algorithm == s.algorithm
    ensures BoundedSlices(v)
  {
    assert forall x :: 0 <= x < |s.procs| ==> SliceKept(s.procs[x], v.procs[x], s.algorithm);
  }

  lemma ServedSoon(s: KState, e: Event, v: KState, p: nat, i: nat)
    requires Shaped(s) && Progress(s, e, v, p, i) && s.algorithm == MLFQ
    requires Shaped(v) && Linked(v, INIT) && BoundedSlices(v)
    ensures v.current == i || Ended(v, i) || Ranked(v, i, TOP_RANK)
  {
    hide Linked, Picks, Links;
    if v.current != i && !Ended(v, i) {
      QueueBound(v, 1);
      assert exists r: nat :: Holds(v, 1, r, i);
      var r: nat :| Holds(v, 1, r, i);
      assert r < |v.queues[1]| < |v.procs| <= 64;
      assert RankedAt(v, i, r, TOP_RANK);
    }
  }

  ghost function Ticks(events: seq<Event>, a: nat, b: nat): nat
    requires a <= b <= |events|
    decreases b - a
  {
    if a == b then 0 else (if events[a].Ticked? then 1 else 0) + Ticks(events, a + 1, b)
  }

  lemma {:induction false} RunSlices(states: seq<KState>, events: seq<Event>, n: nat)
    requires Run(states, events) && n <= |events| && Sliced(states[0].algorithm)
    ensures BoundedSlices(states[n]) && states[n].algorithm == states[0].algorithm
  {
    hide Invariant, Enabled, After, Timed;
    if n > 0 {
      RunSlices(states, events, n - 1);
      RunInvariant(states, events, n - 1);
      StepTimed(states[n - 1], events[n - 1]);
      StepAt(states, events, n - 1);
      RunFacts(states, events, n - 1);
      SlicesBounded(states[n - 1], events[n - 1], states[n]);
    }
  }

  /** The CPU may be taken from the process that runs. */
  ghost predicate Preemptible(s: KState) {
    s.current < |s.procs| && s.procs[s.current].preemptDisabled <= 0
  }

  lemma {:induction false} RankedIsServed(states: seq<KState>, events: seq<Event>, a: nat, b: nat, i: nat, rank: nat)
    requires Run(states, events) && a <= b <= |events| && states[0].algorithm == MLFQ
    requires Shaped(states[a]) && Ranked(states[a], i, rank) && Ticks(events, a, b) > rank
    requires forall m :: a <= m < b ==> Preemptible(states[m])
    ensures Served(states, a, b, i)
    decreases b - a
  {
    hide Invariant, Enabled, After, Start, Run, Ranked, Shaped, BoundedSlices;
    RunFacts(states, events, a);
    RunSlices(states, events, a);
    assert Preemptible(states[a]);
    RankStep(states[a], events[a], i, rank);
    if !ServedAt(states, a + 1, i) {
      RankedIsServed(states, events, a + 1, b, i, if events[a].Ticked? then rank - 1 else rank);
      var m :| a + 1 < m <= b && ServedAt(states, m, i);
      assert a < m <= b && ServedAt(states, m, i);
    }
  }

  /**
   Main result: under the feedback queues a ready process is dispatched, killed or
   stopped within 1622 ticks, whatever else arrives, while none of the forks of a
   process that runs has failed.
   */
  lemma NoStarvation(states: seq<KState>, events: seq<Event>, a: nat, b: nat, i: nat)
    requires Run(states, events) && a <= b <= |events| && states[0].algorithm == MLFQ
    requires 0 < i < |states[a].procs| && states[a].procs[i].state == READY
    requires Ticks(events, a, b) > TOP_RANK + MLFQ_BOOST_PERIOD
    requires forall m :: a <= m < b ==> FailedForks(states, events, m, states[m].current) == 0
    ensures TOP_RANK + MLFQ_BOOST_PERIOD == 1622
    ensures Served(states, a, b, i)
  {
    hide Linked, Start, Enabled, After;
    RunPreemptible(states, events, a, b);
    hide Run;
    RunFacts(states, events, a);
    RunSlices(states, events, a);
    assert Shaped(states[a]) && Ranked(states[a], i, TOP_RANK + MLFQ_BOOST_PERIOD);
    RankedIsServed(states, events, a, b, i, TOP_RANK + MLFQ_BOOST_PERIOD);
  }

  // ------------------------------------------------------- taking turns

  /** The ticks until the current process can lose the CPU: at least the one that takes it away. */
  function Left(s: KState): nat
    requires Shaped(s)
  {
    if Slack(s) == 0 then 1 else Slack(s)
  }

  /** What `n` slices may last. */
  function Slices(a: Algorithm, n: nat): nat {
    if a == ROUND_ROBIN then 10 * n else 20 * n
  }

  ghost predicate TurnAt(s: KState, i: nat, p: nat, rank: nat)
    requires Shaped(s)
  {
    Holds(s, Front(s.algorithm), p, i) && Slices(s.algorithm, p) + Left(s) <= rank
  }

  /** Every tick brings the turn of a process of the front queue nearer, and no other event sets it back. */
  lemma TurnNext(s: KState, e: Event, v: KState, p: nat, i: nat, rank: nat) returns (r: nat)
    requires Shaped(s) && Timed(s, e, v) && Progress(s, e, v, p, i) && Sliced(s.algorithm) && v.algorithm == s.algorithm
    requires BoundedSlices(v) && Slices(s.algorithm, p) + Left(s) <= rank
    requires e.Ticked? ==> s.procs[s.current].preemptDisabled <= 0
    ensures v.current == i || Ended(v, i)
            || ((e.Ticked? ==> rank > 1) && TurnAt(v, i, r, if e.Ticked? then rank - 1 else rank))
  {
    hide Linked, SlicesKept;
    r := p;
    if v.current != i && !Ended(v, i) {
      assert Left(v) <= if s.algorithm == ROUND_ROBIN then 10 else 20;
      if Picks(s, e) {
        r :| r < p && Holds(v, Front(s.algorithm), r, i);
      } else {
        assert e.Ticked? ==> Slack(s) > 1 && Slack(v) == Slack(s) - 1;
      }
    }
  }

  lemma TurnStep(s: KState, e: Event, p: nat, i: nat, rank: nat) returns (r: nat)
    requires Invariant(s) && PositivePriorities(s.procs) && Enabled(s, e) && Sliced(s.algorithm)
    requires BoundedSlices(s) && TurnAt(s, i, p, rank) && (e.Ticked? ==> s.procs[s.current].preemptDisabled <= 0)
    ensures var v := After(s, e);
            v.current == i || Ended(v, i)
              || (Shaped(v) && (e.Ticked? ==> rank > 1) && TurnAt(v, i, r, if e.Ticked? then rank - 1 else rank))
  {
    hide Linked, PositivePriorities, Placed, After, Sane, Stepped, Enabled, BoundedSlices, Timed, Progress, Ended, Tick,
      Left;
    var v := After(s, e);
    StepKeeps(s, e);
    StepTimed(s, e);
    SlicesBounded(s, e, v);
    TimedShape(s, e, v);
    StepProgress(s, e, p, i);
    r := TurnNext(s, e, v, p, i, rank);
  }

  lemma {:induction false} TurnComes(states: seq<KState>, events: seq<Event>, a: nat, b: nat, p: nat, i: nat, rank: nat)
    requires Run(states, events) && a <= b <= |events| && Sliced(states[0].algorithm)
    requires Shaped(states[a]) && TurnAt(states[a], i, p, rank) && Ticks(events, a, b) >= rank
    requires forall m :: a <= m < b ==> Preemptible(states[m])
    ensures Served(states, a, b, i)
    decreases b - a
  {
    hide Invariant, Enabled, After, Start, Run, TurnAt, Shaped, BoundedSlices;
    RunLength(states, events);
    if a == b {
      TurnAhead(states[a], i, p, rank);
    }
    RunFacts(states, events, a);
    RunSlices(states, events, a);
    assert Preemptible(states[a]);
    var r := TurnStep(states[a], events[a], p, i, rank);
    if !ServedAt(states, a + 1, i) {
      TurnComes(states, events, a + 1, b, r, i, if events[a].Ticked? then rank - 1 else rank);
      var m :| a + 1 < m <= b && ServedAt(states, m, i);
      assert a < m <= b && ServedAt(states, m, i);
    }
  }

  lemma RunLength(states: seq<KState>, events: seq<Event>)
    requires Run(states, events)
    ensures |states| == |events| + 1
  {
  }

  lemma TurnAhead(s: KState, i: nat, p: nat, rank: nat)
    requires Shaped(s) && TurnAt(s, i, p, rank)
    ensures rank > 0
  {
  }

  /**
   Main result: under Round Robin the process at position `p` of the ready queue is
   dispatched, killed or stopped within 10 * (p + 1) ticks, whatever else arrives, while
   none of the forks of a process that runs has failed. Under the multilevel policies it
   is so with 20 for the queue of the first level.
   */
  lemma TakesTurns(states: seq<KState>, events: seq<Event>, a: nat, b: nat, p: nat, i: nat)
    requires Run(states, events) && a <= b <= |events|
    requires states[0].algorithm in {ROUND_ROBIN, MLQ, MLFQ}
    requires Holds(states[a], if states[0].algorithm == ROUND_ROBIN then 0 else 1, p, i)
    requires Ticks(events, a, b) >= (if states[0].algorithm == ROUND_ROBIN then 10 * (p + 1) else 20 * (p + 1))
    requires forall m :: a <= m < b ==> FailedForks(states, events, m, states[m].current) == 0
    ensures Served(states, a, b, i)
  {
    hide Linked, Start, Enabled, After;
    RunPreemptible(states, events, a, b);
    RunSlices(states, events, a);
    TurnStarts(states, events, a, p, i);
    hide Run;
    TurnComes(states, events, a, b, p, i, Slices(states[a].algorithm, p + 1));
  }

  lemma TurnStarts(states: seq<KState>, events: seq<Event>, a: nat, p: nat, i: nat)
    requires Run(states, events) && a <= |events| && Sliced(states[0].algorithm)
    requires BoundedSlices(states[a]) && states[a].algorithm == states[0].algorithm
    requires Holds(states[a], Front(states[a].algorithm), p, i)
    ensures Shaped(states[a]) && TurnAt(states[a], i, p, Slices(states[a].algorithm, p + 1))
  {
    hide Linked, Run;
    RunLength(states, events);
    RunInvariant(states, events, a);
    InvariantFacts(states[a]);
    ConsistentFacts(states[a]);
  }

  /** While none of the forks of a process that runs has failed the CPU may be taken from it. */
  lemma RunPreemptible(states: seq<KState>, events: seq<Event>, a: nat, b: nat)
    requires Run(states, events) && a <= b <= |events|
    requires forall m :: a <= m < b ==> FailedForks(states, events, m, states[m].current) == 0
    ensures forall m :: a <= m < b ==> Preemptible(states[m])
  {
    forall m | a <= m < b
      ensures Preemptible(states[m])
    {
      RunOneRunning(states, events, m, 0);
      RunPreemption(states, events, m, states[m].current);
    }
  }
}
