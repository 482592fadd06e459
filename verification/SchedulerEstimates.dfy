/**
 Shortest-job-first over whole runs: the queue stays sorted by estimates with ties in
 order of arrival, every decision takes the shortest survivor, and the estimates
 converge on constant bursts.
 */
module SchedulerEstimates {
  import opened SchedulerState
  import opened SchedulerQueues
  import opened SchedulerRuns
  import opened SchedulerSafety
  import opened SchedulerFairness
  import opened SchedulerPriorities

  ghost predicate Sorted(procs: seq<Proc>, q: seq<nat>)
    requires InTable(procs, q)
  {
    forall a, b :: 0 <= a < b < |q| ==> procs[q[a]].estBurst <= procs[q[b]].estBurst
  }

  ghost predicate SortedQueue(s: KState)
    requires Shaped(s)
  {
    Sorted(s.procs, s.queues[READY_QUEUE])
  }

  // ------------------------------------------------------------ insertion

  /** The sorted insertion keeps the order, and puts a newcomer behind everybody who is not longer. */
  lemma InsertKeepsSorted(procs: seq<Proc>, q: seq<nat>, i: nat)
    requires InTable(procs, q) && i < |procs| && Sorted(procs, q)
    ensures var j := SortedPlace(procs, q, procs[i].estBurst);
            var r := InsertAt(q, j, i);
            && InTable(procs, r) && Sorted(procs, r) && r[j] == i
            && forall k :: 0 <= k < |q| ==> (k < j <==> procs[q[k]].estBurst <= procs[i].estBurst)
  {
    hide SortedPlace;
    var j := SortedPlace(procs, q, procs[i].estBurst);
    forall k | j <= k < |q|
      ensures procs[i].estBurst < procs[q[k]].estBurst
    {
      assert procs[q[j]].estBurst <= procs[q[k]].estBurst;
    }
    InsertedOrder(procs, q, j, i, InsertAt(q, j, i));
  }

  lemma InsertedOrder(procs: seq<Proc>, q: seq<nat>, j: nat, i: nat, r: seq<nat>)
    requires InTable(procs, q) && i < |procs| && Sorted(procs, q) && j <= |q|
    requires |r| == |q| + 1 && r[..j] == q[..j] && r[j] == i && r[j + 1..] == q[j..]
    requires forall k :: 0 <= k < j ==> procs[q[k]].estBurst <= procs[i].estBurst
    requires forall k :: j <= k < |q| ==> procs[i].estBurst < procs[q[k]].estBurst
    ensures InTable(procs, r) && Sorted(procs, r)
  {
    forall k | 0 <= k < |r|
      ensures r[k] == if k < j then q[k] else if k == j then i else q[k - 1]
    {
      if k < j {
        assert r[..j][k] == q[..j][k];
      } else if k > j {
        assert r[j + 1..][k - j - 1] == q[j..][k - j - 1];
      }
    }
  }

  lemma EnqueueSorted(s: KState, i: nat)
    requires Shaped(s) && i < |s.procs| && s.algorithm == SJF && SortedQueue(s)
    ensures Shaped(Enqueue(s, i)) && SortedQueue(Enqueue(s, i))
  {
    if i != INIT {
      InsertKeepsSorted(s.procs, s.queues[READY_QUEUE], i);
      SameEstimates(s.procs, Enqueue(s, i).procs, Enqueue(s, i).queues[READY_QUEUE]);
    }
  }

  lemma SameEstimates(procs: seq<Proc>, others: seq<Proc>, q: seq<nat>)
    requires InTable(procs, q) && InTable(others, q) && Sorted(procs, q)
    requires forall k :: 0 <= k < |q| ==> others[q[k]].estBurst == procs[q[k]].estBurst
    ensures Sorted(others, q)
  {
  }

  /** The record of a process that does not wait may change its estimate. */
  lemma RecordSorted(s: KState, i: nat, p: Proc)
    requires Shaped(s) && i < |s.procs| && SortedQueue(s)
    requires p.estBurst == s.procs[i].estBurst || i !in s.queues[READY_QUEUE]
    ensures Shaped(WithProc(s, i, p)) && SortedQueue(WithProc(s, i, p))
  {
    SameEstimates(s.procs, s.procs[i := p], s.queues[READY_QUEUE]);
  }

  // ------------------------------------------------------------ decisions

  lemma TakeKeepsSorted(s: KState)
    requires Shaped(s) && SortedQueue(s)
    ensures SortedQueue(TakeReady(s, READY_QUEUE).0)
  {
    hide FirstSurvivor, Survives, Signalled;
    var q := s.queues[READY_QUEUE];
    var d := FirstSurvivor(s.procs, q);
    var v := TakeReady(s, READY_QUEUE).0;
    var n := if d == |q| then d else d + 1;
    SuffixSorted(s.procs, q, n);
    SignalledEstimate();
    assert v.queues[READY_QUEUE] == q[n..];
    SameEstimates(s.procs, v.procs, q[n..]);
  }

  lemma SuffixSorted(procs: seq<Proc>, q: seq<nat>, n: nat)
    requires n <= |q| && InTable(procs, q) && Sorted(procs, q)
    ensures InTable(procs, q[n..]) && Sorted(procs, q[n..])
  {
  }

  lemma SignalledEstimate()
    ensures forall p: Proc :: Signalled(p).estBurst == p.estBurst
  {
  }

  lemma PickSorted(s: KState, draws: seq<nat>)
    requires Consistent(s) && PositivePriorities(s.procs) && |s.queues[READY_QUEUE]| < |draws|
    requires s.algorithm == SJF && SortedQueue(s)
    ensures Shaped(Pick(s, draws)) && SortedQueue(Pick(s, draws))
  {
    hide Linked, TakeReady, Enqueue, Undecided, Selected, PositivePriorities, Placed, Sane;
    var b, c, next := PickSteps(s, draws);
    var p := s.procs[s.current];
    RecordSorted(s, s.current, p.(preemptDisabled := p.preemptDisabled + 1));
    var a := AddPreempt(s, s.current, 1);
    if a.current != INIT && a.procs[a.current].state == RUNNING {
      EnqueueSorted(a, a.current);
    }
    UndecidedFacts(b, INIT);
    TakeKeepsSorted(b);
    SelectedFacts(b, c, next);
    SwitchRecords(c, next);
    SameEstimates(c.procs, Pick(s, draws).procs, c.queues[READY_QUEUE]);
  }

  // ---------------------------------------------------------------- steps

  lemma NotQueued(s: KState)
    requires Consistent(s) && s.current < |s.procs|
    ensures s.current !in s.queues[READY_QUEUE]
  {
    QueuedOnce(s, READY_QUEUE);
  }

  lemma RestSorted(s: KState)
    requires Consistent(s) && SortedQueue(s)
    ensures Shaped(Rest(s)) && SortedQueue(Rest(s))
  {
    hide Linked;
    NotQueued(s);
    RecordSorted(s, s.current, Rest(s).procs[s.current]);
  }

  lemma {:induction false} WakeWaitersSorted(s: KState, target: nat, i: nat)
    requires Shaped(s) && i <= |s.procs| && s.algorithm == SJF && SortedQueue(s)
    ensures SortedQueue(WakeWaiters(s, target, i))
    decreases |s.procs| - i
  {
    hide Enqueue;
    if i < |s.procs| {
      if Waits(s.procs[i], target) {
        var p := s.procs[i].(state := READY, pidToWait := -1);
        RecordSorted(s, i, p);
        EnqueueSorted(WithProc(s, i, p), i);
        EnqueueGrows(WithProc(s, i, p), i);
        WakeWaitersSorted(Enqueue(WithProc(s, i, p), i), target, i + 1);
      } else {
        WakeWaitersSorted(s, target, i + 1);
      }
    }
  }

  lemma EntrySorted(s: KState, e: Event)
    requires Invariant(s) && PositivePriorities(s.procs) && Enabled(s, e) && Picks(s, e)
    requires s.algorithm == SJF && SortedQueue(s)
    ensures Shaped(Entry(s, e)) && SortedQueue(Entry(s, e))
  {
    hide Linked, Links, PositivePriorities, Sane, WakeWaiters, Pick, Placed, Rest, Sorted;
    SaneAt(s, s.current);
    if e.Yielded? {
      assert WithProc(s, s.current, Leaving(s, e)) == s;
      RestSorted(s);
    } else {
      var y := Leaving(s, e);
      StaysSane(s.procs[s.current], y);
      LeavesKeeps(s, y);
      RecordSorted(s, s.current, y);
      var u := WithProc(s, s.current, y);
      if e.Exited? {
        WakeWaitersKeeps(u, s.current, 0);
        WakeWaitersSorted(u, s.current, 0);
        RestSorted(WakeWaiters(u, s.current, 0));
      } else {
        RestSorted(u);
      }
    }
  }

  lemma StepSorted(s: KState, e: Event)
    requires Invariant(s) && PositivePriorities(s.procs) && Enabled(s, e) && s.algorithm == SJF && SortedQueue(s)
    ensures Shaped(After(s, e)) && SortedQueue(After(s, e))
  {
    hide PositivePriorities, Sorted, Invariant, Consistent, Shaped, Enabled, Picks, After, Pick, Entry;
    InvariantFacts(s);
    ConsistentFacts(s);
    if Picks(s, e) {
      EntryFacts(s, e);
      EntrySorted(s, e);
      PickSorted(Entry(s, e), DrawsOf(e));
    } else {
      QuietSorted(s, e);
    }
  }

  lemma QuietSorted(s: KState, e: Event)
    requires Invariant(s) && PositivePriorities(s.procs) && Enabled(s, e) && !Picks(s, e) && s.algorithm == SJF
             && SortedQueue(s)
    ensures Shaped(After(s, e)) && SortedQueue(After(s, e))
  {
    hide Linked, Links, PositivePriorities, Sane, Schedule, Enqueue, Block, Exit, Placed, Pick, Sorted;
    match e
    case Ticked(_) =>
      var p := s.procs[s.current]
                 .(counter := s.procs[s.current].counter - 1, burstTicks := s.procs[s.current].burstTicks + 1);
      RecordSorted(s, s.current, p);
      RecordSorted(WithProc(s, s.current, p), s.current, p.(counter := 0));
    case Awaited(_, _) =>
    case Forked(memory) => ForkSorted(s, memory);
    case Woken(i) =>
      RecordSorted(s, i, s.procs[i].(state := READY));
      EnqueueSorted(WithState(s, i, READY), i);
    case Sent(i, _) => RecordSorted(s, i, After(s, e).procs[i]);
    case Configured(i, _, _) => RecordSorted(s, i, After(s, e).procs[i]);
    case _ =>
  }

  lemma ForkSorted(s: KState, memory: bool)
    requires Invariant(s) && s.algorithm == SJF && SortedQueue(s)
    ensures Shaped(Fork(s, memory).0) && SortedQueue(Fork(s, memory).0)
  {
    hide Linked, Enqueue, Placed;
    var a := AddPreempt(s, s.current, 1);
    RecordSorted(s, s.current, a.procs[s.current]);
    if !Fails(s, Forked(memory)) {
      var x := Child(a.procs[a.current]);
      var u := a.(procs := a.procs + [x], level := a.level[|a.procs| := Clamped(x.queuePriority)]);
      SameEstimates(a.procs, u.procs, u.queues[READY_QUEUE]);
      EnqueueSorted(u, |a.procs|);
      var r := Register(a, x);
      EnqueueGrows(u, |a.procs|);
      RecordSorted(r, a.current, r.procs[a.current].(preemptDisabled := r.procs[a.current].preemptDisabled - 1));
      assert Fork(s, memory).0 == AddPreempt(r, a.current, -1);
    }
  }

  lemma EmptySorted(procs: seq<Proc>)
    ensures InTable(procs, []) && Sorted(procs, [])
  {
  }

  /** Main result: in every run of shortest-job-first the queue is sorted by estimate. */
  lemma {:induction false} RunSorted(states: seq<KState>, events: seq<Event>, n: nat)
    requires Run(states, events) && n <= |events| && states[0].algorithm == SJF
    ensures states[n].algorithm == SJF && Shaped(states[n]) && SortedQueue(states[n])
  {
    hide Linked, Enabled, After, Sorted, AllStepped;
    if n == 0 {
      EmptySorted(states[0].procs);
    } else {
      RunSorted(states, events, n - 1);
      RunInvariant(states, events, n - 1);
      StepSorted(states[n - 1], events[n - 1]);
      StepKeeps(states[n - 1], events[n - 1]);
      RunFacts(states, events, n - 1);
    }
  }

  // --------------------------------------------------------------- bursts

  /** Does the event end a CPU burst of process `i`? It gives up the CPU and is not ready. */
  ghost predicate EndsBurst(s: KState, e: Event, i: nat)
    requires Shaped(s)
  {
    i == s.current != INIT && Picks(s, e) && (e.Blocked? || e.Awaited? || e.Exited?)
  }

  /** What an event does to the estimate and to the ticks of the burst that is going on. */
  ghost predicate Measured(s: KState, e: Event, v: KState, i: nat)
    requires Shaped(s) && i < |s.procs| && i < |v.procs|
  {
    var p, q := s.procs[i], v.procs[i];
    if EndsBurst(s, e, i) then q.estBurst == Halved(p.burstTicks + p.estBurst) && q.burstTicks == 0
    else q.estBurst == p.estBurst && q.burstTicks == p.burstTicks + if e.Ticked? && i == s.current then 1 else 0
  }

  /** A decision leaves estimates and bursts alone. */
  lemma PickBursts(u: KState, draws: seq<nat>)
    requires Consistent(u) && PositivePriorities(u.procs) && |u.queues[READY_QUEUE]| < |draws|
    ensures var v := Pick(u, draws);
            && |v.procs| == |u.procs|
            && forall x :: 0 <= x < |u.procs| ==>
                 v.procs[x].estBurst == u.procs[x].estBurst && v.procs[x].burstTicks == u.procs[x].burstTicks
  {
    hide Pick, Consistent, Invariant, PositivePriorities, Blocking, Shaped;
    ConsistentFacts(u);
    PickEffects(u, draws);
    forall x | 0 <= x < |u.procs|
      ensures Pick(u, draws).procs[x].estBurst == u.procs[x].estBurst
      ensures Pick(u, draws).procs[x].burstTicks == u.procs[x].burstTicks
    {
      assert Redecided(u, Pick(u, draws), x);
    }
  }

  /** Entering a decision ends the burst of a process that does not stay ready. */
  lemma EntryBursts(s: KState, e: Event)
    requires Invariant(s) && PositivePriorities(s.procs) && Enabled(s, e) && Picks(s, e)
    ensures Shaped(Entry(s, e)) && |Entry(s, e).procs| == |s.procs|
    ensures forall i :: 0 <= i < |s.procs| ==> Measured(s, e, Entry(s, e), i)
  {
    hide Linked, Links, PositivePriorities, Sane, WakeWaiters, Halved, Placed, Enqueue, QueueOf, PlaceOf;
    SaneAt(s, s.current);
    if e.Ticked? {
      CountTickKeeps(s);
    } else if e.Exited? {
      ExitBursts(s, e);
    }
  }

  lemma ExitBursts(s: KState, e: Event)
    requires Invariant(s) && PositivePriorities(s.procs) && Enabled(s, e) && e.Exited?
    ensures Shaped(Entry(s, e)) && |Entry(s, e).procs| == |s.procs|
    ensures forall i :: 0 <= i < |s.procs| ==> Measured(s, e, Entry(s, e), i)
  {
    hide Linked, Links, PositivePriorities, Sane, WakeWaiters, Halved, Placed, Enqueue, QueueOf, PlaceOf;
    SaneAt(s, s.current);
    var y := Leaving(s, e);
    StaysSane(s.procs[s.current], y);
    LeavesKeeps(s, y);
    WakeWaitersKeeps(WithProc(s, s.current, y), s.current, 0);
  }

  lemma QuietBursts(s: KState, e: Event)
    requires Invariant(s) && PositivePriorities(s.procs) && Enabled(s, e) && !Picks(s, e)
    ensures Shaped(s) && |s.procs| <= |After(s, e).procs|
    ensures forall i :: 0 <= i < |s.procs| ==> Measured(s, e, After(s, e), i)
  {
    hide Linked, Links, PositivePriorities, Sane, Schedule, Enqueue, Block, Exit, Placed, Fork, CountTick, Pick;
    match e
    case Ticked(_) => CountTickKeeps(s);
    case Forked(memory) => ForkBursts(s, memory);
    case Woken(i) =>
      EnqueueBursts(WithState(s, i, READY), i);
    case _ =>
  }

  lemma EnqueueBursts(s: KState, i: nat)
    requires Shaped(s) && i < |s.procs|
    ensures |Enqueue(s, i).procs| == |s.procs|
    ensures forall x :: 0 <= x < |s.procs| ==>
              Enqueue(s, i).procs[x].estBurst == s.procs[x].estBurst
                && Enqueue(s, i).procs[x].burstTicks == s.procs[x].burstTicks
  {
  }

  lemma ForkBursts(s: KState, memory: bool)
    requires Shaped(s)
    ensures |s.procs| <= |Fork(s, memory).0.procs|
    ensures forall x :: 0 <= x < |s.procs| ==>
              && Fork(s, memory).0.procs[x].estBurst == s.procs[x].estBurst
              && Fork(s, memory).0.procs[x].burstTicks == s.procs[x].burstTicks
    ensures |Fork(s, memory).0.procs| > |s.procs| ==> Fork(s, memory).0.procs[|s.procs|].burstTicks == 0
  {
    hide Enqueue;
    var a := AddPreempt(s, s.current, 1);
    if !Fails(s, Forked(memory)) {
      var x := Child(a.procs[a.current]);
      EnqueueBursts(a.(procs := a.procs + [x], level := a.level[|a.procs| := Clamped(x.queuePriority)]), |a.procs|);
    }
  }

  lemma StepBursts(s: KState, e: Event)
    requires Invariant(s) && PositivePriorities(s.procs) && Enabled(s, e)
    ensures Shaped(s) && |s.procs| <= |After(s, e).procs|
    ensures forall i :: 0 <= i < |s.procs| ==> Measured(s, e, After(s, e), i)
    ensures |After(s, e).procs| > |s.procs| ==>
              |After(s, e).procs| == |s.procs| + 1 && After(s, e).procs[|s.procs|].burstTicks == 0
  {
    hide Invariant, Consistent, PositivePriorities, Enabled, Picks, After, Entry, Pick, EndsBurst, AllStepped, Fails,
      Shaped;
    InvariantFacts(s);
    ConsistentFacts(s);
    StepKeeps(s, e);
    if Picks(s, e) {
      EntryFacts(s, e);
      EntryBursts(s, e);
      PickBursts(Entry(s, e), DrawsOf(e));
      forall i | 0 <= i < |s.procs|
        ensures Measured(s, e, After(s, e), i)
      {
        assert Measured(s, e, Entry(s, e), i);
      }
    } else {
      QuietBursts(s, e);
    }
  }

  // ------------------------------------------------------ bursts over runs

  /** The ticks that process `i` has been charged for since its last burst ended. */
  ghost function TicksSince(states: seq<KState>, events: seq<Event>, n: nat, i: nat): nat
    requires n <= |events| < |states| && forall k :: 0 <= k <= n ==> Shaped(states[k])
  {
    if n == 0 || i >= |states[n - 1].procs| || EndsBurst(states[n - 1], events[n - 1], i) then 0
    else TicksSince(states, events, n - 1, i) + if events[n - 1].Ticked? && states[n - 1].current == i then 1 else 0
  }

  /** The bursts of process `i` among the first `n` events, in order: the ticks of each. */
  ghost function Bursts(states: seq<KState>, events: seq<Event>, n: nat, i: nat): seq<int>
    requires n <= |events| < |states| && forall k :: 0 <= k <= n ==> Shaped(states[k])
  {
    if n == 0 || i >= |states[n - 1].procs| then []
    else
      Bursts(states, events, n - 1, i) +
      if EndsBurst(states[n - 1], events[n - 1], i) then [TicksSince(states, events, n - 1, i)] else []
  }

  /** The estimate that process `i` was created with. */
  ghost function Birth(states: seq<KState>, n: nat, i: nat): int
    requires n < |states| && i < |states[n].procs|
  {
    if n == 0 || i >= |states[n - 1].procs| then states[n].procs[i].estBurst else Birth(states, n - 1, i)
  }

  lemma {:induction false} EstimateAppends(est: int, bursts: seq<int>, b: int)
    ensures Estimate(est, bursts + [b]) == Halved(b + Estimate(est, bursts))
    decreases bursts
  {
    hide Halved;
    if bursts == [] {
      assert ([] + [b])[1..] == [];
    } else {
      assert (bursts + [b])[1..] == bursts[1..] + [b];
      EstimateAppends(Halved(bursts[0] + est), bursts[1..], b);
    }
  }

  lemma {:induction false} RunStates(states: seq<KState>, events: seq<Event>, n: nat)
    requires Run(states, events) && n <= |events|
    ensures |states| == |events| + 1 && forall k :: 0 <= k <= n ==> Shaped(states[k])
  {
    hide *;
    RunFacts(states, events, n);
    if n > 0 {
      RunStates(states, events, n - 1);
    }
  }

  /**
   Main result: in every run, under every algorithm, the estimate of a process is the
   one it was created with averaged with each of its measured bursts in turn, and the
   ticks counted for it are those since the last of them.
   */
  lemma {:induction false} RunEstimates(states: seq<KState>, events: seq<Event>, n: nat, i: nat)
    requires Run(states, events) && n <= |events| && i < |states[n].procs|
    ensures |states| == |events| + 1 && forall k :: 0 <= k <= n ==> Shaped(states[k])
    ensures states[n].procs[i].burstTicks == TicksSince(states, events, n, i)
    ensures states[n].procs[i].estBurst == Estimate(Birth(states, n, i), Bursts(states, events, n, i))
  {
    hide Invariant, Consistent, PositivePriorities, Enabled, Picks, After, EndsBurst, AllStepped, Shaped, Halved,
      Step;
    RunStates(states, events, n);
    if n > 0 {
      RunFacts(states, events, n - 1);
      var s, e := states[n - 1], events[n - 1];
      StepBursts(s, e);
      if i < |s.procs| {
        RunEstimates(states, events, n - 1, i);
        assert Measured(s, e, states[n], i);
        var bursts := Bursts(states, events, n - 1, i);
        assert bursts + [] == bursts;
        if EndsBurst(s, e, i) {
          EstimateAppends(Birth(states, n - 1, i), bursts, TicksSince(states, events, n - 1, i));
        }
      }
    }
  }

  /** So it stays between the least and the greatest of what it was created with and the measured bursts. */
  lemma RunEstimateBetween(states: seq<KState>, events: seq<Event>, n: nat, i: nat, least: nat, greatest: nat)
    requires Run(states, events) && n <= |events| && i < |states[n].procs|
    requires |states| == |events| + 1 && forall k :: 0 <= k <= n ==> Shaped(states[k])
    requires least <= Birth(states, n, i) <= greatest
    requires var bursts := Bursts(states, events, n, i);
             forall k :: 0 <= k < |bursts| ==> least <= bursts[k] <= greatest
    ensures least <= states[n].procs[i].estBurst <= greatest
  {
    hide Run, Shaped;
    RunEstimates(states, events, n, i);
    EstimateBetween(Birth(states, n, i), Bursts(states, events, n, i), least, greatest);
  }

  /**
   And a process whose bursts all last `b` ticks has that estimate, or one short of it,
   once there have been enough of them.
   */
  lemma RunEstimateConverges(states: seq<KState>, events: seq<Event>, n: nat, i: nat, b: nat, k: nat)
    requires Run(states, events) && n <= |events| && i < |states[n].procs|
    requires |states| == |events| + 1 && forall k :: 0 <= k <= n ==> Shaped(states[k])
    requires Bursts(states, events, n, i) == Constant(b, k) && Birth(states, n, i) >= 0
    ensures var birth, est := Birth(states, n, i), states[n].procs[i].estBurst;
            && (birth >= b ==> (est == b <==> birth - b < Power(k)))
            && (birth < b ==> (est == b - 1 <==> b - 1 - birth < Power(k)))
  {
    hide Run, Shaped;
    RunEstimates(states, events, n, i);
    EstimateConverges(Birth(states, n, i), b, k);
  }

  // ------------------------------------------------------------ estimates

  /** The estimate after a sequence of measured bursts. */
  function Estimate(est: int, bursts: seq<int>): int
    decreases bursts
  {
    if bursts == [] then est else Estimate(Halved(bursts[0] + est), bursts[1..])
  }

  /** The estimate stays between the least and the greatest of its start and the bursts. */
  lemma {:induction false} EstimateBetween(est: int, bursts: seq<int>, least: nat, greatest: nat)
    requires least <= est <= greatest && forall k :: 0 <= k < |bursts| ==> least <= bursts[k] <= greatest
    ensures least <= Estimate(est, bursts) <= greatest
    decreases bursts
  {
    if bursts != [] {
      EstimateBetween(Halved(bursts[0] + est), bursts[1..], least, greatest);
    }
  }

  function Halvings(x: nat, k: nat): nat {
    if k == 0 then x else Halvings(x / 2, k - 1)
  }

  function Power(k: nat): nat {
    if k == 0 then 1 else 2 * Power(k - 1)
  }

  lemma {:induction false} HalvingsEnd(x: nat, k: nat)
    ensures Halvings(x, k) == 0 <==> x < Power(k)
  {
    if k > 0 {
      HalvingsEnd(x / 2, k - 1);
    }
  }

  function Constant(b: nat, k: nat): (r: seq<int>)
    ensures |r| == k && forall j :: 0 <= j < k ==> r[j] == b
  {
    seq(k, j => b)
  }

  /**
   For constant bursts the distance is halved every time: from above the estimate
   arrives at the burst, from below one short of it, after as many blocks as the
   distance has binary digits.
   */
  lemma {:induction false} EstimateConverges(est: nat, b: nat, k: nat)
    ensures est >= b ==> Estimate(est, Constant(b, k)) == b + Halvings(est - b, k)
    ensures est < b ==> Estimate(est, Constant(b, k)) == b - 1 - Halvings(b - 1 - est, k)
    ensures est >= b ==> (Estimate(est, Constant(b, k)) == b <==> est - b < Power(k))
    ensures est < b ==> (Estimate(est, Constant(b, k)) == b - 1 <==> b - 1 - est < Power(k))
    decreases k
  {
    if est >= b {
      HalvingsEnd(est - b, k);
    } else {
      HalvingsEnd(b - 1 - est, k);
    }
    if k > 0 {
      assert Constant(b, k)[1..] == Constant(b, k - 1);
      EstimateConverges((b + est) / 2, b, k - 1);
    }
  }
}
