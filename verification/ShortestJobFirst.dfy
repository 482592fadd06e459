/**
 Shortest-job-first over whole runs: every decision takes, of the processes that
 survive their signals, one with the least estimate, and of several such the one
 that has been in the queue longest.
 */
module ShortestJobFirst {
  import opened SchedulerState
  import opened SchedulerQueues
  import opened SchedulerRuns
  import opened SchedulerSafety
  import opened SchedulerFairness
  import opened SchedulerPriorities
  import opened SchedulerEstimates

  // ---------------------------------------------------- order in the queue

  /** Is `x` before `y` in the queue? */
  ghost predicate Ahead(q: seq<nat>, x: nat, y: nat) {
    exists a, b :: 0 <= a < b < |q| && q[a] == x && q[b] == y
  }

  /**
   The queue `q` has become `r`: who was in it already is in the order of before,
   and a newcomer only got ahead of processes with longer estimates.
   */
  ghost predicate Ordered(procs: seq<Proc>, q: seq<nat>, r: seq<nat>)
    requires InTable(procs, r)
  {
    forall a, b :: 0 <= a < b < |r| && r[b] in q ==> Keeps(procs, q, r[a], r[b])
  }

  ghost predicate Keeps(procs: seq<Proc>, q: seq<nat>, x: nat, y: nat)
    requires x < |procs| && y < |procs|
  {
    if x in q then Ahead(q, x, y) else procs[x].estBurst < procs[y].estBurst
  }

  lemma OrderedTwice(procs: seq<Proc>, q: seq<nat>, r: seq<nat>, t: seq<nat>)
    requires InTable(procs, r) && InTable(procs, t) && Ordered(procs, q, r) && Ordered(procs, r, t)
    requires forall x :: x in t && x in q ==> x in r
    ensures Ordered(procs, q, t)
  {
    forall a, b | 0 <= a < b < |t| && t[b] in q
      ensures Keeps(procs, q, t[a], t[b])
    {
      assert Keeps(procs, r, t[a], t[b]);
      if t[a] in r {
        var c, d :| 0 <= c < d < |r| && r[c] == t[a] && r[d] == t[b];
        assert Keeps(procs, q, r[c], r[d]);
      }
    }
  }

  lemma OrderedEstimates(procs: seq<Proc>, others: seq<Proc>, q: seq<nat>, r: seq<nat>)
    requires InTable(procs, r) && InTable(others, r) && Ordered(procs, q, r)
    requires forall x :: x in r ==> others[x].estBurst == procs[x].estBurst
    ensures Ordered(others, q, r)
  {
    hide Ahead;
    forall a, b | 0 <= a < b < |r| && r[b] in q
      ensures Keeps(others, q, r[a], r[b])
    {
      assert Keeps(procs, q, r[a], r[b]);
      assert r[a] in r && r[b] in r;
    }
  }

  lemma OrderedSuffix(procs: seq<Proc>, q: seq<nat>, n: nat)
    requires n <= |q| && InTable(procs, q)
    ensures InTable(procs, q[n..]) && Ordered(procs, q, q[n..])
  {
    var r := q[n..];
    forall a, b | 0 <= a < b < |r| && r[b] in q
      ensures Keeps(procs, q, r[a], r[b])
    {
      assert q[n + a] == r[a] && q[n + b] == r[b];
    }
  }

  lemma OrderedInsert(procs: seq<Proc>, q: seq<nat>, j: nat, i: nat)
    requires InTable(procs, q) && i < |procs| && j <= |q| && i !in q
    requires forall k :: j <= k < |q| ==> procs[i].estBurst < procs[q[k]].estBurst
    ensures InTable(procs, InsertAt(q, j, i)) && Ordered(procs, q, InsertAt(q, j, i))
    ensures forall x :: x in InsertAt(q, j, i) <==> x in q || x == i
  {
    hide InsertAt, Keeps, Element;
    var r := InsertAt(q, j, i);
    InsertedAt(q, j, i);
    assert InTable(procs, r) by {
      assert forall k :: 0 <= k < |r| ==> r[k] in r;
    }
    forall a, b | 0 <= a < b < |r| && r[b] in q
      ensures Keeps(procs, q, r[a], r[b])
    {
      InsertKeeps(procs, q, j, i, r, a, b);
    }
  }

  /** Element `k` of the queue with `i` at position `j`. */
  function Element(q: seq<nat>, j: nat, i: nat, k: nat): nat
    requires j <= |q| && k <= |q|
  {
    if k < j then q[k] else if k == j then i else q[k - 1]
  }

  lemma InsertedAt(q: seq<nat>, j: nat, i: nat)
    requires j <= |q|
    ensures var r := InsertAt(q, j, i);
            && |r| == |q| + 1 && (forall k :: 0 <= k < |r| ==> r[k] == Element(q, j, i, k))
            && (forall x :: x in r <==> x in q || x == i)
  {
    var r := InsertAt(q, j, i);
    assert q == q[..j] + q[j..];
    forall k | 0 <= k < |r|
      ensures r[k] == Element(q, j, i, k)
    {
      if k > j {
        assert r[k] == q[j..][k - j - 1];
      }
    }
  }

  lemma InsertKeeps(procs: seq<Proc>, q: seq<nat>, j: nat, i: nat, r: seq<nat>, a: nat, b: nat)
    requires InTable(procs, q) && InTable(procs, r) && i < |procs| && j <= |q| && i !in q && |r| == |q| + 1
    requires forall k :: 0 <= k < |r| ==> r[k] == Element(q, j, i, k)
    requires forall k :: j <= k < |q| ==> procs[i].estBurst < procs[q[k]].estBurst
    requires a < b < |r| && r[b] in q
    ensures Keeps(procs, q, r[a], r[b])
  {
    assert r[a] == Element(q, j, i, a) && r[b] == Element(q, j, i, b);
    if a != j {
      var c, d := if a < j then a else a - 1, if b < j then b else b - 1;
      assert q[c] == r[a] && q[d] == r[b];
    }
  }

  // -------------------------------------------------------------- sub-steps

  function Queue(s: KState): seq<nat>
    requires Shaped(s)
  {
    s.queues[READY_QUEUE]
  }

  /** The sorted insertion, for a process that is not queued. */
  lemma EnqueueOrdered(s: KState, i: nat)
    requires Shaped(s) && 0 < i < |s.procs| && s.algorithm == SJF && SortedQueue(s) && i !in Queue(s)
    ensures Shaped(Enqueue(s, i)) && SortedQueue(Enqueue(s, i))
    ensures Ordered(s.procs, Queue(s), Queue(Enqueue(s, i)))
    ensures forall x :: x in Queue(Enqueue(s, i)) <==> x in Queue(s) || x == i
    ensures forall x :: 0 <= x < |s.procs| ==> Enqueue(s, i).procs[x].estBurst == s.procs[x].estBurst
  {
    hide Ordered, SortedPlace, InsertAt;
    EnqueueSorted(s, i);
    InsertKeepsSorted(s.procs, Queue(s), i);
    OrderedInsert(s.procs, Queue(s), SortedPlace(s.procs, Queue(s), s.procs[i].estBurst), i);
  }

  lemma {:induction false} WakeWaitersOrdered(s: KState, target: nat, i: nat)
    requires Shaped(s) && i <= |s.procs| && s.algorithm == SJF && SortedQueue(s)
    requires forall x :: 0 <= x < |s.procs| && x in Queue(s) ==> s.procs[x].state == READY
    requires s.procs[INIT].state != WAITING_ANOTHER_PROCESS
    ensures var v := WakeWaiters(s, target, i);
            && Ordered(s.procs, Queue(s), Queue(v))
            && (forall x :: x in Queue(s) ==> x in Queue(v))
            && (forall x :: x in Queue(v) ==> x in Queue(s) || s.procs[x].state == WAITING_ANOTHER_PROCESS)
            && (forall x :: 0 <= x < |s.procs| ==> v.procs[x].estBurst == s.procs[x].estBurst)
    decreases |s.procs| - i
  {
    hide Enqueue, Ordered, Sorted;
    if i == |s.procs| {
      OrderedSuffix(s.procs, Queue(s), 0);
      assert Queue(s)[0..] == Queue(s);
    } else if Waits(s.procs[i], target) {
      var p := s.procs[i].(state := READY, pidToWait := -1);
      var u := WithProc(s, i, p);
      RecordSorted(s, i, p);
      EnqueueOrdered(u, i);
      EnqueueGrows(u, i);
      var w := Enqueue(u, i);
      EnqueueStates(u, i);
      WakeWaitersOrdered(w, target, i + 1);
      var v := WakeWaiters(w, target, i + 1);
      OrderedEstimates(u.procs, s.procs, Queue(s), Queue(w));
      OrderedEstimates(w.procs, s.procs, Queue(w), Queue(v));
      OrderedTwice(s.procs, Queue(s), Queue(w), Queue(v));
    } else {
      WakeWaitersOrdered(s, target, i + 1);
    }
  }

  lemma EnqueueStates(s: KState, i: nat)
    requires Shaped(s) && i < |s.procs|
    ensures forall x :: 0 <= x < |s.procs| && x != i ==> Enqueue(s, i).procs[x].state == s.procs[x].state
    ensures i != INIT ==> Enqueue(s, i).procs[i].state == READY
  {
  }

  // ------------------------------------------------------------- decisions

  /** Only the ready are queued, and neither init nor the process that runs is. */
  lemma QueuedAreReady(s: KState)
    requires Consistent(s)
    ensures forall x :: x in Queue(s) ==> 0 < x < |s.procs| && s.procs[x].state == READY
    ensures s.current !in Queue(s)
  {
    hide Linked;
    QueuedOnce(s, READY_QUEUE);
    NotQueued(s);
  }

  lemma RestOrdered(s: KState)
    requires Shaped(s) && s.current !in Queue(s)
    ensures Queue(Rest(s)) == Queue(s)
    ensures forall x :: x in Queue(s) ==> Rest(s).procs[x].estBurst == s.procs[x].estBurst
  {
  }

  /** Entering a decision only adds the processes that an exit wakes up. */
  lemma EntryOrdered(s: KState, e: Event)
    requires Invariant(s) && PositivePriorities(s.procs) && Enabled(s, e) && Picks(s, e)
    requires s.algorithm == SJF && SortedQueue(s)
    ensures var u := Entry(s, e);
            && Shaped(u) && |u.procs| == |s.procs| && Ordered(u.procs, Queue(s), Queue(u))
            && (forall x :: x in Queue(s) ==> x in Queue(u))
            && (forall x :: x in Queue(u) && x !in Queue(s) ==> s.procs[x].state != READY)
  {
    hide Linked, Links, PositivePriorities, Sane, WakeWaiters, Pick, Placed, Rest, Sorted, Ordered, Consistent;
    InvariantFacts(s);
    ConsistentFacts(s);
    SaneAt(s, s.current);
    QueuedAreReady(s);
    var q := Queue(s);
    OrderedSuffix(s.procs, q, 0);
    assert q[0..] == q;
    if e.Yielded? {
      assert WithProc(s, s.current, Leaving(s, e)) == s;
      RestOrdered(s);
      OrderedEstimates(s.procs, Rest(s).procs, q, q);
    } else {
      var y := Leaving(s, e);
      StaysSane(s.procs[s.current], y);
      LeavesKeeps(s, y);
      RecordSorted(s, s.current, y);
      var u := WithProc(s, s.current, y);
      if e.Exited? {
        SaneAt(s, INIT);
        WakeWaitersOrdered(u, s.current, 0);
        var w := WakeWaiters(u, s.current, 0);
        WakeWaitersKeeps(u, s.current, 0);
        QueuedAreReady(w);
        RestOrdered(w);
        OrderedEstimates(u.procs, Rest(w).procs, q, Queue(w));
      } else {
        RestOrdered(u);
        OrderedEstimates(s.procs, Rest(u).procs, q, q);
      }
    }
  }

  /** Parking adds the process that ran. */
  lemma DecidingOrdered(s: KState, e: Event)
    requires Invariant(s) && PositivePriorities(s.procs) && Enabled(s, e) && Picks(s, e)
    requires s.algorithm == SJF && SortedQueue(s)
    ensures Shaped(Entry(s, e))
    ensures var b := Deciding(s, e);
            && Shaped(b) && |b.procs| == |s.procs| && b.algorithm == SJF && SortedQueue(b)
               && Ordered(b.procs, Queue(s), Queue(b))
            && (forall x :: x in Queue(s) ==> x in Queue(b) && b.procs[x].estBurst == s.procs[x].estBurst)
  {
    hide Linked, Links, PositivePriorities, Sane, Entry, Pick, Placed, Sorted, Ordered, Consistent, Enqueue, Picks,
      Enabled;
    EntryFacts(s, e);
    EntrySorted(s, e);
    EntryOrdered(s, e);
    InvariantFacts(s);
    QueuedAreReady(s);
    var q, u := Queue(s), Entry(s, e);
    QueuedAreReady(u);
    var p := u.procs[u.current];
    RecordSorted(u, u.current, p.(preemptDisabled := p.preemptDisabled + 1));
    var a := AddPreempt(u, u.current, 1);
    OrderedEstimates(u.procs, a.procs, q, Queue(u));
    if a.current != INIT && a.procs[a.current].state == RUNNING {
      EnqueueOrdered(a, a.current);
      EnqueueGrows(a, a.current);
      var b := Enqueue(a, a.current);
      OrderedEstimates(a.procs, b.procs, q, Queue(u));
      OrderedEstimates(a.procs, b.procs, Queue(u), Queue(b));
      OrderedTwice(b.procs, q, Queue(u), Queue(b));
    }
  }

  /** What a decision makes of the queue it looks at. */
  lemma DecisionTakes(s: KState, e: Event)
    requires Invariant(s) && PositivePriorities(s.procs) && Enabled(s, e) && Picks(s, e)
    requires s.algorithm == SJF && SortedQueue(s) && Shaped(Entry(s, e)) && Shaped(Deciding(s, e))
    ensures var b, v := Deciding(s, e), After(s, e);
            && Shaped(v) && |v.procs| == |b.procs| && v.current == TakeReady(b, READY_QUEUE).1
            && Queue(v) == Queue(TakeReady(b, READY_QUEUE).0)
            && forall x :: 0 <= x < |b.procs| ==> v.procs[x].estBurst == b.procs[x].estBurst
  {
    hide Linked, Links, PositivePriorities, Sane, Entry, Placed, TakeReady, Undecided, Selected, Park, Enqueue, Picks,
      Enabled, After;
    EntryFacts(s, e);
    var b, c, next := PickSteps(Entry(s, e), DrawsOf(e));
    SelectedFacts(b, c, next);
    SelectedEstimates(b, c, next);
    SwitchRecords(c, next);
  }

  lemma SelectedEstimates(s: KState, v: KState, next: nat)
    requires Selected(s, v, next)
    ensures forall x :: 0 <= x < |s.procs| ==> x < |v.procs| && v.procs[x].estBurst == s.procs[x].estBurst
  {
    hide Linked, Signalled;
    forall x | 0 <= x < |s.procs|
      ensures x < |v.procs| && v.procs[x].estBurst == s.procs[x].estBurst
    {
      assert Decided(s.procs[x], v.procs[x]);
    }
  }

  lemma TakenQueue(s: KState) returns (n: nat)
    requires Shaped(s)
    ensures n <= |Queue(s)| && Queue(TakeReady(s, READY_QUEUE).0) == Queue(s)[n..]
  {
    var q := Queue(s);
    var d := FirstSurvivor(s.procs, q);
    n := if d == |q| then d else d + 1;
    assert q[|q|..] == [];
  }

  /** The queue after an event, by the estimates after it, is ordered in terms of the queue before it. */
  ghost predicate StepOrder(s: KState, v: KState)
    requires Shaped(s) && Shaped(v)
  {
    && Ordered(v.procs, Queue(s), Queue(v))
    && forall x :: x in Queue(s) && x in Queue(v) ==> v.procs[x].estBurst == s.procs[x].estBurst
  }

  lemma PickOrder(s: KState, e: Event)
    requires Invariant(s) && PositivePriorities(s.procs) && Enabled(s, e) && Picks(s, e) && s.algorithm == SJF
             && SortedQueue(s)
    ensures Shaped(After(s, e)) && StepOrder(s, After(s, e))
  {
    hide Linked, PositivePriorities, Entry, Deciding, After, Picks, Enabled, Ordered, TakeReady, Sorted, Invariant;
    InvariantFacts(s);
    ConsistentFacts(s);
    DecidingOrdered(s, e);
    DecisionTakes(s, e);
    var b, v := Deciding(s, e), After(s, e);
    var n := TakenQueue(b);
    OrderedSuffix(b.procs, Queue(b), n);
    assert forall x :: x in Queue(v) ==> x in Queue(b);
    OrderedTwice(b.procs, Queue(s), Queue(b), Queue(v));
    OrderedEstimates(b.procs, v.procs, Queue(s), Queue(v));
  }

  lemma SameQueueOrder(s: KState, v: KState)
    requires Shaped(s) && Shaped(v) && Queue(v) == Queue(s) && |s.procs| <= |v.procs|
    requires forall x :: x in Queue(s) ==> v.procs[x].estBurst == s.procs[x].estBurst
    ensures StepOrder(s, v)
  {
    hide Ordered;
    OrderedSuffix(v.procs, Queue(v), 0);
    assert Queue(v)[0..] == Queue(v);
  }

  /** A process that comes from elsewhere is inserted. */
  lemma InsertOrder(s: KState, u: KState, i: nat)
    requires Shaped(s) && Shaped(u) && Queue(u) == Queue(s) && |s.procs| <= |u.procs| && u.algorithm == SJF
             && SortedQueue(u)
    requires forall x :: x in Queue(s) ==> u.procs[x].estBurst == s.procs[x].estBurst
    requires 0 < i < |u.procs| && i !in Queue(s)
    ensures Shaped(Enqueue(u, i)) && StepOrder(s, Enqueue(u, i)) && |Enqueue(u, i).procs| == |u.procs|
  {
    hide Ordered, Enqueue, Sorted;
    EnqueueGrows(u, i);
    EnqueueOrdered(u, i);
    OrderedEstimates(u.procs, Enqueue(u, i).procs, Queue(s), Queue(Enqueue(u, i)));
  }

  lemma ForkOrder(s: KState, memory: bool)
    requires Invariant(s) && s.algorithm == SJF && SortedQueue(s)
    ensures Shaped(Fork(s, memory).0) && StepOrder(s, Fork(s, memory).0)
  {
    hide Linked, Enqueue, Placed, Ordered, Sorted;
    InvariantFacts(s);
    QueuedAreReady(s);
    var v := Fork(s, memory).0;
    var a := AddPreempt(s, s.current, 1);
    if Fails(s, Forked(memory)) {
      SameQueueOrder(s, v);
    } else {
      RecordSorted(s, s.current, a.procs[s.current]);
      var x := Child(a.procs[a.current]);
      var u := a.(procs := a.procs + [x], level := a.level[|a.procs| := Clamped(x.queuePriority)]);
      SameEstimates(a.procs, u.procs, u.queues[READY_QUEUE]);
      InsertOrder(s, u, |a.procs|);
      var r := Enqueue(u, |a.procs|);
      OrderedEstimates(r.procs, v.procs, Queue(s), Queue(r));
    }
  }

  lemma WokenOrder(s: KState, i: nat)
    requires Invariant(s) && Enabled(s, Woken(i)) && s.algorithm == SJF && SortedQueue(s)
    ensures Shaped(Wake(s, i)) && StepOrder(s, Wake(s, i))
  {
    hide Linked, Links, Sane, Enqueue, Placed, Sorted, StepOrder;
    InvariantFacts(s);
    QueuedAreReady(s);
    SaneAt(s, i);
    RecordSorted(s, i, s.procs[i].(state := READY));
    InsertOrder(s, WithState(s, i, READY), i);
  }

  /** An event that links nobody leaves the queue as it was. */
  lemma QuietOrder(s: KState, e: Event)
    requires Shaped(s) && PositivePriorities(s.procs) && Enabled(s, e) && !Picks(s, e) && s.algorithm == SJF
    requires !e.Forked? && !e.Woken?
    ensures Shaped(After(s, e)) && StepOrder(s, After(s, e))
  {
    hide PositivePriorities, Schedule, Block, Exit, Pick, StepOrder;
    SameQueueOrder(s, After(s, e));
  }

  lemma StepOrdered(s: KState, e: Event)
    requires Invariant(s) && PositivePriorities(s.procs) && Enabled(s, e) && s.algorithm == SJF && SortedQueue(s)
    ensures Shaped(After(s, e)) && StepOrder(s, After(s, e))
  {
    hide PositivePriorities, Schedule, Block, Exit, Wake, Fork, Tick, Wait, Picks, Sorted, StepOrder, Invariant,
      Consistent, Shaped;
    InvariantFacts(s);
    ConsistentFacts(s);
    if Picks(s, e) {
      PickOrder(s, e);
    } else {
      match e
      case Forked(memory) => ForkOrder(s, memory);
      case Woken(i) => WokenOrder(s, i);
      case _ => QuietOrder(s, e);
    }
  }

  lemma QueueInTable(s: KState)
    requires Shaped(s)
    ensures InTable(s.procs, Queue(s)) && forall x :: x in Queue(s) ==> x < |s.procs|
  {
  }

  // ----------------------------------------------------------------- runs

  /** The number of the state in which the process `x`, which is queued after `n` events, came to the queue. */
  ghost function Since(states: seq<KState>, n: nat, x: nat): (m: nat)
    requires n < |states| && forall k :: 0 <= k <= n ==> Shaped(states[k])
    ensures m <= n
  {
    if n > 0 && x in Queue(states[n - 1]) && x in Queue(states[n]) then Since(states, n - 1, x) else n
  }

  /** Of two queued processes with the same estimate the one in front has been queued no later. */
  lemma {:induction false} RunArrivals(states: seq<KState>, events: seq<Event>, n: nat, a: nat, b: nat)
    requires Run(states, events) && n <= |events| && states[0].algorithm == SJF
    requires |states| == |events| + 1 && forall k :: 0 <= k <= n ==> Shaped(states[k])
    requires var q := Queue(states[n]); a < b < |q| && states[n].procs[q[a]].estBurst == states[n].procs[q[b]].estBurst
    ensures Since(states, n, Queue(states[n])[a]) <= Since(states, n, Queue(states[n])[b])
  {
    hide Invariant, Consistent, Shaped, Enabled, After, AllStepped, Sorted;
    var q := Queue(states[n]);
    if n > 0 && q[b] in Queue(states[n - 1]) {
      RunFacts(states, events, n - 1);
      RunSorted(states, events, n - 1);
      var s, v := states[n - 1], states[n];
      StepOrdered(s, events[n - 1]);
      QueueInTable(v);
      assert Keeps(v.procs, Queue(s), q[a], q[b]);
      var c, d :| 0 <= c < d < |Queue(s)| && Queue(s)[c] == q[a] && Queue(s)[d] == q[b];
      RunArrivals(states, events, n - 1, c, d);
    }
  }

  /** When a process that a decision looks at came to the queue; the event itself comes last. */
  ghost function Arrival(states: seq<KState>, n: nat, x: nat): nat
    requires n < |states| && forall k :: 0 <= k <= n ==> Shaped(states[k])
  {
    if x in Queue(states[n]) then Since(states, n, x) else n + 1
  }

  /**
   Main result: in every run of shortest-job-first every decision takes, of the
   processes that survive their signals, one with the least estimate, and of
   several such the one that came to the queue first.
   */
  lemma RunShortestFirst(states: seq<KState>, events: seq<Event>, n: nat)
    requires Run(states, events) && n < |events| && states[0].algorithm == SJF
    ensures |states| == |events| + 1 && forall k :: 0 <= k <= n ==> Shaped(states[k])
    ensures Shaped(states[n]) && Picks(states[n], events[n]) ==>
              && Shaped(Entry(states[n], events[n])) && Shaped(Deciding(states[n], events[n]))
              && var b, w := Deciding(states[n], events[n]), states[n + 1].current;
                 && (w == INIT ==> forall x :: x in Queue(b) ==> !Survives(b.procs[x]))
                 && (w != INIT ==>
                       && w in Queue(b) && Survives(b.procs[w])
                       && forall x :: x in Queue(b) && Survives(b.procs[x]) ==>
                            || b.procs[w].estBurst < b.procs[x].estBurst
                            || (b.procs[w].estBurst == b.procs[x].estBurst
                                && Arrival(states, n, w) <= Arrival(states, n, x)))
  {
    hide Invariant, Consistent, Shaped, Enabled, After, AllStepped, Sorted, Picks, Deciding, Entry, TakeReady, Run,
      Ordered;
    RunStates(states, events, n);
    RunFacts(states, events, n);
    RunSorted(states, events, n);
    var s, e := states[n], events[n];
    if Picks(s, e) {
      DecidingOrdered(s, e);
      DecisionTakes(s, e);
      var b, w := Deciding(s, e), states[n + 1].current;
      FirstTaken(b, w);
      QueueInTable(b);
      if w != INIT {
        forall x | x in Queue(b) && Survives(b.procs[x])
          ensures || b.procs[w].estBurst < b.procs[x].estBurst
                  || (b.procs[w].estBurst == b.procs[x].estBurst && Arrival(states, n, w) <= Arrival(states, n, x))
        {
          AheadOrShorter(b, w, x);
          if w != x {
            TiesByArrival(states, events, n, b, w, x);
          }
        }
      }
    }
  }

  /** The process taken is the first survivor. */
  lemma FirstTaken(s: KState, w: nat)
    requires Shaped(s) && w == TakeReady(s, READY_QUEUE).1
    ensures w == INIT ==> forall x :: x in Queue(s) ==> !Survives(s.procs[x])
    ensures w != INIT ==> w in Queue(s) && Survives(s.procs[w]) && FirstIn(s, w)
  {
    var q := Queue(s);
    var d := FirstSurvivor(s.procs, q);
    if d < |q| {
      assert q[d] == w;
    }
  }

  ghost predicate FirstIn(s: KState, w: nat)
    requires Shaped(s)
  {
    exists d :: 0 <= d < |Queue(s)| && Queue(s)[d] == w && forall k :: 0 <= k < d ==> !Survives(s.procs[Queue(s)[k]])
  }

  lemma AheadOrShorter(s: KState, w: nat, x: nat)
    requires Shaped(s) && SortedQueue(s) && FirstIn(s, w) && w < |s.procs| && x in Queue(s) && Survives(s.procs[x])
    ensures s.procs[w].estBurst <= s.procs[x].estBurst && (w == x || Ahead(Queue(s), w, x))
  {
    var q := Queue(s);
    var d :| 0 <= d < |q| && q[d] == w && forall k :: 0 <= k < d ==> !Survives(s.procs[q[k]]);
    var k :| 0 <= k < |q| && q[k] == x;
    assert d <= k;
  }

  lemma TiesByArrival(states: seq<KState>, events: seq<Event>, n: nat, b: KState, w: nat, x: nat)
    requires Run(states, events) && n <= |events| && states[0].algorithm == SJF
    requires |states| == |events| + 1 && forall k :: 0 <= k <= n ==> Shaped(states[k])
    requires Shaped(b) && Ordered(b.procs, Queue(states[n]), Queue(b)) && Ahead(Queue(b), w, x)
    requires forall y :: y in Queue(states[n]) ==> y in Queue(b) && b.procs[y].estBurst == states[n].procs[y].estBurst
    requires w < |b.procs| && x < |b.procs|
    ensures b.procs[w].estBurst == b.procs[x].estBurst ==> Arrival(states, n, w) <= Arrival(states, n, x)
  {
    hide Run, Shaped;
    var q := Queue(states[n]);
    var c, d :| 0 <= c < d < |Queue(b)| && Queue(b)[c] == w && Queue(b)[d] == x;
    if x in q && b.procs[w].estBurst == b.procs[x].estBurst {
      assert Keeps(b.procs, q, Queue(b)[c], Queue(b)[d]);
      var y, z :| 0 <= y < z < |q| && q[y] == w && q[z] == x;
      RunArrivals(states, events, n, y, z);
    }
  }
}
