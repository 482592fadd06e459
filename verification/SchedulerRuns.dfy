/**
 Every run of the kernel's scheduling events, under any of the seven algorithms.
 */
module SchedulerRuns {
  import opened SchedulerState
  import opened SchedulerQueues

  /**
   `draws` stands for the random numbers that a decision may ask for. The system
   calls are those of the current process; a block is a wait for input or for a
   message.
   */
  datatype Event =
    | Ticked(draws: seq<nat>)
    | Yielded(draws: seq<nat>)
    | Blocked(state: State, draws: seq<nat>)
    | Awaited(target: int, draws: seq<nat>)
    | Exited(draws: seq<nat>)
    | Forked(memory: bool)
    | Woken(pid: nat)
    | Sent(pid: nat, flag: nat)
    | Configured(pid: nat, param: Param, value: int)

  predicate Blocking(st: State) {
    st == WAITING_UART_INPUT || st == WAITING_TO_RECEIVE_MESSAGE || st == WAITING_TO_SEND_MESSAGE
  }

  /** What the caller of each operation guarantees. */
  ghost predicate Enabled(s: KState, e: Event)
    requires Shaped(s)
  {
    match e
    case Ticked(draws) => Room(s, draws)
    case Yielded(draws) => Room(s, draws)
    case Blocked(st, draws) => Room(s, draws) && s.current != INIT && Blocking(st)
    case Awaited(_, draws) => Room(s, draws) && s.current != INIT
    case Exited(draws) => Room(s, draws) && s.current != INIT
    case Forked(_) => true
    case Woken(i) => i < |s.procs| && Blocking(s.procs[i].state)
    case Sent(i, _) => i < |s.procs|
    case Configured(i, _, value) => i < |s.procs| && value <= 0x7fff_ffff
  }

  function After(s: KState, e: Event): KState
    requires Shaped(s) && PositivePriorities(s.procs) && Enabled(s, e)
  {
    match e
    case Ticked(draws) => Tick(s, draws)
    case Yielded(draws) => Schedule(s, draws)
    case Blocked(st, draws) => Block(s, st, draws)
    case Awaited(pid, draws) => Wait(s, pid, draws).0
    case Exited(draws) => Exit(s, draws)
    case Forked(memory) => Fork(s, memory).0
    case Woken(i) => Wake(s, i)
    case Sent(i, flag) => SendSignal(s, i, flag)
    case Configured(i, param, value) => SetParam(s, i, param, value).0
  }

  // ----------------------------------------------------------- invariants

  ghost predicate Sane(p: Proc) {
    && p.priority >= 1 && p.estBurst >= 0 && p.burstTicks >= 0
    && 1 <= p.tickets <= MAX_TICKETS && 0 <= p.queuePriority < ML_MAX_LEVELS
  }

  /** The init process only ever boots, runs or idles, and nobody else boots. */
  ghost predicate InitOrNot(s: KState, i: nat)
    requires i < |s.procs|
  {
    if i == INIT then s.procs[i].state in {BOOTING, RUNNING, READY} else s.procs[i].state != BOOTING
  }

  /** Holds throughout a decision, whatever the state of the current process. */
  ghost predicate Consistent(s: KState) {
    && Shaped(s) && Linked(s, INIT) && Placed(s)
    && (forall i :: 0 <= i < |s.procs| ==> Sane(s.procs[i]) && InitOrNot(s, i))
    && (forall i :: 0 <= i < |s.procs| && s.procs[i].state == RUNNING ==> i == s.current)
    && (s.current == INIT || s.procs[s.current].state != READY)
  }

  /** Holds between events: the current process runs, or is the init process at boot. */
  ghost predicate Invariant(s: KState) {
    && Consistent(s)
    && (s.procs[s.current].state == RUNNING || (s.current == INIT && s.procs[INIT].state == BOOTING))
  }

  ghost predicate Start(s: KState) {
    && s.procs == [Proc(BOOTING, 1, 1, 0, 0, 0, 10, 0, {}, -1)]
    && s.queues == [[], [], [], [], [], []] && s.level == seq(N_PROCESSES, i => 0)
    && s.ticks == 0 && s.current == INIT
  }

  lemma InvariantFacts(s: KState)
    requires Invariant(s)
    ensures Consistent(s)
  {
  }

  lemma ConsistentFacts(s: KState)
    requires Consistent(s)
    ensures Shaped(s) && Linked(s, INIT) && Placed(s) && s.current < |s.procs| <= N_PROCESSES
  {
  }

  /** Most fields of a record may change freely. */
  lemma StaysSane(p: Proc, q: Proc)
    requires Sane(p)
    requires q == p.(state := q.state, counter := q.counter, preemptDisabled := q.preemptDisabled,
                     pending := q.pending, pidToWait := q.pidToWait)
    ensures Sane(q)
  {
  }

  lemma EndedSane(p: Proc)
    requires Sane(p)
    ensures Sane(EndBurst(p)) && Sane(EndBurst(p).(counter := 0)) && Sane(p.(counter := 0))
  {
  }

  lemma ChildSane(p: Proc)
    requires Sane(p)
    ensures Sane(Child(p))
  {
  }

  lemma Priorities(s: KState)
    requires Consistent(s)
    ensures PositivePriorities(s.procs)
  {
    assert forall i :: 0 <= i < |s.procs| ==> Sane(s.procs[i]);
  }

  /** What an event does to a state that satisfies the invariant; `RunInvariant` shows that every reached state does. */
  ghost predicate Step(s: KState, e: Event, v: KState) {
    Invariant(s) ==> (Priorities(s); Enabled(s, e) && v == After(s, e))
  }

  ghost predicate Run(states: seq<KState>, events: seq<Event>) {
    && |states| == |events| + 1 && Start(states[0])
    && forall n :: 0 <= n < |events| ==> Step(states[n], events[n], states[n + 1])
  }

  // ------------------------------------------------------------ decisions

  /** Between parking and switching nobody but the init process is running. */
  ghost predicate Undecided(s: KState, out: nat) {
    && Shaped(s) && Linked(s, out) && Placed(s)
    && (forall i :: 0 <= i < |s.procs| ==> Sane(s.procs[i]) && InitOrNot(s, i))
    && (forall i :: 0 <= i < |s.procs| && s.procs[i].state == RUNNING ==> i == s.current == INIT)
  }

  lemma RelinkedSame(s: KState, v: KState, out: nat, out': nat)
    requires Linked(s, out) && v.queues == s.queues
    requires forall x: nat :: (IsReady(v, x) && x != out') <==> (IsReady(s, x) && x != out)
    ensures Linked(v, out')
  {
    hide Links;
    forall x: nat
      ensures LinkedOnce(v, out', x)
    {
      assert LinkedOnce(s, out, x);
    }
  }

  lemma EnqueueGrows(s: KState, i: nat)
    requires Shaped(s) && i < |s.procs|
    ensures Shaped(Enqueue(s, i)) && |Enqueue(s, i).procs| == |s.procs| && Enqueue(s, i).algorithm == s.algorithm
    ensures Enqueue(s, i).ticks == s.ticks
    ensures |s.queues[READY_QUEUE]| <= |Enqueue(s, i).queues[READY_QUEUE]| <= |s.queues[READY_QUEUE]| + 1
  {
  }

  lemma ParkLinks(s: KState)
    requires Consistent(s)
    ensures Undecided(Park(s), INIT)
    ensures Park(s) == s.(procs := Park(s).procs, queues := Park(s).queues) && |Park(s).procs| == |s.procs|
    ensures forall i :: 0 <= i < |s.procs| ==>
              Park(s).procs[i]
              == if i == s.current != INIT && s.procs[i].state == RUNNING then s.procs[i].(state := READY)
                 else s.procs[i]
    ensures |Park(s).queues[READY_QUEUE]| <= |s.queues[READY_QUEUE]| + 1
  {
    hide Linked, Enqueue;
    if s.current != INIT && s.procs[s.current].state == RUNNING {
      RelinkedSame(s, s, INIT, s.current);
      EnqueueLinks(s, s.current);
      EnqueueGrows(s, s.current);
    }
  }

  lemma UndecidedFacts(s: KState, out: nat)
    requires Undecided(s, out)
    ensures Shaped(s) && Linked(s, out) && Placed(s) && PositivePriorities(s.procs)
  {
    forall i | 0 <= i < |s.procs|
      ensures s.procs[i].priority >= 1
    {
      assert Sane(s.procs[i]);
    }
  }

  lemma SelectedFacts(s: KState, v: KState, next: nat)
    requires Selected(s, v, next)
    ensures Shaped(v) && next < |v.procs| && |v.procs| == |s.procs| && v.algorithm == s.algorithm
            && v.current == s.current
    ensures next != INIT ==> v.procs[next].state == READY
  {
  }

  lemma DecidedSane(b: KState, c: KState, next: nat)
    requires Undecided(b, INIT) && Selected(b, c, next)
    ensures Undecided(c, next) && c.current == b.current && |c.procs| == |b.procs|
  {
    hide Linked;
    forall i | 0 <= i < |c.procs|
      ensures Sane(c.procs[i]) && InitOrNot(c, i)
      ensures c.procs[i].state == RUNNING ==> i == c.current == INIT
    {
      assert Decided(b.procs[i], c.procs[i]) && Sane(b.procs[i]) && InitOrNot(b, i);
    }
  }

  lemma SwitchLinks(s: KState, next: nat)
    requires Undecided(s, next) && next < |s.procs|
    requires next != INIT ==> s.procs[next].state == READY
    requires s.current != INIT ==> s.procs[s.current].state != RUNNING
    requires next == INIT ==> s.current == INIT || s.procs[s.current].state != READY
    ensures Invariant(SwitchTo(s, next)) && SwitchTo(s, next).current == next
  {
    hide Linked;
    var v := SwitchTo(s, next);
    RelinkedSame(s, v, next, INIT);
    forall i | 0 <= i < |v.procs|
      ensures Sane(v.procs[i]) && InitOrNot(v, i)
    {
      assert Sane(s.procs[i]) && InitOrNot(s, i);
    }
  }

  lemma PreemptRecords(s: KState, i: nat, d: int)
    requires i < |s.procs|
    ensures var v := AddPreempt(s, i, d); v == s.(procs := v.procs) && |v.procs| == |s.procs|
  {
  }

  lemma PreemptKeeps(s: KState, i: nat, d: int)
    requires i < |s.procs|
    ensures Consistent(s) ==> Consistent(AddPreempt(s, i, d))
    ensures Invariant(s) ==> Invariant(AddPreempt(s, i, d))
  {
    hide Links;
    var v := AddPreempt(s, i, d);
    if Consistent(s) {
      RelinkedSame(s, v, INIT, INIT);
      forall j | 0 <= j < |v.procs|
        ensures Sane(v.procs[j]) && InitOrNot(v, j)
      {
        assert Sane(s.procs[j]) && InitOrNot(s, j);
      }
    }
  }

  /** The states a decision goes through. */
  lemma PickSteps(s: KState, draws: seq<nat>) returns (b: KState, c: KState, next: nat)
    requires Consistent(s) && PositivePriorities(s.procs) && |s.queues[READY_QUEUE]| < |draws|
    ensures b == Park(AddPreempt(s, s.current, 1)) && Undecided(b, INIT)
    ensures |b.procs| == |s.procs| && b.current == s.current && b.algorithm == s.algorithm && b.level == s.level
            && b.ticks == s.ticks
    ensures PositivePriorities(b.procs) && |b.queues[READY_QUEUE]| <= |draws|
    ensures (c, next) == Select(b, draws) && Selected(b, c, next) && Undecided(c, next)
    ensures Pick(s, draws) == AddPreempt(SwitchTo(c, next), next, -1)
    ensures Invariant(Pick(s, draws)) && Pick(s, draws).current == next
  {
    hide Linked, Selected, Select, Park, AddPreempt, SwitchTo, Sane;
    var a := AddPreempt(s, s.current, 1);
    PreemptKeeps(s, s.current, 1);
    ParkLinks(a);
    b := Park(a);
    PreemptRecords(s, s.current, 1);
    UndecidedFacts(b, INIT);
    SelectLinks(b, draws);
    c, next := Select(b, draws).0, Select(b, draws).1;
    DecidedSane(b, c, next);
    SelectedFacts(b, c, next);
    assert next == INIT ==> c.current == INIT || c.procs[c.current].state != READY by {
      if next == INIT && c.current != INIT {
        IdleMeansNone(b, c);
        assert !IsReady(c, c.current);
      }
    }
    SwitchLinks(c, next);
    PreemptKeeps(SwitchTo(c, next), next, -1);
    SwitchRecords(c, next);
    PreemptRecords(SwitchTo(c, next), next, -1);
  }

  /** When the selection finds nobody, nobody is ready. */
  lemma IdleMeansNone(s: KState, v: KState)
    requires Selected(s, v, INIT)
    ensures forall i: nat :: !IsReady(v, i)
  {
    forall i: nat
      ensures !IsReady(v, i)
    {
      assert LinkedOnce(v, INIT, i);
      EmptyLinks(v.queues, i);
    }
  }

  lemma {:induction false} EmptyLinks(queues: seq<seq<nat>>, i: nat)
    requires forall k :: 0 <= k < |queues| ==> queues[k] == []
    ensures Links(queues, i) == 0
  {
    if queues != [] {
      EmptyLinks(queues[1..], i);
    }
  }

  /** What a decision does to each record, and how the preemption count moves from the old to the new process. */
  ghost predicate Redecided(s: KState, v: KState, i: nat)
    requires i < |s.procs| && i < |v.procs|
  {
    var p, q := s.procs[i], v.procs[i];
    && q == p.(state := q.state, pending := q.pending, counter := q.counter, preemptDisabled := q.preemptDisabled)
    && q.preemptDisabled == p.preemptDisabled + (if i == s.current then 1 else 0) - (if i == v.current then 1 else 0)
    && (i != INIT && p.state != READY && p.state != RUNNING ==>
        q.state == p.state && q.pending == p.pending && i != v.current)
    && (q.state == ZOMBIE && p.state != ZOMBIE ==> SIGNAL_KILL in p.pending)
    && (q.state == STOPPED && p.state != STOPPED ==> SIGNAL_STOP in p.pending)
    && (q.state == WAITING_ANOTHER_PROCESS ==> p.state == WAITING_ANOTHER_PROCESS)
    && q.pending <= p.pending
    && (i != INIT && p.state == READY ==> q.state in {READY, ZOMBIE, STOPPED} || i == v.current)
    && (Blocking(q.state) ==> p.state == q.state)
  }

  lemma PickEffects(s: KState, draws: seq<nat>)
    requires Consistent(s) && PositivePriorities(s.procs) && |s.queues[READY_QUEUE]| < |draws|
    ensures var v := Pick(s, draws);
            && Invariant(v) && |v.procs| == |s.procs|
            && v.algorithm == s.algorithm && v.level == s.level && v.ticks == s.ticks
            && forall i :: 0 <= i < |s.procs| ==> Redecided(s, v, i)
  {
    hide Linked, Links, Select, Sane, Signalled, Park, SwitchTo, PositivePriorities, Pick;
    var v := Pick(s, draws);
    var b, c, next := PickSteps(s, draws);
    PreemptKeeps(s, s.current, 1);
    ParkLinks(AddPreempt(s, s.current, 1));
    SwitchRecords(c, next);
    forall i | 0 <= i < |s.procs|
      ensures Redecided(s, v, i)
    {
      assert Decided(b.procs[i], c.procs[i]);
      DecidedStates(b.procs[i], c.procs[i]);
    }
  }

  lemma DecidedStates(p: Proc, q: Proc)
    requires Decided(p, q)
    ensures p.state != READY ==> q.state == p.state && q.pending == p.pending
    ensures q.pending <= p.pending
    ensures q.state != p.state ==>
              (q.state == ZOMBIE && SIGNAL_KILL in p.pending) || (q.state == STOPPED && SIGNAL_STOP in p.pending)
  {
  }

  lemma SwitchRecords(s: KState, next: nat)
    requires Shaped(s) && next < |s.procs|
    ensures var v := SwitchTo(s, next);
            && v == s.(procs := v.procs, current := next) && |v.procs| == |s.procs|
            && forall i :: 0 <= i < |s.procs| ==>
                 v.procs[i] == s.procs[i].(state := if i == next then RUNNING
                                                    else if i == s.current && s.procs[i].state == RUNNING then READY
                                                    else s.procs[i].state)
  {
  }

  // ---------------------------------------------------------------- steps

  /** A record may change in everything but its state. */
  lemma RecordKeeps(s: KState, i: nat, p: Proc)
    requires i < |s.procs| && p.state == s.procs[i].state && Sane(p)
    ensures Consistent(s) ==> Consistent(WithProc(s, i, p))
    ensures Invariant(s) ==> Invariant(WithProc(s, i, p))
  {
    hide Links, Sane;
    if Consistent(s) {
      var v := WithProc(s, i, p);
      RelinkedSame(s, v, INIT, INIT);
      forall j | 0 <= j < |v.procs|
        ensures Sane(v.procs[j]) && InitOrNot(v, j)
      {
        assert Sane(s.procs[j]) && InitOrNot(s, j);
      }
    }
  }

  /** The current process may give up the CPU in any other state. */
  lemma LeavesKeeps(s: KState, p: Proc)
    requires Invariant(s) && s.current != INIT && p.state !in {READY, RUNNING, BOOTING} && Sane(p)
    ensures Consistent(WithProc(s, s.current, p))
  {
    hide Links, Sane;
    var v := WithProc(s, s.current, p);
    RelinkedSame(s, v, INIT, INIT);
    forall j | 0 <= j < |v.procs|
      ensures Sane(v.procs[j]) && InitOrNot(v, j)
    {
      assert Sane(s.procs[j]) && InitOrNot(s, j);
    }
  }

  /** A blocked process becomes ready and is queued. */
  lemma WakeKeeps(s: KState, i: nat, p: Proc)
    requires Consistent(s) && 0 < i < |s.procs| && i != s.current && s.procs[i].state != READY
    requires p.state == READY && Sane(p)
    ensures var v := Enqueue(WithProc(s, i, p), i);
            Consistent(v) && v == WithProc(s, i, p).(queues := v.queues)
    ensures Invariant(s) ==> Invariant(Enqueue(WithProc(s, i, p), i))
  {
    hide Links, Sane, Enqueue;
    var u := WithProc(s, i, p);
    RelinkedSame(s, u, INIT, i);
    EnqueueLinks(u, i);
    var v := Enqueue(u, i);
    assert v == u.(queues := v.queues);
    forall j | 0 <= j < |v.procs|
      ensures Sane(v.procs[j]) && InitOrNot(v, j)
    {
      assert Sane(s.procs[j]) && InitOrNot(s, j);
    }
  }

  lemma SaneAt(s: KState, i: nat)
    requires Consistent(s) && i < |s.procs|
    ensures Sane(s.procs[i]) && InitOrNot(s, i)
  {
  }

  lemma BoostKeeps(s: KState)
    requires Shaped(s) && Linked(s, INIT) && Placed(s) && s.algorithm == MLFQ
    ensures Linked(Boosted(s), INIT) && Placed(Boosted(s))
  {
    forall x: nat
      ensures LinkedOnce(Boosted(s), INIT, x)
    {
      assert LinkedOnce(s, INIT, x);
      BoostLinks(s.queues, x);
    }
  }

  lemma BoostLinks(queues: seq<seq<nat>>, x: nat)
    requires |queues| == N_QUEUES
    ensures Links([queues[0], queues[1] + queues[2] + queues[3] + queues[4] + queues[5], [], [], [], []], x)
            == Links(queues, x)
  {
    assert queues == [queues[0], queues[1], queues[2], queues[3], queues[4], queues[5]];
    LinksOfSix(queues[0], queues[1], queues[2], queues[3], queues[4], queues[5], x);
    LinksOfSix(queues[0], queues[1] + queues[2] + queues[3] + queues[4] + queues[5], [], [], [], [], x);
  }

  lemma LinksOfSix(a: seq<nat>, b: seq<nat>, c: seq<nat>, d: seq<nat>, e: seq<nat>, f: seq<nat>, x: nat)
    ensures Links([a, b, c, d, e, f], x) ==
            Occurs(a, x) + Occurs(b, x) + Occurs(c, x) + Occurs(d, x) + Occurs(e, x) + Occurs(f, x)
  {
    hide Occurs;
    assert [a, b, c, d, e, f][1..] == [b, c, d, e, f] && [b, c, d, e, f][1..] == [c, d, e, f];
    assert [c, d, e, f][1..] == [d, e, f] && [d, e, f][1..] == [e, f] && [e, f][1..] == [f] && [f][1..] == [];
    assert Links([f], x) == Occurs(f, x) + Links([], x);
    assert Links([e, f], x) == Occurs(e, x) + Links([f], x);
    assert Links([d, e, f], x) == Occurs(d, x) + Links([e, f], x);
    assert Links([c, d, e, f], x) == Occurs(c, x) + Links([d, e, f], x);
    assert Links([b, c, d, e, f], x) == Occurs(b, x) + Links([c, d, e, f], x);
  }

  lemma BoostedFrame(s: KState)
    requires Shaped(s)
    ensures var v := Boosted(s);
            v == s.(queues := v.queues, level := v.level, ticks := v.ticks)
              && v.queues[READY_QUEUE] == s.queues[READY_QUEUE]
  {
  }

  /** The bookkeeping of a tick moves queued processes between levels but links and unlinks nobody. */
  lemma CountTickKeeps(s: KState)
    requires Invariant(s)
    ensures var v := CountTick(s);
            && Invariant(v) && v.algorithm == s.algorithm && v.current == s.current
            && v.procs == s.procs[s.current := s.procs[s.current].(counter := s.procs[s.current].counter - 1,
                                                                 burstTicks := s.procs[s.current].burstTicks + 1)]
            && |v.queues[READY_QUEUE]| == |s.queues[READY_QUEUE]|
  {
    hide Links, Boosted;
    var p := s.procs[s.current];
    var u := WithProc(s, s.current, p.(counter := p.counter - 1, burstTicks := p.burstTicks + 1));
    SaneAt(s, s.current);
    RecordKeeps(s, s.current, p.(counter := p.counter - 1, burstTicks := p.burstTicks + 1));
    var b := BoostTick(u);
    assert b == u.(queues := b.queues, level := b.level, ticks := b.ticks)
           && b.queues[READY_QUEUE] == u.queues[READY_QUEUE] by {
      BoostedFrame(u);
    }
    assert Linked(b, INIT) && Placed(b) by {
      if u.algorithm == MLFQ && u.ticks + 1 >= MLFQ_BOOST_PERIOD {
        BoostKeeps(u);
      } else {
        RelinkedSame(u, b, INIT, INIT);
      }
    }
    var v := DemoteTick(b);
    RelinkedSame(b, v, INIT, INIT);
    forall j | 0 <= j < |v.procs|
      ensures Sane(v.procs[j]) && InitOrNot(v, j)
    {
      assert Sane(u.procs[j]) && InitOrNot(u, j);
    }
  }

  /** Like `Redecided`, with the estimate of the burst that the current process ends. */
  ghost predicate Rescheduled(s: KState, v: KState, i: nat)
    requires i < |s.procs| && i < |v.procs|
  {
    var p, q := s.procs[i], v.procs[i];
    && (i != s.current ==> q.estBurst == p.estBurst && q.burstTicks == p.burstTicks)
    && Redecided(s.(procs := s.procs[i := p.(estBurst := q.estBurst, burstTicks := q.burstTicks)]), v, i)
  }

  lemma ScheduleEffects(s: KState, draws: seq<nat>)
    requires Consistent(s) && PositivePriorities(s.procs) && |s.queues[READY_QUEUE]| < |draws|
    ensures var v := Schedule(s, draws);
            && Invariant(v) && |v.procs| == |s.procs|
            && v.algorithm == s.algorithm && v.level == s.level && v.ticks == s.ticks
            && forall i :: 0 <= i < |s.procs| ==> Rescheduled(s, v, i)
  {
    hide Linked, Links, Pick, PositivePriorities, Halved;
    var p := s.procs[s.current];
    var r := if s.current != INIT && p.state != RUNNING && p.state != READY then EndBurst(p) else p;
    SaneAt(s, s.current);
    EndedSane(p);
    RecordKeeps(s, s.current, r.(counter := 0));
    var u := WithProc(s, s.current, r.(counter := 0));
    Priorities(u);
    PickEffects(u, draws);
    var v := Schedule(s, draws);
    assert v == Pick(u, draws);
    forall i | 0 <= i < |s.procs|
      ensures Rescheduled(s, v, i)
    {
      assert Redecided(u, v, i);
    }
  }

  lemma {:induction false} WakeWaitersKeeps(s: KState, target: nat, i: nat)
    requires Consistent(s) && i <= |s.procs| && s.procs[s.current].state == ZOMBIE
    ensures var v := WakeWaiters(s, target, i);
            && Consistent(v) && v == s.(procs := v.procs, queues := v.queues)
            && forall j :: 0 <= j < |s.procs| ==>
                 v.procs[j]
                 == if i <= j && Waits(s.procs[j], target) then s.procs[j].(state := READY, pidToWait := -1)
                    else s.procs[j]
    decreases |s.procs| - i
  {
    hide Consistent, Enqueue;
    if i < |s.procs| {
      if Waits(s.procs[i], target) {
        SaneAt(s, i);
        StaysSane(s.procs[i], s.procs[i].(state := READY, pidToWait := -1));
        ConsistentFacts(s);
        WakeKeeps(s, i, s.procs[i].(state := READY, pidToWait := -1));
        var u := Enqueue(WithProc(s, i, s.procs[i].(state := READY, pidToWait := -1)), i);
        WakeWaitersKeeps(u, target, i + 1);
      } else {
        WakeWaitersKeeps(s, target, i + 1);
      }
    }
  }

  // ------------------------------------------------------ what a step does

  /** A fork that takes one of its early returns. */
  predicate Fails(s: KState, e: Event) {
    e.Forked? && (!e.memory || |s.procs| >= N_PROCESSES)
  }

  /** What an event can do to a process that exists already. */
  ghost predicate Stepped(s: KState, e: Event, v: KState, i: nat)
    requires i < |s.procs| && i < |v.procs|
  {
    var p, q := s.procs[i], v.procs[i];
    && (i != INIT && p.state in {ZOMBIE, STOPPED} ==> q.state == p.state && v.current != i)
    && q.preemptDisabled == p.preemptDisabled + (if i == s.current then 1 else 0) - (if i == v.current then 1 else 0)
                            + (if i == s.current && Fails(s, e) then 1 else 0)
    && (p.state == READY ==> q.estBurst == p.estBurst && q.burstTicks == p.burstTicks)
    && (q.state == ZOMBIE && p.state != ZOMBIE ==> SIGNAL_KILL in p.pending || (e.Exited? && i == s.current))
    && (q.state == WAITING_ANOTHER_PROCESS ==>
          || (p.state == WAITING_ANOTHER_PROCESS && q.pidToWait == p.pidToWait
              && !(e.Exited? && p.pidToWait == s.current))
          || (e.Awaited? && i == s.current && q.pidToWait == e.target && 0 <= e.target < |s.procs|
              && s.procs[e.target].state != ZOMBIE))
    && (i != INIT && p.state == READY ==> q.state in {READY, ZOMBIE, STOPPED} || i == v.current)
    && (Blocking(p.state) && q.state != p.state ==> e == Woken(i) && q.state == READY)
    && (Blocking(q.state) && q.state != p.state ==> e.Blocked? && i == s.current && q.state == e.state)
    && (SIGNAL_KILL in q.pending ==> SIGNAL_KILL in p.pending || e == Sent(i, SIGNAL_KILL))
  }

  ghost predicate AllStepped(s: KState, e: Event, v: KState) {
    && |s.procs| <= |v.procs| && v.algorithm == s.algorithm
    && forall i :: 0 <= i < |s.procs| ==> Stepped(s, e, v, i)
  }

  lemma TickSteps(s: KState, draws: seq<nat>)
    requires Invariant(s) && PositivePriorities(s.procs) && Room(s, draws)
    ensures Invariant(Tick(s, draws)) && AllStepped(s, Ticked(draws), Tick(s, draws))
    ensures |Tick(s, draws).procs| == |s.procs|
  {
    hide Linked, Links, Pick, PositivePriorities, Sane, CountTick;
    CountTickKeeps(s);
    var v := CountTick(s);
    SaneAt(v, v.current);
    var w := WithProc(v, v.current, v.procs[v.current].(counter := 0));
    StaysSane(v.procs[v.current], w.procs[v.current]);
    RecordKeeps(v, v.current, v.procs[v.current].(counter := 0));
    if Expires(s) && s.algorithm.Preemptive() {
      Priorities(w);
      PickEffects(w, draws);
      forall i | 0 <= i < |s.procs|
        ensures Stepped(s, Ticked(draws), Tick(s, draws), i)
      {
        assert Redecided(w, Pick(w, draws), i);
      }
    }
  }

  lemma YieldSteps(s: KState, draws: seq<nat>)
    requires Invariant(s) && PositivePriorities(s.procs) && Room(s, draws)
    ensures Invariant(Schedule(s, draws)) && AllStepped(s, Yielded(draws), Schedule(s, draws))
  {
    hide Linked, Links, Schedule, PositivePriorities, Sane;
    ScheduleEffects(s, draws);
    forall i | 0 <= i < |s.procs|
      ensures Stepped(s, Yielded(draws), Schedule(s, draws), i)
    {
      assert Rescheduled(s, Schedule(s, draws), i);
    }
  }

  lemma BlockSteps(s: KState, st: State, draws: seq<nat>)
    requires Invariant(s) && PositivePriorities(s.procs) && Enabled(s, Blocked(st, draws))
    ensures Invariant(Block(s, st, draws)) && AllStepped(s, Blocked(st, draws), Block(s, st, draws))
    ensures |Block(s, st, draws).procs| == |s.procs|
  {
    hide Linked, Links, Schedule, PositivePriorities, Sane;
    SaneAt(s, s.current);
    var u := WithState(s, s.current, st);
    StaysSane(s.procs[s.current], u.procs[s.current]);
    LeavesKeeps(s, u.procs[s.current]);
    Priorities(u);
    ScheduleEffects(u, draws);
    forall i | 0 <= i < |s.procs|
      ensures Stepped(s, Blocked(st, draws), Block(s, st, draws), i)
    {
      assert Rescheduled(u, Schedule(u, draws), i);
    }
  }

  lemma WaitSteps(s: KState, pid: int, draws: seq<nat>)
    requires Invariant(s) && PositivePriorities(s.procs) && Enabled(s, Awaited(pid, draws))
    ensures Invariant(Wait(s, pid, draws).0) && AllStepped(s, Awaited(pid, draws), Wait(s, pid, draws).0)
    ensures |Wait(s, pid, draws).0.procs| == |s.procs|
  {
    hide Linked, Links, Schedule, PositivePriorities, Sane;
    if 0 <= pid < |s.procs| && s.procs[pid].state != ZOMBIE {
      SaneAt(s, s.current);
      var u := WithProc(s, s.current, s.procs[s.current].(state := WAITING_ANOTHER_PROCESS, pidToWait := pid));
      StaysSane(s.procs[s.current], u.procs[s.current]);
      LeavesKeeps(s, u.procs[s.current]);
      Priorities(u);
      ScheduleEffects(u, draws);
      forall i | 0 <= i < |s.procs|
        ensures Stepped(s, Awaited(pid, draws), Wait(s, pid, draws).0, i)
      {
        assert Rescheduled(u, Schedule(u, draws), i);
      }
    }
  }

  lemma ExitSteps(s: KState, draws: seq<nat>)
    requires Invariant(s) && PositivePriorities(s.procs) && Enabled(s, Exited(draws))
    ensures Invariant(Exit(s, draws)) && AllStepped(s, Exited(draws), Exit(s, draws))
    ensures |Exit(s, draws).procs| == |s.procs|
  {
    hide Linked, Links, Schedule, PositivePriorities, Sane, WakeWaiters;
    SaneAt(s, s.current);
    var z := WithState(s, s.current, ZOMBIE);
    StaysSane(s.procs[s.current], z.procs[s.current]);
    LeavesKeeps(s, z.procs[s.current]);
    WakeWaitersKeeps(z, s.current, 0);
    var u := WakeWaiters(z, s.current, 0);
    Priorities(u);
    ScheduleEffects(u, draws);
    forall i | 0 <= i < |s.procs|
      ensures Stepped(s, Exited(draws), Exit(s, draws), i)
    {
      assert Rescheduled(u, Schedule(u, draws), i);
    }
  }

  lemma RegisterKeeps(s: KState, p: Proc)
    requires Invariant(s) && |s.procs| < N_PROCESSES && p.state == READY && Sane(p)
    ensures var v := Register(s, p);
            && Invariant(v) && v.current == s.current && v.procs == s.procs + [p] && v.algorithm == s.algorithm
  {
    hide Links, Sane, Enqueue;
    var i := |s.procs|;
    var u := s.(procs := s.procs + [p], level := s.level[i := Clamped(p.queuePriority)]);
    RelinkedSame(s, u, INIT, i);
    EnqueueLinks(u, i);
    var v := Enqueue(u, i);
    forall j | 0 <= j < |v.procs|
      ensures Sane(v.procs[j]) && InitOrNot(v, j)
    {
      assert j < |s.procs| ==> Sane(s.procs[j]) && InitOrNot(s, j);
    }
  }

  lemma ForkSteps(s: KState, memory: bool)
    requires Invariant(s)
    ensures Invariant(Fork(s, memory).0) && AllStepped(s, Forked(memory), Fork(s, memory).0)
    ensures !Fails(s, Forked(memory)) ==> Fork(s, memory).0.procs == s.procs + [Child(s.procs[s.current])]
    ensures Fails(s, Forked(memory)) ==> |Fork(s, memory).0.procs| == |s.procs|
    ensures Fork(s, memory).0.current == s.current
  {
    hide Linked, Links, Register;
    var a := AddPreempt(s, s.current, 1);
    PreemptKeeps(s, s.current, 1);
    if !Fails(s, Forked(memory)) {
      var child := Child(a.procs[a.current]);
      SaneAt(s, s.current);
      RegisterKeeps(a, child);
      PreemptKeeps(Register(a, child), a.current, -1);
    }
  }

  lemma WakeSteps(s: KState, i: nat)
    requires Invariant(s) && Enabled(s, Woken(i))
    ensures Invariant(Wake(s, i)) && AllStepped(s, Woken(i), Wake(s, i))
    ensures |Wake(s, i).procs| == |s.procs|
  {
    hide Linked, Links, Sane, Enqueue;
    SaneAt(s, i);
    StaysSane(s.procs[i], s.procs[i].(state := READY));
    WakeKeeps(s, i, s.procs[i].(state := READY));
  }

  lemma SetParamSteps(s: KState, i: nat, param: Param, value: int)
    requires Invariant(s) && Enabled(s, Configured(i, param, value))
    ensures Invariant(SetParam(s, i, param, value).0)
    ensures AllStepped(s, Configured(i, param, value), SetParam(s, i, param, value).0)
    ensures |SetParam(s, i, param, value).0.procs| == |s.procs|
  {
    hide Linked, Links;
    var v := SetParam(s, i, param, value).0;
    SaneAt(s, i);
    RecordKeeps(s, i, v.procs[i]);
    RelinkedSame(s, v, INIT, INIT);
  }

  /** Every event under every algorithm keeps the invariant, and does to a process only what `Stepped` allows. */
  lemma StepKeeps(s: KState, e: Event)
    requires Invariant(s) && Enabled(s, e) && PositivePriorities(s.procs)
    ensures Invariant(After(s, e)) && AllStepped(s, e, After(s, e))
    ensures |After(s, e).procs| > |s.procs| ==>
              After(s, e).procs == s.procs + [Child(s.procs[s.current])] && After(s, e).current == s.current
                && !Fails(s, e)
    ensures |After(s, e).procs| == |s.procs| + if e.Forked? && !Fails(s, e) then 1 else 0
  {
    hide Linked, Links, PositivePriorities, Sane, Tick, Schedule, Block, Wait, Exit, Fork, Wake, SetParam;
    match e
    case Ticked(draws) => TickSteps(s, draws);
    case Yielded(draws) => YieldSteps(s, draws); ScheduleEffects(s, draws);
    case Blocked(st, draws) => BlockSteps(s, st, draws);
    case Awaited(pid, draws) => WaitSteps(s, pid, draws);
    case Exited(draws) => ExitSteps(s, draws);
    case Forked(memory) => ForkSteps(s, memory);
    case Woken(i) => WakeSteps(s, i);
    case Sent(i, flag) =>
      SaneAt(s, i);
      StaysSane(s.procs[i], After(s, e).procs[i]);
      RecordKeeps(s, i, After(s, e).procs[i]);
    case Configured(i, param, value) => SetParamSteps(s, i, param, value);
  }
}
