/**
 Safety over every run of the scheduler, whatever the algorithm and the events:
 the queues stay right, one process runs, preemption is handed on, dead processes
 stay dead and no one waits for them.
 */
module SchedulerSafety {
  import opened SchedulerState
  import opened SchedulerQueues
  import opened SchedulerRuns

  lemma StartInvariant(s: KState)
    requires Start(s)
    ensures Invariant(s)
  {
    forall i: nat
      ensures LinkedOnce(s, INIT, i)
    {
      EmptyLinks(s.queues, i);
    }
  }

  /** Main result: the invariant holds in every state of every run. */
  lemma {:induction false} RunInvariant(states: seq<KState>, events: seq<Event>, n: nat)
    requires Run(states, events) && n <= |events|
    ensures Invariant(states[n])
    ensures n < |events| ==>
              && PositivePriorities(states[n].procs) && Enabled(states[n], events[n])
              && states[n + 1] == After(states[n], events[n])
  {
    hide Invariant, Enabled, After, Start;
    if n == 0 {
      StartInvariant(states[0]);
    } else {
      RunInvariant(states, events, n - 1);
      StepKeeps(states[n - 1], events[n - 1]);
    }
    if n < |events| {
      assert Step(states[n], events[n], states[n + 1]);
      InvariantFacts(states[n]);
      Priorities(states[n]);
    }
  }

  /** What a run says about the states around one event. */
  lemma RunFacts(states: seq<KState>, events: seq<Event>, n: nat)
    requires Run(states, events) && n <= |events|
    ensures |states| == |events| + 1 && Invariant(states[n]) && Consistent(states[n]) && Shaped(states[n])
    ensures n < |events| ==>
              && PositivePriorities(states[n].procs) && Enabled(states[n], events[n])
              && states[n + 1] == After(states[n], events[n]) && AllStepped(states[n], events[n], states[n + 1])
              && Invariant(states[n + 1]) && states[n + 1].algorithm == states[n].algorithm
  {
    hide Invariant, Consistent, Enabled, After, Start, Shaped, Stepped;
    RunInvariant(states, events, n);
    InvariantFacts(states[n]);
    ConsistentFacts(states[n]);
    if n < |events| {
      StepKeeps(states[n], events[n]);
    }
  }

  /**
   In every state of every run: a process other than init is ready exactly when it
   is in a queue, no queue holds a process twice, no two queues share one, and init
   is in none.
   */
  lemma RunQueues(states: seq<KState>, events: seq<Event>, n: nat)
    requires Run(states, events) && n <= |events|
    ensures var s := states[n];
            && |s.queues| == N_QUEUES
            && (forall i: nat :: 0 < i < |s.procs| && s.procs[i].state == READY <==> Queued(s.queues, i))
            && (forall k, a, b :: 0 <= k < N_QUEUES && 0 <= a < b < |s.queues[k]| ==> s.queues[k][a] != s.queues[k][b])
            && (forall k, l, i :: 0 <= k < l < N_QUEUES && i in s.queues[k] ==> i !in s.queues[l])
  {
    hide Linked, Queued, Start;
    RunInvariant(states, events, n);
    LinkedLists(states[n]);
    assert forall i: nat :: IsReady(states[n], i) <==> 0 < i < |states[n].procs| && states[n].procs[i].state == READY;
  }

  /** After every event the only running process is the current one. */
  lemma RunOneRunning(states: seq<KState>, events: seq<Event>, n: nat, i: nat)
    requires Run(states, events) && n <= |events|
    ensures i < |states[n].procs| && states[n].procs[i].state == RUNNING ==> i == states[n].current
    ensures states[n].procs != [] && states[n].current < |states[n].procs|
    ensures states[n].current != INIT ==> states[n].procs[states[n].current].state == RUNNING
  {
    RunInvariant(states, events, n);
  }

  // ----------------------------------------------------------- preemption

  /** How many forks of process `i` have failed in the first `n` events. */
  ghost function FailedForks(states: seq<KState>, events: seq<Event>, n: nat, i: nat): nat
    requires n <= |events| < |states|
  {
    if n == 0 then 0
    else FailedForks(states, events, n - 1, i) +
         if states[n - 1].current == i && Fails(states[n - 1], events[n - 1]) then 1 else 0
  }

  lemma StepAt(states: seq<KState>, events: seq<Event>, n: nat)
    requires Run(states, events) && n < |events|
    ensures Invariant(states[n]) && AllStepped(states[n], events[n], states[n + 1])
    ensures Enabled(states[n], events[n])
    ensures |states[n + 1].procs| > |states[n].procs| ==>
              && states[n + 1].procs == states[n].procs + [Child(states[n].procs[states[n].current])]
              && states[n + 1].current == states[n].current && !Fails(states[n], events[n])
  {
    hide Invariant, Enabled, After, Start, AllStepped, Fails;
    RunInvariant(states, events, n);
    StepKeeps(states[n], events[n]);
  }

  lemma {:induction false} NotYetBorn(states: seq<KState>, events: seq<Event>, n: nat, i: nat)
    requires Run(states, events) && n <= |events| && i >= |states[n].procs|
    ensures FailedForks(states, events, n, i) == 0
  {
    hide Step, Start, Consistent, Stepped;
    if n > 0 {
      StepAt(states, events, n - 1);
      ConsistentFacts(states[n - 1]);
      NotYetBorn(states, events, n - 1, i);
    }
  }

  /**
   Preemption is handed over exactly: between events the count of a process is 0
   if it is current and 1 if it is not, plus one for each of its forks that failed.
   So the current process can be preempted if and only if none of its forks failed.
   */
  lemma {:induction false} RunPreemption(states: seq<KState>, events: seq<Event>, n: nat, i: nat)
    requires Run(states, events) && n <= |events| && i < |states[n].procs|
    ensures states[n].procs[i].preemptDisabled
            == (if i == states[n].current then 0 else 1) + FailedForks(states, events, n, i)
  {
    hide Step, Consistent, Invariant;
    if n > 0 {
      StepAt(states, events, n - 1);
      var s, v := states[n - 1], states[n];
      if i < |s.procs| {
        RunPreemption(states, events, n - 1, i);
        assert Stepped(s, events[n - 1], v, i);
      } else {
        NotYetBorn(states, events, n - 1, i);
        InvariantFacts(s);
        ConsistentFacts(s);
      }
    }
  }

  // ------------------------------------------------------ absorbing states

  /**
   A zombie or stopped process never leaves that state and is never dispatched or
   queued again: the branch that handles a resume is not reached by anybody.
   */
  lemma {:induction false} RunAbsorbed(states: seq<KState>, events: seq<Event>, m: nat, n: nat, i: nat)
    requires Run(states, events) && m <= n <= |events|
    requires 0 < i < |states[m].procs| && states[m].procs[i].state in {ZOMBIE, STOPPED}
    ensures i < |states[n].procs| && states[n].procs[i].state == states[m].procs[i].state
    ensures states[n].current != i && !Queued(states[n].queues, i)
    decreases n - m
  {
    hide Step, Start, Consistent, Queued;
    if m < n {
      RunAbsorbed(states, events, m, n - 1, i);
      StepAt(states, events, n - 1);
      assert Stepped(states[n - 1], events[n - 1], states[n], i);
    }
    RunInvariant(states, events, n);
    RunQueues(states, events, n);
  }

  /** For a ready process handling its signals never queues it, so the decisions may treat its record alone. */
  lemma ResumeUnreachable(s: KState, i: nat)
    requires Shaped(s) && i < |s.procs| && s.procs[i].state == READY
    ensures HandleSignals(s, i).queues == s.queues && HandleSignals(s, i).procs == Delivered(s.procs, [i])
    ensures HandleSignals(s, i).procs[i].state == READY <==> Survives(s.procs[i])
  {
    assert Delivered(s.procs, [i]) == s.procs[i := Signalled(s.procs[i])];
  }

  // ------------------------------------------------------- wait and exit

  /** Nobody waits for a process that is dead. */
  ghost predicate NoOrphans(s: KState) {
    forall i :: 0 <= i < |s.procs| ==> !Orphan(s, i)
  }

  ghost predicate Orphan(s: KState, i: nat)
    requires i < |s.procs|
  {
    && s.procs[i].state == WAITING_ANOTHER_PROCESS
    && !(0 <= s.procs[i].pidToWait < |s.procs| && s.procs[s.procs[i].pidToWait].state != ZOMBIE)
  }

  ghost predicate NoKill(s: KState) {
    forall i :: 0 <= i < |s.procs| ==> SIGNAL_KILL !in s.procs[i].pending
  }

  /** In a run without SIGNAL_KILL nobody ever waits for a zombie. */
  lemma {:induction false} RunNoOrphans(states: seq<KState>, events: seq<Event>, n: nat)
    requires Run(states, events) && n <= |events|
    requires forall k, i :: 0 <= k < n ==> events[k] != Sent(i, SIGNAL_KILL)
    ensures NoKill(states[n]) && NoOrphans(states[n])
  {
    hide Step, Consistent;
    if n > 0 {
      RunNoOrphans(states, events, n - 1);
      StepAt(states, events, n - 1);
      var s, e, v := states[n - 1], events[n - 1], states[n];
      ConsistentFacts(s);
      forall i | 0 <= i < |v.procs|
        ensures SIGNAL_KILL !in v.procs[i].pending && !Orphan(v, i)
      {
        OrphanStep(s, e, v, i);
      }
    }
  }

  lemma OrphanStep(s: KState, e: Event, v: KState, i: nat)
    requires NoKill(s) && NoOrphans(s) && i < |v.procs| && AllStepped(s, e, v)
    requires s.current < |s.procs| && forall j :: e != Sent(j, SIGNAL_KILL)
    requires |v.procs| > |s.procs| ==> v.procs == s.procs + [Child(s.procs[s.current])]
    ensures SIGNAL_KILL !in v.procs[i].pending && !Orphan(v, i)
  {
    if i < |s.procs| {
      assert Stepped(s, e, v, i) && !Orphan(s, i);
      var t := v.procs[i].pidToWait;
      if v.procs[i].state == WAITING_ANOTHER_PROCESS && 0 <= t < |s.procs| {
        assert Stepped(s, e, v, t);
      }
    }
  }

  /**
   A pending SIGNAL_KILL is what breaks it: handling the signals of a queued process
   strands somebody exactly when it is killed while somebody waits for it.
   */
  lemma KillStrands(s: KState, i: nat)
    requires Shaped(s) && NoOrphans(s) && i < |s.procs| && s.procs[i].state == READY
    ensures !NoOrphans(HandleSignals(s, i)) <==>
            SIGNAL_KILL in s.procs[i].pending && exists j :: 0 <= j < |s.procs| && Waits(s.procs[j], i)
  {
    var v := HandleSignals(s, i);
    if SIGNAL_KILL in s.procs[i].pending {
      if j :| 0 <= j < |s.procs| && Waits(s.procs[j], i) {
        assert Orphan(v, j);
      }
    }
    forall j | 0 <= j < |s.procs| && Orphan(v, j)
      ensures SIGNAL_KILL in s.procs[i].pending && Waits(s.procs[j], i)
    {
      assert !Orphan(s, j);
    }
  }

  // The run of `KilledWithoutWaking`: the first process forks a second one, a signal
  // kills that one, and the first waits for it.

  function Killing(): seq<Event> {
    [Forked(true), Yielded(NoDraws()), Forked(true), Sent(2, SIGNAL_KILL), Awaited(2, NoDraws())]
  }

  function NoDraws(): (draws: seq<nat>)
    ensures |draws| == 2 * N_PROCESSES
  {
    seq(2 * N_PROCESSES, i => 0)
  }

  function Boot(): KState {
    KState([Proc(BOOTING, 1, 1, 0, 0, 0, 10, 0, {}, -1)], [[], [], [], [], [], []], seq(N_PROCESSES, i => 0), 0, INIT,
           ROUND_ROBIN)
  }

  function FirstForked(): KState {
    Boot().(procs := [Boot().procs[0], Proc(READY, 10, 1, 0, 0, 0, 10, 1, {}, 0)], queues := [[1], [], [], [], [], []])
  }

  function FirstRuns(): KState {
    FirstForked().(procs := [Proc(BOOTING, 0, 1, 0, 0, 0, 10, 1, {}, -1), Proc(RUNNING, 10, 1, 0, 0, 0, 10, 0, {}, 0)],
                   queues := [[], [], [], [], [], []], current := 1)
  }

  function SecondForked(): KState {
    FirstRuns().(procs := FirstRuns().procs + [Proc(READY, 10, 1, 0, 0, 0, 10, 1, {}, 0)],
                 queues := [[2], [], [], [], [], []])
  }

  function SecondKilled(): KState {
    SecondForked().(procs := FirstRuns().procs + [Proc(READY, 10, 1, 0, 0, 0, 10, 1, {SIGNAL_KILL}, 0)])
  }

  lemma EnqueueFirst(s: KState, i: nat)
    requires Shaped(s) && s.algorithm == ROUND_ROBIN && s.queues == [[], [], [], [], [], []] && 0 < i < |s.procs|
    ensures Enqueue(s, i) == s.(queues := [[i], [], [], [], [], []], procs := s.procs[i := s.procs[i].(state := READY)])
  {
    assert InsertAt([], 0, i) == [i];
    assert s.queues[0 := [i]] == [[i], [], [], [], [], []];
  }

  lemma FirstFork()
    ensures Fork(Boot(), true).0 == FirstForked()
  {
    hide Enqueue;
    var s, child := Boot(), Proc(READY, 10, 1, 0, 0, 0, 10, 1, {}, 0);
    var a := AddPreempt(s, INIT, 1);
    assert Child(a.procs[INIT]) == child && s.level[1 := 0] == s.level;
    EnqueueFirst(a.(procs := a.procs + [child]), 1);
  }

  /** A decision with one process queued: it is taken if it survives its signals. */
  lemma PickOnly(s: KState, i: nat, draws: seq<nat>)
    requires Shaped(s) && PositivePriorities(s.procs) && s.algorithm == ROUND_ROBIN && 0 < |draws|
    requires s.queues == [[i], [], [], [], [], []] && i != s.current && s.procs[s.current].state != RUNNING
    ensures var b := AddPreempt(s, s.current, 1).(queues := [[], [], [], [], [], []]);
            && 0 < i < |s.procs| && Shaped(b)
            && Select(AddPreempt(s, s.current, 1), draws) ==
               if Survives(s.procs[i]) then
                 (Recharged(WithProc(b, i, Signalled(s.procs[i])), i, ROUND_ROBIN_QUANTUM), i)
               else (WithProc(b, i, Signalled(s.procs[i])), INIT)
  {
    hide Signalled, Survives;
    var a := AddPreempt(s, s.current, 1);
    ShapeFacts(s);
    assert s.queues[READY_QUEUE][0] == i;
    assert s.queues[READY_QUEUE] == [i] && [i][1..] == [] && [i][..1] == [i];
    assert FirstSurvivor(a.procs, [i]) == if Survives(a.procs[i]) then 0 else 1;
    assert s.queues[0 := []] == [[], [], [], [], [], []];
    assert Delivered(a.procs, [i]) == a.procs[i := Signalled(a.procs[i])];
  }

  lemma FirstPick()
    requires PositivePriorities(FirstForked().procs)
    ensures Schedule(FirstForked(), NoDraws()) == FirstRuns()
  {
    hide Select;
    var s := Rest(FirstForked());
    assert s.procs == [Proc(BOOTING, 0, 1, 0, 0, 0, 10, 0, {}, -1), Proc(READY, 10, 1, 0, 0, 0, 10, 1, {}, 0)];
    PickOnly(s, 1, NoDraws());
  }

  lemma SecondFork()
    ensures Fork(FirstRuns(), true).0 == SecondForked()
  {
    hide Enqueue;
    var s, child := FirstRuns(), Proc(READY, 10, 1, 0, 0, 0, 10, 1, {}, 0);
    var a := AddPreempt(s, 1, 1);
    assert Child(a.procs[1]) == child && s.level[2 := 0] == s.level;
    EnqueueFirst(a.(procs := a.procs + [child]), 2);
  }

  lemma Kill()
    ensures SendSignal(SecondForked(), 2, SIGNAL_KILL) == SecondKilled()
  {
    var none: set<nat> := {};
    assert none + {SIGNAL_KILL} == {SIGNAL_KILL};
    assert SendSignal(SecondForked(), 2, SIGNAL_KILL).procs == SecondKilled().procs;
  }

  lemma WaitForKilled()
    requires PositivePriorities(SecondKilled().procs) && Room(SecondKilled(), NoDraws())
    ensures var v := Wait(SecondKilled(), 2, NoDraws()).0; |v.procs| == 3 && Orphan(v, 1)
  {
    hide Select, Halved;
    var s := SecondKilled();
    var u := Rest(WithProc(s, 1, s.procs[1].(state := WAITING_ANOTHER_PROCESS, pidToWait := 2)));
    assert |u.procs| == 3 && u.procs[2] == s.procs[2] && u.queues == s.queues;
    PickOnly(u, 2, NoDraws());
  }

  /**
   With SIGNAL_KILL there is a run in which a process waits for a zombie: in the five
   events of `Killing` the second process is killed before the first comes to wait for it.
   */
  lemma KilledWithoutWaking() returns (states: seq<KState>)
    ensures Run(states, Killing()) && states[5].procs != [] && 1 < |states[5].procs| && Orphan(states[5], 1)
  {
    hide Invariant, Consistent, Step, Fork, Schedule, Wait;
    var w := SecondKilled();
    StartInvariant(Boot());
    OneStep(Boot(), Forked(true));
    FirstFork();
    OneStep(FirstForked(), Yielded(NoDraws()));
    FirstPick();
    OneStep(FirstRuns(), Forked(true));
    SecondFork();
    OneStep(SecondForked(), Sent(2, SIGNAL_KILL));
    Kill();
    OneStep(w, Awaited(2, NoDraws()));
    WaitForKilled();
    states := [Boot(), FirstForked(), FirstRuns(), SecondForked(), w, Wait(w, 2, NoDraws()).0];
  }

  lemma OneStep(s: KState, e: Event)
    requires Invariant(s)
    ensures Shaped(s) && PositivePriorities(s.procs)
    ensures Enabled(s, e) ==> Step(s, e, After(s, e)) && Invariant(After(s, e))
  {
    hide Invariant, Consistent, After, Enabled;
    InvariantFacts(s);
    ConsistentFacts(s);
    Priorities(s);
    if Enabled(s, e) {
      StepKeeps(s, e);
    }
  }
}
