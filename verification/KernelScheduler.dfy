/**
 The scheduler of `libs/scheduler.c` in place: the table of PCBs, the ready queues
 linked through them and the functions that the kernel calls. Every method is proved
 to turn the state that `Value` reads off the heap into what the function of the same
 operation in `SchedulerState` says.
 */
module KernelScheduler {
  import opened SchedulerState
  import opened SchedulerQueues
  import opened SchedulerRuns
  import opened SchedulerEffects
  import opened ReadyQueues
  import opened SchedulerLoops

  class Scheduler {
    // the processes by pid
    var processes: seq<PCB>
    var current: PCB
    // ready_queue and then ml_queues
    const queues: seq<ProcessQueue>
    const queueLevel: array<nat>
    var mlTicks: nat
    const algorithm: Algorithm

    predicate Registered(p: PCB)
      reads this`processes
    {
      p.pid < |processes| && processes[p.pid] == p
    }

    ghost predicate Members(q: ProcessQueue)
      reads this`processes, q`items
    {
      forall j :: 0 <= j < |q.items| ==> Registered(q.items[j]) && q.items[j].pid > 0
    }

    ghost predicate Valid()
      reads this, queueLevel, queues, processes`nextReady
    {
      && 0 < |processes| <= N_PROCESSES
      && (forall i :: 0 <= i < |processes| ==> processes[i].pid == i)
      && Registered(current)
      && |queues| == N_QUEUES && (forall k, l :: 0 <= k < l < |queues| ==> queues[k] != queues[l])
      && queueLevel.Length == N_PROCESSES
      && (forall i :: 0 <= i < N_PROCESSES ==> queueLevel[i] < ML_MAX_LEVELS)
      && (forall k :: 0 <= k < |queues| ==> Members(queues[k]) && queues[k].Valid())
      && (forall k, l, p :: 0 <= k < l < |queues| && p in queues[k].items ==> p !in queues[l].items)
    }

    ghost function Queues(): (r: seq<seq<nat>>)
      reads queues
      ensures |r| == |queues| && forall k :: 0 <= k < |r| ==> r[k] == Pids(queues[k].items)
    {
      seq(|queues|, k requires 0 <= k < |queues| reads queues => Pids(queues[k].items))
    }

    ghost function Value(): (s: KState)
      requires Valid()
      reads this, queueLevel, queues, processes
      ensures Shaped(s)
    {
      KState(Records(processes), Queues(), queueLevel[..], mlTicks, current.pid, algorithm)
    }

    /** The state at boot: the init process alone. */
    constructor (algorithm: Algorithm)
      ensures Valid() && Start(Value()) && Value().algorithm == algorithm
    {
      hide Valid, Value, Start, ProcessQueue.Valid;
      var init := new PCB(INIT, Proc(BOOTING, 1, 1, 0, 0, 0, 10, 0, {}, -1));
      var empty := EmptyQueues();
      var levels := new nat[N_PROCESSES](i => 0);
      processes, current, queues := [init], init, empty;
      queueLevel, mlTicks := levels, 0;
      this.algorithm := algorithm;
      new;
      Booted(init);
    }

    lemma Booted(init: PCB)
      requires processes == [init] && current == init && mlTicks == 0
      requires init.pid == INIT && init.Record() == Proc(BOOTING, 1, 1, 0, 0, 0, 10, 0, {}, -1)
      requires |queues| == N_QUEUES && forall k, l :: 0 <= k < l < |queues| ==> queues[k] != queues[l]
      requires forall k :: 0 <= k < |queues| ==> queues[k].Valid() && queues[k].items == []
      requires queueLevel.Length == N_PROCESSES && forall i :: 0 <= i < N_PROCESSES ==> queueLevel[i] == 0
      ensures Valid() && Start(Value()) && Value().algorithm == algorithm
    {
      hide ProcessQueue.Valid;
      assert Records(processes) == [init.Record()];
      assert Queues() == [[], [], [], [], [], []];
      assert queueLevel[..] == seq(N_PROCESSES, i => 0);
    }

    static method EmptyQueues() returns (r: seq<ProcessQueue>)
      ensures |r| == N_QUEUES && forall k, l :: 0 <= k < l < |r| ==> r[k] != r[l]
      ensures forall k :: 0 <= k < |r| ==> fresh(r[k]) && r[k].Valid() && r[k].items == []
    {
      r := [];
      while |r| < N_QUEUES
        invariant |r| <= N_QUEUES && forall k, l :: 0 <= k < l < |r| ==> r[k] != r[l]
        invariant forall k :: 0 <= k < |r| ==> fresh(r[k]) && r[k].Valid() && r[k].items == []
      {
        var q := new ProcessQueue();
        r := r + [q];
      }
    }

    lemma ValueParts()
      requires Valid()
      ensures Value() == KState(Records(processes), Queues(), queueLevel[..], mlTicks, current.pid, algorithm)
    {
    }

    // ------------------------------------------------------ single updates

    lemma Numbered()
      requires Valid()
      ensures 0 < |processes| && Registered(current) && forall i :: 0 <= i < |processes| ==> processes[i].pid == i
    {
    }

    /** A change of one record leaves the others as they were. */
    twostate lemma RecordReplaced(p: PCB)
      requires old(Valid()) && unchanged(this`processes) && old(Registered(p))
      requires forall i :: 0 <= i < |processes| && processes[i] != p ==>
                 processes[i].Record() == old(processes[i].Record())
      ensures Records(processes) == old(Records(processes))[p.pid := p.Record()]
    {
      hide Records, Members;
      assert forall i :: 0 <= i < |processes| ==> processes[i].pid == i;
    }

    method SetState(p: PCB, st: State)
      requires Valid() && Registered(p)
      modifies p`state
      ensures Valid() && Value() == WithState(old(Value()), p.pid, st) && p.state == st
    {
      hide Valid, Records;
      p.state := st;
      RecordReplaced(p);
    }

    method SetCounter(p: PCB, counter: int)
      requires Valid() && Registered(p)
      modifies p`counter
      ensures Valid() && Value() == Recharged(old(Value()), p.pid, counter)
    {
      hide Valid, Records;
      p.counter := counter;
      RecordReplaced(p);
    }

    /** `preempt_disable` and `preempt_enable`. */
    method AddPreemptDisabled(d: int)
      requires Valid()
      modifies current`preemptDisabled
      ensures Valid() && Value() == AddPreempt(old(Value()), current.pid, d)
    {
      hide Valid, Records;
      Numbered();
      current.preemptDisabled := current.preemptDisabled + d;
      RecordReplaced(current);
    }

    // -------------------------------------------------------------- queues

    ghost predicate Unqueued(p: PCB)
      reads queues
    {
      forall k :: 0 <= k < |queues| ==> p !in queues[k].items
    }

    /** What `Valid` says about one queue and the rest. */
    lemma Apart(k: nat)
      requires Valid() && k < N_QUEUES
      ensures |queues| == N_QUEUES && queues[k].Valid() && Members(queues[k])
      ensures forall l :: 0 <= l < |queues| && l != k ==> queues[l] != queues[k] && ApartFrom(queues[k], queues[l])
    {
      hide ProcessQueue.Valid, Members;
    }

    ghost predicate ApartFrom(q: ProcessQueue, r: ProcessQueue)
      reads q`items, r`items
    {
      forall j :: 0 <= j < |r.items| ==> r.items[j] !in q.items
    }

    /** A change inside one queue leaves the others as they were. */
    twostate lemma QueueReplaced(k: nat)
      requires old(Valid()) && k < N_QUEUES
      requires unchanged(this) && unchanged(queueLevel)
      requires forall l :: 0 <= l < |queues| && l != k ==> LeftAlone(queues[l])
      requires queues[k].Valid()
      requires forall p :: p in queues[k].items ==>
                 Registered(p) && p.pid > 0 && (p in old(queues[k].items) || old(Unqueued(p)))
      ensures Valid()
      ensures Queues() == old(Queues())[k := Pids(queues[k].items)]
    {
      hide ProcessQueue.Valid, Pids, Records;
      forall l | 0 <= l < |queues|
        ensures Members(queues[l]) && queues[l].Valid()
      {
        assert old(Members(queues[l]) && queues[l].Valid());
        assert l != k ==> LeftAlone(queues[l]);
      }
      forall l, m, p | 0 <= l < m < |queues| && p in queues[l].items
        ensures p !in queues[m].items
      {
        assert l != k ==> LeftAlone(queues[l]);
        assert m != k ==> LeftAlone(queues[m]);
      }
      assert forall l :: 0 <= l < |queues| && l != k ==>
               LeftAlone(queues[l]) && Pids(queues[l].items) == old(Pids(queues[l].items));
    }

    twostate predicate LeftAlone(q: ProcessQueue)
      reads q, q.items
    {
      unchanged(q) && forall j :: 0 <= j < |q.items| ==> q.items[j].nextReady == old(q.items[j].nextReady)
    }

    lemma NotQueued(p: PCB)
      requires Valid() && Nowhere(Value(), p.pid)
      ensures Unqueued(p)
    {
      hide Valid, Records;
      forall k, j | 0 <= k < |queues| && 0 <= j < |queues[k].items|
        ensures queues[k].items[j] != p
      {
        assert Pids(queues[k].items)[j] == queues[k].items[j].pid;
        assert Value().queues[k] == Pids(queues[k].items);
      }
    }

    lemma InsertedValue(s: KState, v: KState, k: nat, j: nat, p: PCB)
      requires k < |s.queues| && j <= |s.queues[k]| && p.pid < |s.procs|
      requires v == s.(queues := s.queues[k := InsertAt(s.queues[k], j, p.pid)],
                       procs := s.procs[p.pid := s.procs[p.pid].(state := READY)])
      ensures v == Insert(s, k, j, p.pid)
    {
    }

    method LinkLast(k: nat, p: PCB)
      requires Valid() && k < N_QUEUES && Registered(p) && Unqueued(p) && p.pid != INIT
      modifies queues[k], p`state, processes`nextReady
      ensures Valid() && p.state == READY
      ensures Queues() == old(Queues())[k := InsertAt(old(Queues())[k], |old(Queues())[k]|, p.pid)]
    {
      hide Valid, Records, ProcessQueue.Valid, Queues, Pids;
      Apart(k);
      ghost var items := queues[k].items;
      queues[k].Append(p);
      QueueReplaced(k);
      AppendedPids(items, p);
    }

    method LinkSorted(p: PCB) returns (ghost j: nat)
      requires Valid() && Registered(p) && Unqueued(p) && p.pid != INIT
      modifies queues[READY_QUEUE], p`state, processes`nextReady
      ensures Valid() && p.state == READY
      ensures j <= |old(Queues())[READY_QUEUE]|
      ensures Queues() == old(Queues())[READY_QUEUE := InsertAt(old(Queues())[READY_QUEUE], j, p.pid)]
      ensures forall k :: 0 <= k < j ==> old(queues[READY_QUEUE].items)[k].estBurst <= p.estBurst
      ensures j < |old(queues[READY_QUEUE].items)| ==> p.estBurst < old(queues[READY_QUEUE].items)[j].estBurst
    {
      hide Valid, Records, ProcessQueue.Valid, Queues, Pids;
      Apart(READY_QUEUE);
      ghost var items := queues[READY_QUEUE].items;
      j := queues[READY_QUEUE].InsertSorted(p);
      InsertedMembers(items, j, p);
      QueueReplaced(READY_QUEUE);
      InsertedPids(items, j, p);
    }

    /** `enqueue_process_to`: the init process is not queued. */
    method EnqueueTo(k: nat, p: PCB)
      requires Valid() && k < N_QUEUES && Registered(p) && Nowhere(Value(), p.pid)
      modifies queues[k], p`state, processes`nextReady
      ensures Valid()
      ensures p.pid == INIT ==> Value() == old(Value())
      ensures p.pid != INIT ==> Value() == Insert(old(Value()), k, |old(Value()).queues[k]|, p.pid)
    {
      hide Valid, Records, InsertAt, ProcessQueue.Valid, Queues, Pids, Members;
      if p.pid != INIT {
        ghost var s := Value();
        NotQueued(p);
        LinkLast(k, p);
        RecordReplaced(p);
        InsertedValue(s, Value(), k, |s.queues[k]|, p);
      }
    }

    /** `enqueue_sorted_to`, for the ready queue. */
    method EnqueueSorted(p: PCB)
      requires Valid() && Registered(p) && Nowhere(Value(), p.pid)
      modifies queues[READY_QUEUE], p`state, processes`nextReady
      ensures Valid()
      ensures p.pid == INIT ==> Value() == old(Value())
      ensures p.pid != INIT ==>
                Value() == Insert(old(Value()), READY_QUEUE,
                  SortedPlace(old(Value()).procs, old(Value()).queues[READY_QUEUE], old(p.estBurst)), p.pid)
    {
      hide Valid, Records, InsertAt, SortedPlace;
      if p.pid != INIT {
        ghost var s, items := Value(), queues[READY_QUEUE].items;
        Apart(READY_QUEUE);
        NotQueued(p);
        ghost var j := LinkSorted(p);
        RecordReplaced(p);
        InsertedValue(s, Value(), READY_QUEUE, j, p);
        PlaceUnique(s.procs, Pids(items), p.estBurst, j);
      }
    }

    /** `enqueue_process`: the insertion policy of the algorithm. */
    method EnqueueProcess(p: PCB)
      requires Valid() && Registered(p) && Nowhere(Value(), p.pid)
      modifies queues, p`state, processes`nextReady
      ensures Valid() && Value() == Enqueue(old(Value()), p.pid)
    {
      hide Valid, Records, Insert, SortedPlace, ProcessQueue.Valid, Queues, Pids, Members;
      Numbered();
      if algorithm == SJF {
        EnqueueSorted(p);
      } else if algorithm.Multilevel() {
        EnqueueTo(queueLevel[p.pid] + 1, p);
      } else {
        EnqueueTo(READY_QUEUE, p);
      }
    }

    method UnlinkHead(k: nat) returns (p: PCB?)
      requires Valid() && k < N_QUEUES
      modifies queues[k], processes`nextReady
      ensures Valid()
      ensures p == null <==> old(queues[k].items) == []
      ensures p == null ==> queues[k].items == []
      ensures p != null ==>
                Registered(p) && p == old(queues[k].items)[0] && queues[k].items == old(queues[k].items)[1..]
      ensures Queues() == old(Queues())[k := Pids(queues[k].items)]
    {
      hide Valid, ProcessQueue.Valid, Queues, Pids;
      Apart(k);
      p := queues[k].Dequeue();
      QueueReplaced(k);
    }

    /** `dequeue_process_from`. */
    method DequeueFrom(k: nat) returns (p: PCB?)
      requires Valid() && k < N_QUEUES
      modifies queues[k], processes`nextReady
      ensures Valid()
      ensures p == null <==> old(Value()).queues[k] == []
      ensures p == null ==> Value() == old(Value())
      ensures p != null ==> Registered(p) && p.pid == old(Value()).queues[k][0]
      ensures p != null ==> Value() == WithQueue(old(Value()), k, old(Value()).queues[k][1..])
    {
      hide Valid, Records;
      Apart(k);
      ghost var items := queues[k].items;
      assert Value().queues[k] == Pids(items);
      p := UnlinkHead(k);
      assert p != null ==> Pids(items[1..]) == Pids(items)[1..];
      SameRecords();
    }

    /** Links are not part of the records. */
    twostate lemma SameRecords()
      requires unchanged(this`processes)
      requires forall i :: 0 <= i < |processes| ==> processes[i].Record() == old(processes[i].Record())
      ensures Records(processes) == old(Records(processes))
    {
      hide Records;
    }

    method UnlinkAt(k: nat, previous: PCB?, p: PCB, ghost j: nat)
      requires Valid() && k < N_QUEUES && j < |queues[k].items| && queues[k].items[j] == p
      requires previous == if j == 0 then null else queues[k].items[j - 1]
      modifies queues[k], processes`nextReady
      ensures Valid() && queues[k].items == old(queues[k].items)[..j] + old(queues[k].items)[j + 1..]
      ensures Queues() == old(Queues())[k := Pids(queues[k].items)]
    {
      hide Valid, ProcessQueue.Valid, Queues, Pids;
      Apart(k);
      ghost var items := queues[k].items;
      queues[k].Remove(previous, p, j);
      RemovedMembers(items, j);
      QueueReplaced(k);
    }

    /** `remove_process_from`: unlinks the process at position `j`, given its predecessor. */
    method RemoveFrom(k: nat, previous: PCB?, p: PCB, ghost j: nat)
      requires Valid() && k < N_QUEUES && j < |queues[k].items| && queues[k].items[j] == p
      requires previous == if j == 0 then null else queues[k].items[j - 1]
      modifies queues[k], processes`nextReady
      ensures Valid() && Value() == WithQueue(old(Value()), k, RemoveAt(old(Value()).queues[k], j))
      ensures queues[k].items == old(queues[k].items)[..j] + old(queues[k].items)[j + 1..]
    {
      hide *;
      Apart(k);
      ValueParts();
      ghost var s, items := Value(), queues[k].items;
      assert Value().queues[k] == Pids(items);
      UnlinkAt(k, previous, p, j);
      RemovedPids(items, j);
      SameRecords();
      ValueParts();
      WithQueueIs(s, k, RemoveAt(s.queues[k], j));
    }

    // ------------------------------------------------------------- signals

    /** `handle_process_signals`. */
    method HandleProcessSignals(p: PCB)
      requires Valid() && Registered(p) && (Resumes(p.Record()) ==> Nowhere(Value(), p.pid))
      modifies queues, p`state, p`pending, processes`nextReady
      ensures Valid() && Value() == HandleSignals(old(Value()), p.pid)
      ensures SignalsTell(old(Value()), p.pid, Value())
    {
      hide Valid, Records, Enqueue, ProcessQueue.Valid, Queues, Pids, Members, SignalsTell;
      Numbered();
      ghost var s := Value();
      SignalsEffect(s, p.pid);
      if p.pending == {} {
        assert s.procs[p.pid := s.procs[p.pid]] == s.procs;
        return;
      }
      if SIGNAL_KILL in p.pending {
        p.state := ZOMBIE;
        p.pending := p.pending - {SIGNAL_KILL};
        RecordReplaced(p);
      } else if SIGNAL_STOP in p.pending {
        p.state := STOPPED;
        p.pending := p.pending - {SIGNAL_STOP};
        RecordReplaced(p);
      } else if SIGNAL_RESUME in p.pending {
        p.pending := p.pending - {SIGNAL_RESUME};
        RecordReplaced(p);
        if p.state == STOPPED {
          SetState(p, READY);
          EnqueueProcess(p);
        }
      }
    }

    // ------------------------------------------------------------ dispatch

    method SetCurrent(next: PCB)
      requires Valid() && Registered(next)
      modifies this`current
      ensures Valid() && current == next && Value() == old(Value()).(current := next.pid)
    {
      current := next;
    }

    /** `switch_to_process`. */
    method SwitchToProcess(next: PCB)
      requires Valid() && Registered(next)
      modifies this`current, next`state, current`state
      ensures Valid() && current == next && Value() == SwitchTo(old(Value()), next.pid)
    {
      hide Valid, Records;
      Numbered();
      SetState(next, RUNNING);
      if current != next {
        var previous := current;
        if previous.state == RUNNING {
          SetState(previous, READY);
        }
        SetCurrent(next);
      }
    }

    /** Handles the signals of a process that has just been dequeued; is it still ready? */
    method SurvivesSignals(k: nat, p: PCB, ghost s: KState, ghost n: nat) returns (ready: bool)
      requires Valid() && Registered(p) && Shaped(s) && Calm(s) && k < N_QUEUES && n < |s.queues[k]|
      requires p.pid == s.queues[k][n] && Value() == Turn(s, k, n)
      modifies queues, p`state, p`pending, processes`nextReady
      ensures Valid() && Value() == Partly(s, k, n + 1) && Registered(p)
      ensures ready <==> Survives(s.procs[p.pid])
    {
      hide Valid, Records, Calm, HandleSignals, Partly;
      PartlyStep(s, k, n);
      HandleProcessSignals(p);
      ready := p.state == READY;
    }

    /** Dequeues one process, if there is one, and handles its signals. */
    method TakeNext(k: nat, ghost s: KState, ghost n: nat) returns (next: PCB?, ready: bool)
      requires Valid() && Shaped(s) && Calm(s) && k < N_QUEUES && n <= |s.queues[k]| && Value() == Partly(s, k, n)
      modifies queues, processes`nextReady, processes`state, processes`pending
      ensures Valid() && (next == null <==> n == |s.queues[k]|)
      ensures next == null ==> Value() == Partly(s, k, n)
      ensures next != null ==> Registered(next) && next.pid == s.queues[k][n] && Value() == Partly(s, k, n + 1)
      ensures next != null ==> (ready <==> Survives(s.procs[s.queues[k][n]]))
    {
      hide Valid, Records, Calm, Partly, WithQueue, Turn, Survives, Shaped;
      TurnComes(s, k, n);
      Numbered();
      next := DequeueFrom(k);
      ready := false;
      if next != null {
        ready := SurvivesSignals(k, next, s, n);
      }
    }

    /** Dequeues until a process is still ready after its signals. */
    method NextReady(k: nat) returns (next: PCB?)
      requires Valid() && k < N_QUEUES && Calm(Value())
      modifies queues, processes`nextReady, processes`state, processes`pending
      ensures Valid()
      ensures next == null ==> TakeReady(old(Value()), k) == (Value(), INIT)
      ensures next != null ==> Registered(next) && next.pid != INIT && TakeReady(old(Value()), k) == (Value(), next.pid)
    {
      hide *;
      ghost var s, n := Value(), 0;
      ShapeFacts(s);
      PartlyNothing(s, k);
      NoneSurvivesYet(s, k);
      var ready;
      next, ready := TakeNext(k, s, n);
      while next != null && !ready
        invariant Valid() && n <= |s.queues[k]| && NoneSurvives(s, k, n) && (next == null <==> n == |s.queues[k]|)
        invariant next == null ==> Value() == Partly(s, k, n)
        invariant next != null ==> Registered(next) && next.pid == s.queues[k][n] && Value() == Partly(s, k, n + 1)
        invariant next != null ==> (ready <==> Survives(s.procs[s.queues[k][n]]))
        decreases |s.queues[k]| - n
      {
        NoneSurvivesMore(s, k, n);
        n := n + 1;
        next, ready := TakeNext(k, s, n);
      }
      PartlyTaken(s, k, n);
    }

    // ----------------------------------------------------------- decisions

    /** Disables preemption and puts the outgoing process back in its queue if it can still run. */
    method ParkCurrent()
      requires Valid() && Consistent(Value())
      modifies queues, processes`state, processes`preemptDisabled, processes`nextReady
      ensures Valid() && Value() == Parked(old(Value()))
    {
      hide Valid, Records, Enqueue, Consistent, Nowhere;
      Numbered();
      PreemptKeeps(Value(), current.pid, 1);
      AddPreemptDisabled(1);
      if current.pid != INIT && current.state == RUNNING {
        CurrentUnlinked(Value());
        EnqueueProcess(current);
      }
    }

    /** Switches to the selected process, or to the init process, and enables preemption again. */
    method Dispatch(next: PCB?)
      requires Valid() && (next != null ==> Registered(next))
      modifies this`current, processes`state, processes`preemptDisabled
      ensures Valid() && Value() == Finish((old(Value()), if next == null then INIT else next.pid))
    {
      hide Valid, Records;
      Numbered();
      var p := if next == null then processes[INIT] else next;
      SwitchToProcess(p);
      AddPreemptDisabled(-1);
    }

    /** `_schedule_round_robin`. */
    method ScheduleRoundRobin()
      requires Valid() && Consistent(Value())
      modifies this`current, queues, processes
      ensures Valid() && Value() == Finish(SelectRoundRobin(Parked(old(Value()))))
    {
      hide Valid, Records, Calm, TakeReady, Consistent, Finish, Parked;
      ParkCurrent();
      var next := NextReady(READY_QUEUE);
      if next != null {
        SetCounter(next, ROUND_ROBIN_QUANTUM);
      }
      Dispatch(next);
    }

    /** `_schedule_queue_head`, for first-come-first-served and shortest-job-first. */
    method ScheduleQueueHead()
      requires Valid() && Consistent(Value())
      modifies this`current, queues, processes
      ensures Valid() && Value() == Finish(TakeReady(Parked(old(Value())), READY_QUEUE))
    {
      hide Valid, Records, Calm, TakeReady, Consistent, Finish, Parked;
      ParkCurrent();
      var next := NextReady(READY_QUEUE);
      Dispatch(next);
    }

    /** The first ready process of a level, with the quantum of that level. */
    method NextOfLevel(l: nat) returns (next: PCB?)
      requires Valid() && algorithm.Multilevel() && Calm(Value()) && l < ML_MAX_LEVELS
      modifies queues, processes
      ensures Valid()
      ensures next == null ==> Calm(Value()) && SelectMultilevel(old(Value()), l) == SelectMultilevel(Value(), l + 1)
      ensures next != null ==> Registered(next) && SelectMultilevel(old(Value()), l) == (Value(), next.pid)
    {
      hide Valid, Records, Calm, TakeReady, Quantum, Recharged, SelectMultilevel, Shaped;
      CalmLevel(Value(), l);
      next := NextReady(l + 1);
      if next != null {
        SetCounter(next, Quantum(algorithm, l));
      }
    }

    /** The cascade from the highest priority downwards. */
    method NextOfLevels() returns (next: PCB?)
      requires Valid() && algorithm.Multilevel() && Calm(Value())
      modifies queues, processes
      ensures Valid() && (next != null ==> Registered(next))
      ensures SelectMultilevel(old(Value()), 0) == (Value(), if next == null then INIT else next.pid)
    {
      hide *;
      ghost var b := Value();
      ShapeFacts(b);
      next := null;
      var l := 0;
      while l < ML_MAX_LEVELS && next == null
        invariant l <= ML_MAX_LEVELS && Valid()
        invariant next == null ==> Calm(Value()) && SelectMultilevel(b, 0) == SelectMultilevel(Value(), l)
        invariant next != null ==> Registered(next) && SelectMultilevel(b, 0) == (Value(), next.pid)
        decreases ML_MAX_LEVELS - l
      {
        next := NextOfLevel(l);
        l := l + 1;
      }
      if next == null {
        LevelsEnd(Value());
      }
    }

    /** `_schedule_multilevel`. */
    method ScheduleMultilevel()
      requires Valid() && Consistent(Value()) && algorithm.Multilevel()
      modifies this`current, queues, processes
      ensures Valid() && Value() == Finish(SelectMultilevel(Parked(old(Value())), 0))
    {
      hide Valid, Records, Calm, SelectMultilevel, Consistent, Finish, Parked;
      ParkCurrent();
      var next := NextOfLevels();
      Dispatch(next);
    }

    // -------------------------------------------------------------- lottery

    /** The record and the link of the `j`-th process of a queue. */
    lemma MemberAt(k: nat, j: nat)
      requires Valid() && k < N_QUEUES && j < |queues[k].items|
      ensures var p, q := queues[k].items[j], Value().queues[k];
              && j < |q| && p.pid == q[j] < |Value().procs| && Registered(p)
              && Tickets(Value().procs[q[j]]) == (if p.tickets > 0 then p.tickets else 1)
              && p.nextReady == (if j + 1 < |q| then queues[k].items[j + 1] else null)
    {
      hide Valid, Records;
      Apart(k);
      ItemsByPid(k);
      assert Registered(queues[k].items[j]);
      assert queues[k].items[j].nextReady == ProcessQueue.Next(queues[k].items, j);
    }

    lemma HeadIs(k: nat)
      requires Valid() && k < N_QUEUES
      ensures queues[k].head == if queues[k].items == [] then null else queues[k].items[0]
    {
    }

    /** The number of tickets in the ready queue, counted along the links. */
    method CountTickets() returns (total: nat)
      requires Valid()
      ensures total == TotalTickets(Value().procs, Value().queues[READY_QUEUE])
    {
      hide *;
      ShapeFacts(Value());
      Apart(READY_QUEUE);
      ItemsByPid(READY_QUEUE);
      HeadIs(READY_QUEUE);
      ghost var items, procs, q := queues[READY_QUEUE].items, Value().procs, Value().queues[READY_QUEUE];
      ghost var k := 0;
      ReadyInTable(Value());
      CountStarts(procs, q);
      total := 0;
      var p := queues[READY_QUEUE].head;
      while p != null
        invariant k <= |items| && p == if k < |items| then items[k] else null
        invariant Counted(procs, q, k, total)
        decreases |items| - k
      {
        MemberAt(READY_QUEUE, k);
        CountsOn(procs, q, k, total);
        total := total + if p.tickets > 0 then p.tickets else 1;
        p := p.nextReady;
        k := k + 1;
      }
      CountEnds(procs, q, total);
    }

    /** The process that holds the winning ticket, with its predecessor. */
    method FindWinner(winner: nat) returns (previous: PCB?, candidate: PCB, ghost j: nat)
      requires Valid() && winner < TotalTickets(Value().procs, Value().queues[READY_QUEUE])
      ensures j == Winner(Value().procs, Value().queues[READY_QUEUE], winner) < |queues[READY_QUEUE].items|
      ensures candidate == queues[READY_QUEUE].items[j] && Registered(candidate)
      ensures previous == if j == 0 then null else queues[READY_QUEUE].items[j - 1]
    {
      hide *;
      ShapeFacts(Value());
      Apart(READY_QUEUE);
      ghost var items, procs, q := queues[READY_QUEUE].items, Value().procs, Value().queues[READY_QUEUE];
      ItemsByPid(READY_QUEUE);
      HeadIs(READY_QUEUE);
      SomebodyHolds(Value());
      var counter := 0;
      previous := null;
      candidate := queues[READY_QUEUE].head;
      j := 0;
      ReadyInTable(Value());
      WalkStarts(procs, q, winner);
      MemberAt(READY_QUEUE, 0);
      while counter + (if candidate.tickets > 0 then candidate.tickets else 1) <= winner
        invariant j < |items| && candidate == items[j] && counter <= winner
        invariant previous == if j == 0 then null else items[j - 1]
        invariant Walks(procs, q, winner, j, winner - counter)
        decreases |items| - j
      {
        MemberAt(READY_QUEUE, j);
        WalksOn(procs, q, winner, j, winner - counter);
        counter := counter + if candidate.tickets > 0 then candidate.tickets else 1;
        previous := candidate;
        candidate := candidate.nextReady;
        j := j + 1;
      }
      MemberAt(READY_QUEUE, j);
      WalksOn(procs, q, winner, j, winner - counter);
    }

    /** Takes the holder of a ticket off the queue. */
    method TakeWinner(winner: nat) returns (candidate: PCB, ghost j: nat)
      requires Valid() && winner < TotalTickets(Value().procs, Value().queues[READY_QUEUE])
      modifies queues[READY_QUEUE], processes`nextReady
      ensures Valid() && Registered(candidate)
      ensures j == Winner(old(Value()).procs, old(Value()).queues[READY_QUEUE], winner)
              && candidate.pid == old(Value()).queues[READY_QUEUE][j]
      ensures Value() == Drawn(old(Value()), j)
    {
      hide *;
      ghost var s := Value();
      ShapeFacts(s);
      Apart(READY_QUEUE);
      ItemsByPid(READY_QUEUE);
      var previous;
      previous, candidate, j := FindWinner(winner);
      RemoveFrom(READY_QUEUE, previous, candidate, j);
      DrawnIs(s, j);
    }

    /** Takes the holder of a ticket off the queue and handles its signals; is it still ready? */
    method Draw(ghost draws: seq<nat>, winner: nat) returns (candidate: PCB, ready: bool)
      requires Valid() && !algorithm.Multilevel() && Calm(Value())
      requires 0 < |Value().queues[READY_QUEUE]| <= |draws|
      requires winner == draws[0] % TotalTickets(Value().procs, Value().queues[READY_QUEUE])
      modifies queues, processes
      ensures Valid() && Registered(candidate) && candidate.pid != INIT
      ensures ready ==>
                SelectLottery(old(Value()), draws)
                == (Recharged(Value(), candidate.pid, ROUND_ROBIN_QUANTUM), candidate.pid)
      ensures !ready ==> |Value().queues[READY_QUEUE]| == |old(Value()).queues[READY_QUEUE]| - 1
      ensures !ready ==> Calm(Value()) && SelectLottery(old(Value()), draws) == SelectLottery(Value(), draws[1..])
    {
      hide Valid, Records, Calm, Recharged, HandleSignals, Winner, TotalTickets, SelectLottery, Drawn;
      ghost var s := Value();
      ghost var j;
      candidate, j := TakeWinner(winner);
      LotteryTurn(s, j, draws);
      HandleProcessSignals(candidate);
      ready := candidate.state == READY;
    }

    /** Draws until the winner is still ready after its signals. */
    method DrawWinner(draws: seq<nat>) returns (next: PCB?)
      requires Valid() && !algorithm.Multilevel() && Calm(Value())
      requires |Value().queues[READY_QUEUE]| <= |draws|
      modifies queues, processes
      ensures Valid() && (next != null ==> Registered(next))
      ensures SelectLottery(old(Value()), draws) == (Value(), if next == null then INIT else next.pid)
    {
      hide Valid, Records, Calm, Recharged, TotalTickets, SelectLottery;
      ghost var b := Value();
      var n := 0;
      next := null;
      assert draws[0..] == draws;
      while true
        invariant n <= |draws| && next == null
        invariant Valid() && Calm(Value())
        invariant |Value().queues[READY_QUEUE]| <= |draws| - n
        invariant SelectLottery(b, draws) == SelectLottery(Value(), draws[n..])
        decreases |draws| - n
      {
        var total := CountTickets();
        if total == 0 {
          LotteryEnd(Value(), draws[n..]);
          return;
        }
        SomebodyHolds(Value());
        assert draws[n..][0] == draws[n] && draws[n..][1..] == draws[n + 1..];
        var candidate, ready := Draw(draws[n..], draws[n] % total);
        n := n + 1;
        if ready {
          next := candidate;
          SetCounter(next, ROUND_ROBIN_QUANTUM);
          return;
        }
      }
    }

    /** `_schedule_lottery`. */
    method ScheduleLottery(draws: seq<nat>)
      requires Valid() && Consistent(Value()) && algorithm == LOTTERY && |Value().queues[READY_QUEUE]| < |draws|
      modifies this`current, queues, processes
      ensures Valid() && Value() == Finish(SelectLottery(Parked(old(Value())), draws))
    {
      hide Valid, Records, Calm, SelectLottery, Consistent, Finish, Parked;
      ParkCurrent();
      var next := DrawWinner(draws);
      Dispatch(next);
    }

    // ------------------------------------------------------ priority aging

    /** The members of a queue are what the table holds under their pids. */
    lemma ItemsByPid(k: nat)
      requires Valid() && k < N_QUEUES
      ensures |queues[k].items| == |Value().queues[k]|
      ensures forall j :: 0 <= j < |queues[k].items| ==> queues[k].items[j].pid == Value().queues[k][j] < |processes|
      ensures forall j :: 0 <= j < |queues[k].items| ==> queues[k].items[j] == processes[Value().queues[k][j]]
    {
      hide Records;
      assert Value().queues[k] == Pids(queues[k].items);
    }

    /** The pass handles the signals of one process and unlinks it if it is no longer ready. */
    method SweepProcess(node: PCB, previous: PCB?, ghost s: KState, ghost m: nat) returns (kept: bool)
      requires Valid() && Registered(node) && Shaped(s) && Calm(s) && m < |s.queues[READY_QUEUE]|
      requires Value() == PartSwept(s, m) && node.pid == s.queues[READY_QUEUE][m]
      requires Kept(s, m) < |queues[READY_QUEUE].items| && queues[READY_QUEUE].items[Kept(s, m)] == node
      requires previous == if Kept(s, m) == 0 then null else queues[READY_QUEUE].items[Kept(s, m) - 1]
      modifies queues, node`state, node`pending, processes`nextReady
      ensures Valid() && Value() == PartSwept(s, m + 1)
      ensures Kept(s, m + 1) == Kept(s, m) + if kept then 1 else 0
    {
      hide Valid, Records, Calm, HandleSignals, PartSwept, Kept, RemoveAt, ProcessQueue.Valid, Queues, Pids, Members;
      SweepStep(s, m);
      ItemsByPid(READY_QUEUE);
      HandleProcessSignals(node);
      ItemsByPid(READY_QUEUE);
      kept := node.state == READY;
      if !kept {
        RemoveFrom(READY_QUEUE, previous, node, Kept(s, m));
      }
    }

    ghost function Member(q: seq<nat>, k: int): PCB?
      reads this`processes
    {
      if 0 <= k < |q| && q[k] < |processes| then processes[q[k]] else null
    }

    /** What the pass of `_schedule_priority_aging` has found when it has dealt with `m` processes. */
    ghost predicate Passing(s: KState, m: nat, j: int, node: PCB?, previous: PCB?, best: PCB?, bestPrevious: PCB?,
                            max: int)
      requires Shaped(s) && m <= |s.queues[READY_QUEUE]|
      reads this`processes
    {
      var kept := KeptList(s, m);
      && |processes| == |s.procs|
      && node == Member(s.queues[READY_QUEUE], m) && previous == Member(kept, |kept| - 1)
      && Leads(s, m, j) && max == MaxCounter(s, m, j)
      && best == Member(kept, j) && (j >= 0 ==> bestPrevious == Member(kept, j - 1))
    }

    lemma PassingOn(s: KState, m: nat, j: int, node: PCB, previous: PCB?, best: PCB?, bestPrevious: PCB?, max: int)
      requires Shaped(s) && m < |s.queues[READY_QUEUE]| && Passing(s, m, j, node, previous, best, bestPrevious, max)
      ensures var i, c := s.queues[READY_QUEUE][m], |KeptList(s, m)|;
              var next := Member(s.queues[READY_QUEUE], m + 1);
              && (!Survives(s.procs[i]) ==> Passing(s, m + 1, j, next, previous, best, bestPrevious, max))
              && (Survives(s.procs[i]) && s.procs[i].counter > max ==>
                    Passing(s, m + 1, c, next, node, node, previous, s.procs[i].counter))
              && (Survives(s.procs[i]) && s.procs[i].counter <= max ==>
                    Passing(s, m + 1, j, next, node, best, bestPrevious, max))
    {
      hide KeptList, Survives, Leads;
      LeadsOn(s, m, j);
      KeptInTable(s, m);
      KeptInTable(s, m + 1);
      LeaderKept(s, m, j);
    }

    /** Where the pass stands in the list. */
    lemma SweepStands(s: KState, m: nat)
      requires Valid() && Shaped(s) && m < |s.queues[READY_QUEUE]| && Value() == PartSwept(s, m)
      ensures Kept(s, m) == |KeptList(s, m)| < |queues[READY_QUEUE].items|
      ensures var node := queues[READY_QUEUE].items[Kept(s, m)];
              && Registered(node) && node.pid == s.queues[READY_QUEUE][m] && node == Member(s.queues[READY_QUEUE], m)
              && node.nextReady == Member(s.queues[READY_QUEUE], m + 1)
      ensures Member(KeptList(s, m), |KeptList(s, m)| - 1) ==
              if Kept(s, m) == 0 then null else queues[READY_QUEUE].items[Kept(s, m) - 1]
    {
      hide Valid, Records, PartSwept, KeptList, Kept;
      SweepNext(s, m);
      ItemsByPid(READY_QUEUE);
      Apart(READY_QUEUE);
      ghost var items := queues[READY_QUEUE].items;
      assert items[Kept(s, m)].nextReady == ProcessQueue.Next(items, Kept(s, m));
    }

    /** One turn of the pass: the successor is read before the process may be unlinked. */
    method SweepTurn(node: PCB, previous: PCB?, ghost s: KState, ghost m: nat) returns (kept: bool, next: PCB?)
      requires Valid() && Shaped(s) && Calm(s) && m < |s.queues[READY_QUEUE]| && Value() == PartSwept(s, m)
      requires node == Member(s.queues[READY_QUEUE], m) && previous == Member(KeptList(s, m), |KeptList(s, m)| - 1)
      modifies queues, node`state, node`pending, processes`nextReady
      ensures Valid() && Value() == PartSwept(s, m + 1)
      ensures kept <==> Survives(s.procs[s.queues[READY_QUEUE][m]])
      ensures next == Member(s.queues[READY_QUEUE], m + 1)
    {
      hide Valid, Records, Calm, PartSwept, Survives, Member;
      SweepStands(s, m);
      KeptGrows(s, m);
      next := node.nextReady;
      hide KeptList;
      kept := SweepProcess(node, previous, s, m);
    }

    /** One process of the pass: a larger counter makes it the leader. */
    method PassProcess(node: PCB, previous: PCB?, best: PCB?, bestPrevious: PCB?, max: int, ghost s: KState,
        ghost m: nat, ghost j: int)
      returns (next: PCB?, last: PCB?, leader: PCB?, beforeLeader: PCB?, counter: int, ghost l: int)
      requires Valid() && Shaped(s) && Calm(s) && m < |s.queues[READY_QUEUE]| && Value() == PartSwept(s, m)
      requires Passing(s, m, j, node, previous, best, bestPrevious, max)
      modifies queues, processes
      ensures Valid() && Value() == PartSwept(s, m + 1)
      ensures Passing(s, m + 1, l, next, last, leader, beforeLeader, counter)
    {
      hide Valid, Records, Calm, PartSwept, Survives, Passing, Member;
      PassingFacts(s, m, j, node, previous, best, bestPrevious, max);
      PassingOn(s, m, j, node, previous, best, bestPrevious, max);
      SweepCounter(s, m, node);
      var kept;
      kept, next := SweepTurn(node, previous, s, m);
      last, leader, beforeLeader, counter, l := previous, best, bestPrevious, max, j;
      if kept {
        if node.counter > max {
          leader, beforeLeader, counter, l := node, previous, node.counter, |KeptList(s, m)|;
        }
        last := node;
      }
    }

    /**
     The pass of `_schedule_priority_aging` over the ready queue: signals, and the
     process with the largest counter.
     */
    method SweepQueue() returns (best: PCB?, bestPrevious: PCB?, ghost j: int)
      requires Valid() && Calm(Value())
      modifies queues, processes
      ensures Valid() && Value() == Swept(old(Value()))
      ensures Best(Value().procs, Value().queues[READY_QUEUE], |Value().queues[READY_QUEUE]|) ==
              if j < 0 then |Value().queues[READY_QUEUE]| else j
      ensures best == Member(Value().queues[READY_QUEUE], j)
      ensures j >= 0 ==> j < |Value().queues[READY_QUEUE]| && bestPrevious == Member(Value().queues[READY_QUEUE], j - 1)
    {
      hide *;
      ghost var s, m := Value(), 0;
      ShapeFacts(s);
      Apart(READY_QUEUE);
      SweepEnds(s);
      var maxCounter := 0;
      best, bestPrevious, j := null, null, -1;
      var previous: PCB? := null;
      var node := queues[READY_QUEUE].head;
      PassingStarts(s, node);
      while node != null
        invariant Valid() && m <= |s.queues[READY_QUEUE]| && Value() == PartSwept(s, m)
        invariant Passing(s, m, j, node, previous, best, bestPrevious, maxCounter)
        decreases |s.queues[READY_QUEUE]| - m
      {
        PassingFacts(s, m, j, node, previous, best, bestPrevious, maxCounter);
        node, previous, best, bestPrevious, maxCounter, j :=
            PassProcess(node, previous, best, bestPrevious, maxCounter, s, m, j);
        m := m + 1;
      }
      PassingEnds(s, m, j, previous, best, bestPrevious, maxCounter);
    }

    lemma PassingFacts(s: KState, m: nat, j: int, node: PCB?, previous: PCB?, best: PCB?, bestPrevious: PCB?, max: int)
      requires Shaped(s) && m <= |s.queues[READY_QUEUE]| && Passing(s, m, j, node, previous, best, bestPrevious, max)
      ensures node == Member(s.queues[READY_QUEUE], m) && previous == Member(KeptList(s, m), |KeptList(s, m)| - 1)
      ensures node != null <==> m < |s.queues[READY_QUEUE]|
      ensures m < |s.queues[READY_QUEUE]| ==> s.queues[READY_QUEUE][m] < |s.procs|
      ensures node != null ==> node in processes
    {
    }

    lemma PassingEnds(s: KState, m: nat, j: int, previous: PCB?, best: PCB?, bestPrevious: PCB?, max: int)
      requires Valid() && Shaped(s) && m <= |s.queues[READY_QUEUE]|
               && Passing(s, m, j, null, previous, best, bestPrevious, max)
      requires Value() == PartSwept(s, m)
      ensures Value() == Swept(s)
      ensures Best(Value().procs, Value().queues[READY_QUEUE], |Value().queues[READY_QUEUE]|) ==
              if j < 0 then |Value().queues[READY_QUEUE]| else j
      ensures best == Member(Value().queues[READY_QUEUE], j)
      ensures j >= 0 ==> j < |Value().queues[READY_QUEUE]| && bestPrevious == Member(Value().queues[READY_QUEUE], j - 1)
    {
      hide Valid, Records, PartSwept, KeptList, Leads, MaxCounter, Swept, Best;
      SweepEnds(s);
      PassingFacts(s, m, j, null, previous, best, bestPrevious, max);
      LeaderIsBest(s, j);
    }

    lemma PassingStarts(s: KState, node: PCB?)
      requires Valid() && s == Value() && node == queues[READY_QUEUE].head
      ensures Passing(s, 0, -1, node, null, null, null, 0)
    {
      hide Valid, Records;
      ItemsByPid(READY_QUEUE);
      Apart(READY_QUEUE);
    }

    lemma SweepCounter(s: KState, m: nat, node: PCB)
      requires Valid() && Shaped(s) && m < |s.queues[READY_QUEUE]| && Value() == PartSwept(s, m)
               && node == Member(s.queues[READY_QUEUE], m)
      ensures node.counter == s.procs[s.queues[READY_QUEUE][m]].counter
    {
      hide PartSwept, Records;
      SweepNext(s, m);
    }

    /** A new epoch: every process of the table is recharged. */
    method StartEpoch()
      requires Valid()
      modifies processes`counter
      ensures Valid() && Value() == Epoch(old(Value()))
      ensures EpochTells(old(Value()), Value())
    {
      hide EpochTells, Epoch, Valid, Records, ProcessQueue.Valid, Queues, Pids, Members;
      Numbered();
      ghost var s := Value();
      var i := 0;
      while i < |processes|
        invariant i <= |processes| && Valid()
        invariant forall j :: 0 <= j < i ==> processes[j].Record() == Recharge(s.procs[j])
        invariant forall j :: i <= j < |processes| ==> processes[j].Record() == s.procs[j]
      {
        processes[i].counter := processes[i].counter / 2 + processes[i].priority;
        i := i + 1;
      }
      EpochIs(s, Records(processes));
      EpochEffect(s);
    }

    lemma EpochIs(s: KState, procs: seq<Proc>)
      requires Shaped(s) && |procs| == |s.procs| && forall j :: 0 <= j < |procs| ==> procs[j] == Recharge(s.procs[j])
      ensures Epoch(s) == s.(procs := procs)
    {
      assert procs == Epoch(s).procs;
    }

    /** A pass, and a process taken off the queue if one has slice left. */
    method TakeCharged() returns (best: PCB?)
      requires Valid() && Calm(Value())
      modifies queues, processes
      ensures Valid()
      ensures Charged(old(Value()), Value(), if best == null then INIT else best.pid)
      ensures best == null ==> (queues[READY_QUEUE].head == null <==> Value().queues[READY_QUEUE] == [])
      ensures best != null ==> Registered(best) && best.pid != INIT
    {
      hide Valid, Records, Calm, Swept, Best, RemoveAt, ProcessQueue.Valid, Queues, Pids, Members;
      var found, bestPrevious, j := SweepQueue();
      best := found;
      ItemsByPid(READY_QUEUE);
      HeadIs(READY_QUEUE);
      Apart(READY_QUEUE);
      Numbered();
      if best != null {
        RemoveFrom(READY_QUEUE, bestPrevious, best, j);
      }
    }

    /** The selection loop of `_schedule_priority_aging`: passes and epochs until somebody has slice left. */
    method NextCharged() returns (next: PCB?)
      requires Valid() && Calm(Value()) && PositivePriorities(Value().procs) && !algorithm.Multilevel()
      modifies queues, processes
      ensures Valid() && (next != null ==> Registered(next))
      ensures SelectAging(old(Value())) == (Value(), if next == null then INIT else next.pid)
    {
      hide Valid, Records, Calm, Charged, Epoch, SelectAging, Deficit, PositivePriorities;
      ghost var b := Value();
      while true
        invariant Valid() && Calm(Value()) && PositivePriorities(Value().procs)
        invariant SelectAging(b) == SelectAging(Value())
        decreases |Value().queues[READY_QUEUE]|, Deficit(Value())
      {
        ghost var s := Value();
        next := TakeCharged();
        AgingTurn(s, Value(), if next == null then INIT else next.pid);
        if next != null {
          return;
        }
        if queues[READY_QUEUE].head == null {
          return;
        }
        StartEpoch();
      }
    }

    /** `_schedule_priority_aging`. */
    method SchedulePriorityAging()
      requires Valid() && Consistent(Value()) && algorithm == PRIORITY_AGING
      modifies this`current, queues, processes
      ensures Valid() && Value() == Finish(SelectAging(Parked(old(Value()))))
    {
      hide Valid, Records, Calm, SelectAging, Consistent, Finish, Parked, PositivePriorities;
      ParkCurrent();
      var next := NextCharged();
      Dispatch(next);
    }

    /** `_schedule`: the selection policy of the algorithm. */
    method PickNext(draws: seq<nat>)
      requires Valid() && Consistent(Value()) && PositivePriorities(Value().procs)
               && |Value().queues[READY_QUEUE]| < |draws|
      modifies this`current, queues, processes
      ensures Valid() && Value() == Pick(old(Value()), draws)
      ensures PickTells(old(Value()), Value())
    {
      hide Valid, Records, Calm, Consistent, Finish, Parked, PositivePriorities, Pick, SelectAging, SelectLottery,
        SelectMultilevel, SelectRoundRobin, TakeReady, PickTells;
      PickEffect(Value(), draws);
      PickIs(Value(), draws);
      match algorithm
      case ROUND_ROBIN => ScheduleRoundRobin();
      case LOTTERY => ScheduleLottery(draws);
      case PRIORITY_AGING => SchedulePriorityAging();
      case MLQ => ScheduleMultilevel();
      case MLFQ => ScheduleMultilevel();
      case FCFS => ScheduleQueueHead();
      case SJF => ScheduleQueueHead();
    }

    /** Ends the burst of a process that gives up the CPU, and its slice. */
    method EndSlice()
      requires Valid()
      modifies current`estBurst, current`burstTicks, current`counter
      ensures Valid() && Value() == Rest(old(Value()))
    {
      hide Valid, Records, Halved, ProcessQueue.Valid, Queues, Pids, Members;
      Numbered();
      if current.pid != INIT && current.state != RUNNING && current.state != READY {
        current.estBurst := Halved(current.burstTicks + current.estBurst);
        current.burstTicks := 0;
      }
      current.counter := 0;
      RecordReplaced(current);
    }

    /** `schedule`. */
    method Reschedule(draws: seq<nat>)
      requires Valid() && Consistent(Value()) && PositivePriorities(Value().procs)
               && |Value().queues[READY_QUEUE]| < |draws|
      modifies this`current, queues, processes
      ensures Valid() && Value() == Schedule(old(Value()), draws)
      ensures ScheduleTells(old(Value()), draws, Value())
    {
      hide Valid, Records, Pick, PositivePriorities, Consistent, Rest, ScheduleTells, PickTells;
      ScheduleEffect(Value(), draws);
      RestConsistent(Value());
      Numbered();
      EndSlice();
      PickNext(draws);
    }

    // ---------------------------------------------------------- timer tick

    method SetLevel(i: nat, level: nat)
      requires Valid() && i < N_PROCESSES && level < ML_MAX_LEVELS
      modifies queueLevel
      ensures Valid() && Value() == old(Value()).(level := old(Value()).level[i := level])
    {
      queueLevel[i] := level;
    }

    /** Moves the head of a level queue to the end of that of level 0, if there is one. */
    method LiftProcess(k: nat, ghost s: KState, ghost n: nat) returns (moved: bool)
      requires Valid() && Shaped(s) && Linked(s, INIT) && 1 < k < N_QUEUES && n <= |s.queues[k]|
      requires Value() == Lifted(s, k, n).(level := Value().level)
      modifies queues, queueLevel, processes`state, processes`nextReady
      ensures Valid() && (moved <==> n < |s.queues[k]|)
      ensures Value() == Lifted(s, k, if moved then n + 1 else n).(level := Value().level)
    {
      hide Valid, Records, Linked, Insert, ProcessQueue.Valid, Queues, Pids, Members;
      assert Lifted(s, k, n).queues[k] == s.queues[k][n..];
      Numbered();
      var p := DequeueFrom(k);
      if p == null {
        return false;
      }
      LiftStep(s, k, n);
      InsertLevel(WithQueue(Lifted(s, k, n), k, Lifted(s, k, n).queues[k][1..]), Value().level, |Value().queues[1]|,
                  p.pid);
      hide Lifted, WithQueue;
      SetLevel(p.pid, 0);
      InsertLevel(WithQueue(Lifted(s, k, n), k, Lifted(s, k, n).queues[k][1..]), Value().level, |Value().queues[1]|,
                  p.pid);
      EnqueueTo(1, p);
      return true;
    }

    /** Empties a level queue into that of level 0. */
    method LiftQueue(k: nat)
      requires Valid() && 1 < k < N_QUEUES && Linked(Value(), INIT)
      modifies queues, queueLevel, processes`state, processes`nextReady
      ensures Valid() && Value() == Lifted(old(Value()), k, |old(Value()).queues[k]|).(level := Value().level)
    {
      hide Valid, Records, Linked, Lifted;
      ghost var s, n := Value(), 0;
      LiftEnds(s, k);
      var moved := true;
      while moved
        invariant Valid() && n <= |s.queues[k]| && (!moved ==> n == |s.queues[k]|)
        invariant Value() == Lifted(s, k, n).(level := Value().level)
        decreases |s.queues[k]| - n, moved
      {
        moved := LiftProcess(k, s, n);
        n := if moved then n + 1 else n;
      }
    }

    /** The periodic boost of `_multilevel_on_tick`. */
    method Boost()
      requires Valid() && Linked(Value(), INIT)
      modifies this`mlTicks, queues, queueLevel, processes`state, processes`nextReady
      ensures Valid() && Value() == Boosted(old(Value()))
    {
      hide Valid, Records, Linked, Lifted, Boosted;
      ghost var s := Value();
      LiftedAll(s);
      var k := 2;
      while k < N_QUEUES
        invariant 2 <= k <= N_QUEUES && Valid() && Linked(Value(), INIT)
        invariant |LiftedUpTo(s, k).queues| == N_QUEUES && Value() == LiftedUpTo(s, k).(level := Value().level)
      {
        ghost var v := Value();
        LiftLinks(v, k);
        LiftedLevel(LiftedUpTo(s, k), v.level, k);
        LiftQueue(k);
        LevelLinks(Lifted(v, k, |v.queues[k]|), Value().level);
        k := k + 1;
      }
      ResetLevels();
      ResetTicks();
      assert Value().level == seq(N_PROCESSES, i => 0);
      BoostedIs(s, Value());
    }

    method ResetLevels()
      requires Valid()
      modifies queueLevel
      ensures Valid() && Value() == old(Value()).(level := Value().level)
      ensures |Value().level| == N_PROCESSES && forall i :: 0 <= i < N_PROCESSES ==> Value().level[i] == 0
    {
      ghost var s := Value();
      var i := 0;
      while i < N_PROCESSES
        invariant i <= N_PROCESSES && Valid() && Value() == s.(level := Value().level)
        invariant forall j :: 0 <= j < i ==> queueLevel[j] == 0
      {
        SetLevel(i, 0);
        i := i + 1;
      }
    }

    method ResetTicks()
      requires Valid()
      modifies this`mlTicks
      ensures Valid() && Value() == old(Value()).(ticks := 0)
    {
      mlTicks := 0;
    }

    /** `_multilevel_on_tick`: the boost, then the demotion of a process that has used up its slice. */
    method OnTick()
      requires Valid() && Linked(Value(), INIT)
      modifies this`mlTicks, queues, queueLevel, processes`state, processes`nextReady
      ensures Valid() && Value() == DemoteTick(BoostTick(old(Value())))
    {
      hide Valid, Records, Linked, Boosted, Members, Queues;
      Numbered();
      if algorithm == MLFQ {
        if mlTicks + 1 >= MLFQ_BOOST_PERIOD {
          Boost();
        } else {
          CountBoostTick();
        }
        LevelsInRange();
        if current.pid != INIT && current.counter <= 0 && current.preemptDisabled == 0
           && queueLevel[current.pid] < ML_MAX_LEVELS - 1 {
          SetLevel(current.pid, queueLevel[current.pid] + 1);
        }
      }
    }

    lemma LevelsInRange()
      requires Valid()
      ensures queueLevel.Length == N_PROCESSES && current.pid < N_PROCESSES && |processes| <= N_PROCESSES
    {
    }

    method CountBoostTick()
      requires Valid()
      modifies this`mlTicks
      ensures Valid() && Value() == old(Value()).(ticks := old(Value()).ticks + 1)
    {
      mlTicks := mlTicks + 1;
    }

    /** The tick is accounted to the current process. */
    method AccountTick()
      requires Valid()
      modifies current`counter, current`burstTicks
      ensures Valid()
      ensures Value() == Account(old(Value()))
    {
      hide Valid, Records;
      Numbered();
      current.counter := current.counter - 1;
      current.burstTicks := current.burstTicks + 1;
      RecordReplaced(current);
    }

    method TakeTick()
      requires Valid() && Invariant(Value())
      modifies this`mlTicks, queues, queueLevel, processes`state, processes`counter, processes`burstTicks,
               processes`nextReady
      ensures Valid() && Value() == CountTick(old(Value()))
    {
      hide Valid, Records, Linked, Invariant, DemoteTick, BoostTick, Account;
      Numbered();
      TickConsistent(Value());
      AccountTick();
      OnTick();
    }

    /** `handle_timer_tick`. */
    method HandleTimerTick(draws: seq<nat>)
      requires Valid() && Invariant(Value()) && PositivePriorities(Value().procs) && Room(Value(), draws)
      modifies this`current, this`mlTicks, queues, queueLevel, processes
      ensures Valid() && Value() == Tick(old(Value()), draws)
      ensures TickTells(old(Value()), draws, Value())
    {
      hide Valid, Records, Linked, Consistent, Invariant, PositivePriorities, Pick, CountTick, TickTells, PickTells;
      TickEffect(Value(), draws);
      TickConsistent(Value());
      TakeTick();
      Numbered();
      if current.counter > 0 || current.preemptDisabled > 0 {
        return;
      }
      SetCounter(current, 0);
      if !algorithm.Preemptive() {
        return;
      }
      PickNext(draws);
    }

    // ----------------------------------------------------- exit and wait

    /** The scan of `exit_process` for processes that wait for the one that dies. */
    method WakeAll(target: nat)
      requires Valid() && Consistent(Value()) && Value().procs[Value().current].state == ZOMBIE
      modifies queues, processes`state, processes`pidToWait, processes`nextReady
      ensures Valid() && Value() == WakeWaiters(old(Value()), target, 0)
    {
      hide Valid, Records, Consistent, WakeWaiters;
      ghost var s := Value();
      var i := 0;
      while i < |processes|
        invariant i <= |processes| && Valid() && Consistent(Value()) && Value().procs[Value().current].state == ZOMBIE
        invariant WakeWaiters(s, target, 0) == WakeWaiters(Value(), target, i)
      {
        WakeTurn(Value(), target, i);
        Numbered();
        if processes[i].state == WAITING_ANOTHER_PROCESS && processes[i].pidToWait == target {
          WakeWaiter(processes[i]);
        }
        i := i + 1;
      }
      WakeTurn(Value(), target, i);
    }

    method WakeWaiter(p: PCB)
      requires Valid() && Registered(p) && Nowhere(Value(), p.pid)
      modifies queues, p`state, p`pidToWait, processes`nextReady
      ensures Valid()
      ensures Value()
              == Enqueue(WithProc(old(Value()), p.pid, old(p.Record()).(state := READY, pidToWait := -1)), p.pid)
    {
      hide Valid, Records, Enqueue;
      p.state := READY;
      p.pidToWait := -1;
      RecordReplaced(p);
      EnqueueProcess(p);
    }

    /** `exit_process`. */
    method ExitProcess(draws: seq<nat>)
      requires Valid() && Invariant(Value()) && PositivePriorities(Value().procs) && Room(Value(), draws)
               && current.pid != INIT
      modifies this`current, queues, processes
      ensures Valid() && Value() == Exit(old(Value()), draws)
      ensures ExitTells(old(Value()), draws, Value())
    {
      hide Valid, Records, Consistent, Invariant, PositivePriorities, WakeWaiters, Schedule, ExitTells, ScheduleTells;
      ExitEffect(Value(), draws);
      Numbered();
      ghost var s := Value();
      ExitConsistent(s);
      AddPreemptDisabled(1);
      AddPreemptDisabled(-1);
      SetState(current, ZOMBIE);
      WakeAll(current.pid);
      Reschedule(draws);
    }

    /** A system call blocks the current process until an event wakes it. */
    method BlockCurrent(st: State, draws: seq<nat>)
      requires Valid() && Invariant(Value()) && PositivePriorities(Value().procs) && Room(Value(), draws)
      requires current.pid != INIT && Blocking(st)
      modifies this`current, queues, processes
      ensures Valid() && Value() == Block(old(Value()), st, draws)
    {
      hide Valid, Records, Consistent, Invariant, PositivePriorities, Schedule;
      Numbered();
      LeaveConsistent(Value(), Value().procs[Value().current].(state := st));
      SetState(current, st);
      Reschedule(draws);
    }

    /** `syscall_wait`. */
    method SyscallWait(pid: int, draws: seq<nat>) returns (r: int)
      requires Valid() && Invariant(Value()) && PositivePriorities(Value().procs) && Room(Value(), draws)
               && current.pid != INIT
      modifies this`current, queues, processes
      ensures Valid() && (Value(), r) == Wait(old(Value()), pid, draws)
      ensures WaitTells(old(Value()), pid, draws, Value(), r)
    {
      hide Valid, Records, Consistent, Invariant, PositivePriorities, Schedule, WaitTells, ScheduleTells;
      WaitEffect(Value(), pid, draws);
      Numbered();
      if !(0 <= pid < |processes|) {
        return -1;
      }
      if processes[pid].state == ZOMBIE {
        return 0;
      }
      LeaveConsistent(Value(), Value().procs[Value().current].(state := WAITING_ANOTHER_PROCESS, pidToWait := pid));
      MarkWaiting(pid);
      Reschedule(draws);
      return 0;
    }

    method MarkWaiting(pid: nat)
      requires Valid()
      modifies current`state, current`pidToWait
      ensures Valid()
      ensures Value() == WithProc(old(Value()), current.pid,
                                  old(Value()).procs[current.pid].(state := WAITING_ANOTHER_PROCESS, pidToWait := pid))
    {
      hide Valid, Records;
      Numbered();
      current.state := WAITING_ANOTHER_PROCESS;
      current.pidToWait := pid;
      RecordReplaced(current);
    }

    /** An interrupt or a message makes a blocked process ready. */
    method WakeProcess(p: PCB)
      requires Valid() && Registered(p) && Consistent(Value()) && Blocking(p.state)
      modifies queues, p`state, processes`nextReady
      ensures Valid() && Value() == Wake(old(Value()), p.pid)
    {
      hide Valid, Records, Enqueue, Consistent;
      ConsistentFacts(Value());
      Unlinked(Value(), p.pid);
      SetState(p, READY);
      EnqueueProcess(p);
    }

    // --------------------------------------------------------- parameters

    /** `sched_set_param`. */
    method SchedSetParam(p: PCB, param: Param, value: int) returns (r: int)
      requires Valid() && Registered(p)
      modifies p`priority, p`tickets, p`queuePriority, queueLevel
      ensures Valid() && (Value(), r) == SetParam(old(Value()), p.pid, param, value)
      ensures ParamTells(old(Value()), p.pid, param, value, Value(), r)
    {
      hide Valid, Records, ParamTells;
      Numbered();
      ParamEffect(Value(), p.pid, param, value);
      if p.pid == INIT {
        return -1;
      }
      match param
      case PRIORITY =>
        if value < 1 {
          return -1;
        }
        p.priority := value;
        RecordReplaced(p);
        return 0;
      case TICKETS =>
        if value < 1 {
          return -1;
        }
        p.tickets := value;
        RecordReplaced(p);
        return 0;
      case QUEUE_PRIORITY =>
        if value < 0 || value >= ML_MAX_LEVELS {
          return -1;
        }
        p.queuePriority := value;
        RecordReplaced(p);
        LevelsInRange();
        SetLevel(p.pid, value);
        return 0;
      case UNKNOWN =>
        return -1;
    }

    /** `send_signal`. */
    method SendSignalTo(p: PCB, flag: nat)
      requires Valid() && Registered(p)
      modifies p`pending
      ensures Valid() && Value() == SendSignal(old(Value()), p.pid, flag)
    {
      hide Valid, Records;
      p.pending := p.pending + {flag};
      RecordReplaced(p);
    }

    // ---------------------------------------------------------------- fork

    /** The table of processes gets another slot. */
    method AddSlot(p: PCB)
      requires Valid() && |processes| < N_PROCESSES && p.pid == |processes|
      modifies this`processes
      ensures Valid() && Registered(p) && processes == old(processes) + [p] && Nowhere(Value(), p.pid)
      ensures Value() == old(Value()).(procs := old(Value()).procs + [p.Record()])
    {
      hide Records, Valid, Members;
      ghost var s := Value();
      Numbered();
      ghost var table := processes;
      processes := processes + [p];
      forall i | 0 <= i < |processes|
        ensures processes[i].pid == i
      {
        assert i < |table| ==> processes[i] == table[i];
      }
      TableGrown();
      assert Records(processes) == s.procs + [p.Record()];
      assert Value().queues == s.queues;
    }

    twostate lemma TableGrown()
      requires old(Valid()) && unchanged(queueLevel) && old(processes) <= processes && |processes| <= N_PROCESSES
      requires unchanged(this`current) && unchanged(this`mlTicks)
      requires forall i :: 0 <= i < |processes| ==> processes[i].pid == i
      requires forall k :: 0 <= k < |queues| ==> LeftAlone(queues[k])
      ensures Valid()
    {
      hide Members;
      forall k | 0 <= k < |queues|
        ensures Members(queues[k]) && queues[k].Valid()
      {
        assert LeftAlone(queues[k]);
        assert old(Members(queues[k]) && queues[k].Valid());
        StillMembers(queues[k]);
      }
      forall k, l, x | 0 <= k < l < |queues| && x in queues[k].items
        ensures x !in queues[l].items
      {
        assert LeftAlone(queues[k]) && LeftAlone(queues[l]);
      }
    }

    /** A longer table still registers whoever was registered. */
    twostate lemma StillMembers(q: ProcessQueue)
      requires old(Members(q)) && unchanged(q) && old(processes) <= processes
      ensures Members(q)
    {
    }

    /** `add_process_to_scheduler` for a ready process with the next free pid. */
    method AddProcessToScheduler(p: PCB)
      requires Valid() && |processes| < N_PROCESSES && p.pid == |processes| && p.state == READY
      modifies this`processes, queues, queueLevel, processes`nextReady, p`state, p`nextReady
      ensures Valid() && Value() == Register(old(Value()), old(p.Record()))
      ensures current == old(current)
    {
      hide Records, Valid, Enqueue, Nowhere;
      AddSlot(p);
      LevelsInRange();
      SetLevel(p.pid, Clamped(p.queuePriority));
      SameNowhere(Value(), p.pid);
      EnqueueProcess(p);
    }

    lemma SameNowhere(s: KState, i: nat)
      ensures forall level :: Nowhere(s.(level := level), i) <==> Nowhere(s, i)
    {
    }

    /** `copy_process`; `memory` tells whether a page for the PCB was found. */
    method CopyProcess(memory: bool) returns (r: int)
      requires Valid()
      modifies this`processes, queues, queueLevel, processes`preemptDisabled, processes`nextReady
      ensures Valid() && (Value(), r) == Fork(old(Value()), memory)
      ensures ForkTells(old(Value()), memory, Value(), r)
    {
      hide Valid, Records, Register, ProcessQueue.Valid, Queues, Pids, Members, ForkTells;
      Numbered();
      ForkEffect(Value(), memory);
      AddPreemptDisabled(1);
      LevelsInRange();
      if !memory || |processes| >= N_PROCESSES {
        return -1;
      }
      var pid := |processes|;
      var p := new PCB(pid, Child(current.Record()));
      AddProcessToScheduler(p);
      Numbered();
      AddPreemptDisabled(-1);
      return pid;
    }
  }
}
