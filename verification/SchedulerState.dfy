/**
 The scheduler of `libs/scheduler.c` as a value: the processes by pid, the ready
 queue and the five level queues as sequences of pids, and every operation that
 the seven algorithms are made of as a function of that state. `KernelScheduler`
 runs the same operations in place on linked PCBs.
 */
module SchedulerState {

  const N_PROCESSES := 64
  const ML_MAX_LEVELS := 5
  const MLFQ_BOOST_PERIOD := 300
  const ROUND_ROBIN_QUANTUM := 10
  const MAX_TICKETS := 0x7fff_ffff

  const SIGNAL_KILL := 1
  const SIGNAL_STOP := 2
  const SIGNAL_RESUME := 3

  // The init process is the first of the table and is never queued.
  const INIT: nat := 0

  datatype State =
    | BOOTING            // the init process before its first dispatch
    | RUNNING
    | ZOMBIE
    | WAITING_UART_INPUT
    | WAITING_TO_RECEIVE_MESSAGE
    | WAITING_TO_SEND_MESSAGE
    | WAITING_ANOTHER_PROCESS
    | STOPPED
    | READY

  datatype Proc = Proc(
    state: State, counter: int, priority: int, estBurst: int, burstTicks: int, queuePriority: int,
    tickets: int, preemptDisabled: int, pending: set<nat>, pidToWait: int)

  datatype Algorithm = ROUND_ROBIN | FCFS | SJF | LOTTERY | PRIORITY_AGING | MLQ | MLFQ
  {
    predicate Preemptive() {
      this != FCFS && this != SJF
    }

    predicate Multilevel() {
      this == MLQ || this == MLFQ
    }
  }

  /** The quantum of a level of the multilevel policies. */
  function Quantum(a: Algorithm, level: nat): int
    requires level < ML_MAX_LEVELS
  {
    if a == MLQ then [10, 12, 14, 16, 20][level] else [5, 8, 10, 15, 20][level]
  }

  /** Queue 0 is the shared ready queue, queue `l + 1` that of level `l`. */
  const READY_QUEUE: nat := 0
  const N_QUEUES: nat := 6

  datatype KState = KState(
    procs: seq<Proc>, queues: seq<seq<nat>>, level: seq<nat>, ticks: nat, current: nat, algorithm: Algorithm)

  /** The shape every state of the kernel has. */
  ghost predicate Shaped(s: KState) {
    && 0 < |s.procs| <= N_PROCESSES && s.current < |s.procs|
    && |s.queues| == N_QUEUES && |s.level| == N_PROCESSES
    && (forall i :: 0 <= i < N_PROCESSES ==> s.level[i] < ML_MAX_LEVELS)
    && forall k, j :: 0 <= k < N_QUEUES && 0 <= j < |s.queues[k]| ==> 0 < s.queues[k][j] < |s.procs|
  }

  lemma ShapeFacts(s: KState)
    requires Shaped(s)
    ensures |s.queues| == N_QUEUES && N_QUEUES == 6 && READY_QUEUE == 0 && INIT == 0 && ML_MAX_LEVELS == 5
    ensures 0 < |s.procs| <= N_PROCESSES && s.current < |s.procs|
    ensures forall k, j :: 0 <= k < |s.queues| && 0 <= j < |s.queues[k]| ==> 0 < s.queues[k][j] < |s.procs|
  {
  }

  function WithProc(s: KState, i: nat, p: Proc): KState
    requires i < |s.procs|
  {
    s.(procs := s.procs[i := p])
  }

  function WithState(s: KState, i: nat, st: State): KState
    requires i < |s.procs|
  {
    WithProc(s, i, s.procs[i].(state := st))
  }

  function WithQueue(s: KState, k: nat, q: seq<nat>): KState
    requires k < |s.queues|
  {
    s.(queues := s.queues[k := q])
  }

  // -------------------------------------------------------------- queues

  function RemoveAt(q: seq<nat>, j: nat): seq<nat>
    requires j < |q|
  {
    q[..j] + q[j + 1..]
  }

  /** Where the sorted insertion puts a process: after every one that is not longer. */
  function SortedPlace(procs: seq<Proc>, q: seq<nat>, est: int): (j: nat)
    requires forall k :: 0 <= k < |q| ==> q[k] < |procs|
    ensures j <= |q|
    ensures forall k :: 0 <= k < j ==> procs[q[k]].estBurst <= est
    ensures j < |q| ==> est < procs[q[j]].estBurst
  {
    if q == [] || est < procs[q[0]].estBurst then 0 else 1 + SortedPlace(procs, q[1..], est)
  }

  function InsertAt(q: seq<nat>, j: nat, i: nat): seq<nat>
    requires j <= |q|
  {
    q[..j] + [i] + q[j..]
  }

  /** Insertion of a ready process at position `j` of a queue. */
  function Insert(s: KState, k: nat, j: nat, i: nat): KState
    requires i < |s.procs| && k < |s.queues| && j <= |s.queues[k]|
  {
    WithState(WithQueue(s, k, InsertAt(s.queues[k], j, i)), i, READY)
  }

  /** The queue and the place that the algorithm's insertion policy chooses. */
  function QueueOf(s: KState, i: nat): (k: nat)
    requires Shaped(s) && i < |s.procs|
    ensures k < N_QUEUES
  {
    if s.algorithm.Multilevel() then s.level[i] + 1 else READY_QUEUE
  }

  function PlaceOf(s: KState, i: nat): (j: nat)
    requires Shaped(s) && i < |s.procs|
    ensures j <= |s.queues[QueueOf(s, i)]|
  {
    if s.algorithm == SJF then SortedPlace(s.procs, s.queues[READY_QUEUE], s.procs[i].estBurst)
    else |s.queues[QueueOf(s, i)]|
  }

  /** `enqueue_process`: the init process is never queued. */
  function Enqueue(s: KState, i: nat): KState
    requires Shaped(s) && i < |s.procs|
  {
    if i == INIT then s else Insert(s, QueueOf(s, i), PlaceOf(s, i), i)
  }

  // ------------------------------------------------------------- signals

  /** `handle_process_signals` on the record of the process. */
  function Signalled(p: Proc): Proc {
    if SIGNAL_KILL in p.pending then p.(state := ZOMBIE, pending := p.pending - {SIGNAL_KILL})
    else if SIGNAL_STOP in p.pending then p.(state := STOPPED, pending := p.pending - {SIGNAL_STOP})
    else if SIGNAL_RESUME in p.pending then p.(pending := p.pending - {SIGNAL_RESUME})
    else p
  }

  /** Does a pending resume wake the process up? */
  predicate Resumes(p: Proc) {
    SIGNAL_KILL !in p.pending && SIGNAL_STOP !in p.pending && SIGNAL_RESUME in p.pending && p.state == STOPPED
  }

  function HandleSignals(s: KState, i: nat): KState
    requires Shaped(s) && i < |s.procs|
  {
    var v := WithProc(s, i, Signalled(s.procs[i]));
    if Resumes(s.procs[i]) then Enqueue(WithState(v, i, READY), i) else v
  }

  /** A queued process that outlives its pending signals. */
  predicate Survives(p: Proc) {
    SIGNAL_KILL !in p.pending && SIGNAL_STOP !in p.pending
  }

  /** The records after the signals of every process in `q` have been handled. */
  function Delivered(procs: seq<Proc>, q: seq<nat>): (r: seq<Proc>)
    ensures |r| == |procs|
  {
    seq(|procs|, i requires 0 <= i < |procs| => if i in q then Signalled(procs[i]) else procs[i])
  }

  function Survivors(procs: seq<Proc>, q: seq<nat>): (r: seq<nat>)
    requires forall k :: 0 <= k < |q| ==> q[k] < |procs|
    ensures |r| <= |q|
    ensures forall k :: 0 <= k < |r| ==> r[k] in q && Survives(procs[r[k]])
  {
    if q == [] then []
    else (if Survives(procs[q[0]]) then [q[0]] else []) + Survivors(procs, q[1..])
  }

  /** The position of the first process that survives its signals, or the length of the queue. */
  function FirstSurvivor(procs: seq<Proc>, q: seq<nat>): (d: nat)
    requires forall k :: 0 <= k < |q| ==> q[k] < |procs|
    ensures d <= |q|
    ensures forall k :: 0 <= k < d ==> !Survives(procs[q[k]])
    ensures d < |q| ==> Survives(procs[q[d]])
  {
    if q == [] || Survives(procs[q[0]]) then 0 else 1 + FirstSurvivor(procs, q[1..])
  }

  // ----------------------------------------------------------- selection

  /** Before a decision the outgoing process goes back to its queue if it can still run. */
  function Park(s: KState): (v: KState)
    requires Shaped(s)
    ensures Shaped(v) && |v.procs| == |s.procs| && |v.queues[READY_QUEUE]| <= |s.queues[READY_QUEUE]| + 1
    ensures forall i :: 0 <= i < |s.procs| ==> v.procs[i].priority == s.procs[i].priority
  {
    if s.current != INIT && s.procs[s.current].state == RUNNING then Enqueue(s, s.current) else s
  }

  /** Takes processes off a queue until one is still ready after its signals; INIT when none is. */
  function TakeReady(s: KState, k: nat): (r: (KState, nat))
    requires Shaped(s) && k < N_QUEUES
    ensures Shaped(r.0) && r.1 < |r.0.procs|
  {
    var q := s.queues[k];
    var d := FirstSurvivor(s.procs, q);
    if d == |q| then (WithQueue(s, k, []).(procs := Delivered(s.procs, q)), INIT)
    else (WithQueue(s, k, q[d + 1..]).(procs := Delivered(s.procs, q[..d + 1])), q[d])
  }

  function Recharged(s: KState, i: nat, quantum: int): KState
    requires i < |s.procs|
  {
    WithProc(s, i, s.procs[i].(counter := quantum))
  }

  function SelectRoundRobin(s: KState): (r: (KState, nat))
    requires Shaped(s)
    ensures Shaped(r.0) && r.1 < |r.0.procs|
  {
    var (v, i) := TakeReady(s, READY_QUEUE);
    (if i == INIT then v else Recharged(v, i, ROUND_ROBIN_QUANTUM), i)
  }

  /** Levels from `l` downwards in priority. */
  function SelectMultilevel(s: KState, l: nat): (r: (KState, nat))
    requires Shaped(s) && l <= ML_MAX_LEVELS
    ensures Shaped(r.0) && r.1 < |r.0.procs|
    decreases ML_MAX_LEVELS - l
  {
    if l == ML_MAX_LEVELS then (s, INIT)
    else
      var (v, i) := TakeReady(s, l + 1);
      if i != INIT then (Recharged(v, i, Quantum(s.algorithm, l)), i) else SelectMultilevel(v, l + 1)
  }

  // ----------------------------------------------------- lottery selection

  /** A count below one is treated as one. */
  function Tickets(p: Proc): (t: nat)
    ensures t >= 1
  {
    if p.tickets > 0 then p.tickets else 1
  }

  predicate InTable(procs: seq<Proc>, q: seq<nat>) {
    forall k :: 0 <= k < |q| ==> q[k] < |procs|
  }

  function TotalTickets(procs: seq<Proc>, q: seq<nat>): (t: nat)
    requires InTable(procs, q)
    ensures t >= |q|
  {
    if q == [] then 0 else Tickets(procs[q[0]]) + TotalTickets(procs, q[1..])
  }

  /** The ticket walk: the first position where the accumulated count exceeds the winning ticket. */
  function Winner(procs: seq<Proc>, q: seq<nat>, ticket: nat): (j: nat)
    requires InTable(procs, q)
    requires ticket < TotalTickets(procs, q)
    ensures j < |q|
  {
    if ticket < Tickets(procs[q[0]]) then 0 else 1 + Winner(procs, q[1..], ticket - Tickets(procs[q[0]]))
  }

  /** Draws until the winner survives its signals; `draws` are the random numbers. */
  function SelectLottery(s: KState, draws: seq<nat>): (r: (KState, nat))
    requires Shaped(s) && |s.queues[READY_QUEUE]| <= |draws|
    ensures Shaped(r.0) && r.1 < |r.0.procs|
    decreases |draws|
  {
    var q := s.queues[READY_QUEUE];
    if q == [] then (s, INIT)
    else
      var j := Winner(s.procs, q, draws[0] % TotalTickets(s.procs, q));
      var u := Unlink(s, READY_QUEUE, j).0;
      var v := u.(procs := Delivered(u.procs, [q[j]]));
      if Survives(s.procs[q[j]]) then (Recharged(v, q[j], ROUND_ROBIN_QUANTUM), q[j])
      else SelectLottery(v, draws[1..])
  }

  // ------------------------------------------------------- aging selection

  /** One pass over the ready queue: signals are handled and only ready processes stay. */
  function Swept(s: KState): (v: KState)
    requires Shaped(s)
    ensures Shaped(v) && |v.queues[READY_QUEUE]| <= |s.queues[READY_QUEUE]|
  {
    var q := s.queues[READY_QUEUE];
    WithQueue(s, READY_QUEUE, Survivors(s.procs, q)).(procs := Delivered(s.procs, q))
  }

  /** The first process with the largest positive counter among the first `n`, or `n` as a miss. */
  function Best(procs: seq<Proc>, q: seq<nat>, n: nat): (j: nat)
    requires n <= |q| && forall k :: 0 <= k < |q| ==> q[k] < |procs|
    ensures j <= |q|
    ensures j == |q| ==> forall k :: 0 <= k < n ==> procs[q[k]].counter <= 0
    ensures j < |q| ==> j < n && procs[q[j]].counter > 0
    ensures j < |q| ==> forall k :: 0 <= k < n ==> procs[q[k]].counter <= procs[q[j]].counter
    ensures j < |q| ==> forall k :: 0 <= k < j ==> procs[q[k]].counter < procs[q[j]].counter
  {
    if n == 0 then |q|
    else
      var b := Best(procs, q, n - 1);
      if procs[q[n - 1]].counter > (if b == |q| then 0 else procs[q[b]].counter) then n - 1 else b
  }

  /** `counter >> 1` rounds towards minus infinity. */
  function Recharge(p: Proc): Proc {
    p.(counter := p.counter / 2 + p.priority)
  }

  /** A new epoch recharges every process, blocked ones included. */
  function Epoch(s: KState): (v: KState)
    requires Shaped(s)
    ensures Shaped(v)
  {
    s.(procs := seq(|s.procs|, i requires 0 <= i < |s.procs| => Recharge(s.procs[i])))
  }

  ghost predicate PositivePriorities(procs: seq<Proc>) {
    forall i :: 0 <= i < |procs| ==> procs[i].priority >= 1
  }

  function Deficit(s: KState): nat
    requires Shaped(s)
  {
    var q := s.queues[READY_QUEUE];
    if q == [] || s.procs[q[0]].counter > 0 then 0 else 1 - s.procs[q[0]].counter
  }

  lemma SignalledKeeps()
    ensures forall p: Proc :: Signalled(p).counter == p.counter && Signalled(p).priority == p.priority
  {
  }

  /** A pass that drops nobody leaves the queue and its counters alone. */
  lemma SweptSame(s: KState)
    requires Shaped(s)
    ensures var v := Swept(s);
            && (forall i :: 0 <= i < |s.procs| ==>
                v.procs[i].counter == s.procs[i].counter && v.procs[i].priority == s.procs[i].priority)
            && (|v.queues[READY_QUEUE]| == |s.queues[READY_QUEUE]| ==> v.queues == s.queues)
  {
    hide Survivors, Signalled;
    SignalledKeeps();
    if |Survivors(s.procs, s.queues[READY_QUEUE])| == |s.queues[READY_QUEUE]| {
      SurvivorsSame(s.procs, s.queues[READY_QUEUE]);
      assert s.queues[READY_QUEUE := s.queues[READY_QUEUE]] == s.queues;
    }
  }

  lemma {:induction false} SurvivorsSame(procs: seq<Proc>, q: seq<nat>)
    requires forall k :: 0 <= k < |q| ==> q[k] < |procs|
    requires |Survivors(procs, q)| == |q|
    ensures Survivors(procs, q) == q
  {
    if q != [] {
      assert |Survivors(procs, q[1..])| <= |q| - 1;
      SurvivorsSame(procs, q[1..]);
    }
  }

  /** An epoch that found nobody brings the head of the queue closer to a positive counter. */
  lemma EpochRaises(s: KState)
    requires Shaped(s) && PositivePriorities(s.procs)
    requires var q := Swept(s).queues[READY_QUEUE];
             q != [] && Best(Swept(s).procs, q, |q|) == |q|
    ensures PositivePriorities(Epoch(Swept(s)).procs)
    ensures |Epoch(Swept(s)).queues[READY_QUEUE]| <= |s.queues[READY_QUEUE]|
    ensures |Epoch(Swept(s)).queues[READY_QUEUE]| == |s.queues[READY_QUEUE]| ==> Deficit(Epoch(Swept(s))) < Deficit(s)
  {
    hide Best;
    SweptSame(s);
    var q := Swept(s).queues[READY_QUEUE];
    assert Swept(s).procs[q[0]].counter <= 0;
    hide Swept;
  }

  /**
   The selection loop of priority aging. It ends because each epoch that finds
   nobody raises the counter of the queue's head, which is not positive.
   */
  function SelectAging(s: KState): (r: (KState, nat))
    requires Shaped(s) && PositivePriorities(s.procs)
    ensures Shaped(r.0) && r.1 < |r.0.procs| == |s.procs|
    decreases |s.queues[READY_QUEUE]|, Deficit(s)
  {
    var v := Swept(s);
    var q := v.queues[READY_QUEUE];
    var j := Best(v.procs, q, |q|);
    if j < |q| then Unlink(v, READY_QUEUE, j)
    else if q == [] then (v, INIT)
    else
      EpochRaises(s);
      SelectAging(Epoch(v))
  }

  /** A process taken from the middle of a queue. */
  function Unlink(s: KState, k: nat, j: nat): (r: (KState, nat))
    requires Shaped(s) && k < N_QUEUES && j < |s.queues[k]|
    ensures Shaped(r.0) && r.1 < |r.0.procs|
    ensures r.0 == s.(queues := r.0.queues) && r.1 == s.queues[k][j]
  {
    (WithQueue(s, k, RemoveAt(s.queues[k], j)), s.queues[k][j])
  }

  // ------------------------------------------------------------- decision

  function Select(s: KState, draws: seq<nat>): (r: (KState, nat))
    requires Shaped(s) && PositivePriorities(s.procs) && |s.queues[READY_QUEUE]| <= |draws|
    ensures Shaped(r.0) && r.1 < |r.0.procs|
  {
    match s.algorithm
    case ROUND_ROBIN => SelectRoundRobin(s)
    case LOTTERY => SelectLottery(s, draws)
    case PRIORITY_AGING => SelectAging(s)
    case MLQ => SelectMultilevel(s, 0)
    case MLFQ => SelectMultilevel(s, 0)
    case FCFS => TakeReady(s, READY_QUEUE)
    case SJF => TakeReady(s, READY_QUEUE)
  }

  function AddPreempt(s: KState, i: nat, d: int): KState
    requires i < |s.procs|
  {
    WithProc(s, i, s.procs[i].(preemptDisabled := s.procs[i].preemptDisabled + d))
  }

  /** `switch_to_process`. */
  function SwitchTo(s: KState, next: nat): KState
    requires Shaped(s) && next < |s.procs|
  {
    var v := WithState(s, next, RUNNING);
    if s.current == next then v
    else
      var w := if v.procs[s.current].state == RUNNING then WithState(v, s.current, READY) else v;
      w.(current := next)
  }

  /** `_schedule`: park the outgoing process, select, switch, all with preemption disabled. */
  function Pick(s: KState, draws: seq<nat>): KState
    requires Shaped(s) && PositivePriorities(s.procs) && |s.queues[READY_QUEUE]| < |draws|
  {
    var b := Park(AddPreempt(s, s.current, 1));
    var (c, next) := Select(b, draws);
    AddPreempt(SwitchTo(c, next), next, -1)
  }

  // ---------------------------------------------------------- timer tick

  /** All the processes of the lower levels go to level 0, keeping their order. */
  function Boosted(s: KState): (v: KState)
    requires Shaped(s)
    ensures Shaped(v)
  {
    s.(queues := [s.queues[0], s.queues[1] + s.queues[2] + s.queues[3] + s.queues[4] + s.queues[5], [], [], [], []],
       level := seq(N_PROCESSES, i => 0), ticks := 0)
  }

  function BoostTick(s: KState): (v: KState)
    requires Shaped(s)
    ensures Shaped(v)
  {
    if s.algorithm != MLFQ then s
    else if s.ticks + 1 >= MLFQ_BOOST_PERIOD then Boosted(s)
    else s.(ticks := s.ticks + 1)
  }

  /** A process that has used up its slice slides one level down. */
  function DemoteTick(s: KState): (v: KState)
    requires Shaped(s)
    ensures Shaped(v)
  {
    var p := s.procs[s.current];
    if s.algorithm == MLFQ && s.current != INIT && p.counter <= 0 && p.preemptDisabled == 0
      && s.level[s.current] < ML_MAX_LEVELS - 1
    then s.(level := s.level[s.current := s.level[s.current] + 1])
    else s
  }

  /** The tick is accounted to the current process. */
  function Account(s: KState): (v: KState)
    requires Shaped(s)
    ensures Shaped(v)
  {
    var p := s.procs[s.current];
    WithProc(s, s.current, p.(counter := p.counter - 1, burstTicks := p.burstTicks + 1))
  }

  function CountTick(s: KState): (v: KState)
    requires Shaped(s)
    ensures Shaped(v)
  {
    DemoteTick(BoostTick(Account(s)))
  }

  /** Does the tick end in a scheduling decision? */
  predicate Expires(s: KState)
    requires Shaped(s)
  {
    s.procs[s.current].counter <= 1 && s.procs[s.current].preemptDisabled <= 0
  }

  /** `handle_timer_tick`. */
  function Tick(s: KState, draws: seq<nat>): KState
    requires Shaped(s) && PositivePriorities(s.procs) && Room(s, draws)
  {
    var v := CountTick(s);
    if !Expires(s) then v
    else
      var w := WithProc(v, v.current, v.procs[v.current].(counter := 0));
      if s.algorithm.Preemptive() then Pick(w, draws) else w
  }

  /** Enough random numbers for every draw that a decision may need. */
  ghost predicate Room(s: KState, draws: seq<nat>)
    requires Shaped(s)
  {
    |s.queues[READY_QUEUE]| + N_PROCESSES < |draws|
  }

  // ------------------------------------------------------------ blocking

  /** The burst of a process that gives up the CPU for good or for a while is over. */
  function EndBurst(p: Proc): Proc {
    p.(estBurst := Halved(p.burstTicks + p.estBurst), burstTicks := 0)
  }

  /** Division by two as the C operator rounds it, towards zero. */
  function Halved(x: int): int {
    if x >= 0 then x / 2 else -(-x / 2)
  }

  /** What `schedule` does before it decides. */
  function Rest(s: KState): (v: KState)
    requires Shaped(s)
    ensures Shaped(v) && v == s.(procs := v.procs) && |v.procs| == |s.procs|
    ensures forall i :: 0 <= i < |s.procs| ==> v.procs[i].priority == s.procs[i].priority
  {
    var p := s.procs[s.current];
    var r := if s.current != INIT && p.state != RUNNING && p.state != READY then EndBurst(p) else p;
    WithProc(s, s.current, r.(counter := 0))
  }

  /** `schedule`. */
  function Schedule(s: KState, draws: seq<nat>): KState
    requires Shaped(s) && PositivePriorities(s.procs) && |s.queues[READY_QUEUE]| < |draws|
  {
    Pick(Rest(s), draws)
  }

  /** From process `i` on, wakes everybody who waits for `target`. */
  function WakeWaiters(s: KState, target: nat, i: nat): (v: KState)
    requires Shaped(s) && i <= |s.procs|
    ensures Shaped(v) && |v.procs| == |s.procs| && v.current == s.current && v.algorithm == s.algorithm
    ensures forall j :: 0 <= j < |s.procs| ==> v.procs[j].priority == s.procs[j].priority
    ensures |v.queues[READY_QUEUE]| <= |s.queues[READY_QUEUE]| + |s.procs| - i
    decreases |s.procs| - i
  {
    if i == |s.procs| then s
    else if Waits(s.procs[i], target) then
      WakeWaiters(Enqueue(WithProc(s, i, s.procs[i].(state := READY, pidToWait := -1)), i), target, i + 1)
    else WakeWaiters(s, target, i + 1)
  }

  predicate Waits(p: Proc, target: nat) {
    p.state == WAITING_ANOTHER_PROCESS && p.pidToWait == target
  }

  /** `exit_process`. */
  function Exit(s: KState, draws: seq<nat>): KState
    requires Shaped(s) && PositivePriorities(s.procs) && Room(s, draws)
  {
    Schedule(WakeWaiters(WithState(s, s.current, ZOMBIE), s.current, 0), draws)
  }

  /** The current process blocks until an event wakes it. */
  function Block(s: KState, st: State, draws: seq<nat>): KState
    requires Shaped(s) && PositivePriorities(s.procs) && Room(s, draws)
  {
    Schedule(WithState(s, s.current, st), draws)
  }

  /** `syscall_wait`: -1 for an unknown pid, and no wait for a zombie. */
  function Wait(s: KState, pid: int, draws: seq<nat>): (r: (KState, int))
    requires Shaped(s) && PositivePriorities(s.procs) && Room(s, draws)
  {
    if !(0 <= pid < |s.procs|) then (s, -1)
    else if s.procs[pid].state == ZOMBIE then (s, 0)
    else
      var p := s.procs[s.current];
      (Schedule(WithProc(s, s.current, p.(state := WAITING_ANOTHER_PROCESS, pidToWait := pid)), draws), 0)
  }

  /** An interrupt or a message wakes a blocked process. */
  function Wake(s: KState, i: nat): KState
    requires Shaped(s) && i < |s.procs|
  {
    Enqueue(WithState(s, i, READY), i)
  }

  // ---------------------------------------------------------- parameters

  datatype Param = PRIORITY | TICKETS | QUEUE_PRIORITY | UNKNOWN

  /** `sched_set_param`; a 32-bit value comes from the system call. */
  function SetParam(s: KState, i: nat, param: Param, value: int): (r: (KState, int))
    requires Shaped(s) && i < |s.procs|
  {
    if i == INIT then (s, -1)
    else match param
      case PRIORITY =>
        if value < 1 then (s, -1) else (WithProc(s, i, s.procs[i].(priority := value)), 0)
      case TICKETS =>
        if value < 1 then (s, -1) else (WithProc(s, i, s.procs[i].(tickets := value)), 0)
      case QUEUE_PRIORITY =>
        if value < 0 || value >= ML_MAX_LEVELS then (s, -1)
        else (WithProc(s, i, s.procs[i].(queuePriority := value)).(level := s.level[i := value]), 0)
      case UNKNOWN => (s, -1)
  }

  function SendSignal(s: KState, i: nat, flag: nat): KState
    requires i < |s.procs|
  {
    WithProc(s, i, s.procs[i].(pending := s.procs[i].pending + {flag}))
  }

  // ---------------------------------------------------------------- fork

  function Clamped(level: int): (l: nat)
    ensures l < ML_MAX_LEVELS
  {
    if level < 0 then 0 else if level >= ML_MAX_LEVELS then ML_MAX_LEVELS - 1 else level
  }

  function Child(parent: Proc): Proc {
    Proc(READY, 10, parent.priority, parent.estBurst, 0, parent.queuePriority, parent.tickets, 1, {}, 0)
  }

  /** `add_process_to_scheduler` for the new last process. */
  function Register(s: KState, p: Proc): (v: KState)
    requires Shaped(s) && |s.procs| < N_PROCESSES
    ensures Shaped(v)
  {
    var i := |s.procs|;
    var v := s.(procs := s.procs + [p], level := s.level[i := Clamped(p.queuePriority)]);
    if p.state == READY then Enqueue(v, i) else v
  }

  /** `copy_process`: an early return leaves preemption disabled. */
  function Fork(s: KState, memory: bool): (r: (KState, int))
    requires Shaped(s)
  {
    var v := AddPreempt(s, s.current, 1);
    if !memory || |s.procs| >= N_PROCESSES then (v, -1)
    else (AddPreempt(Register(v, Child(v.procs[v.current])), v.current, -1), |s.procs|)
  }
}
