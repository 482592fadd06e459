/**
 What the operations of the kernel do to the records, field by field and number by number,
 without the functions that they are made of.
 */
module SchedulerEffects {
  import opened SchedulerState

  /** Every record but that of process `i` is as it was. */
  ghost predicate OthersSame(s: KState, v: KState, i: nat) {
    |v.procs| >= |s.procs| && forall j :: 0 <= j < |s.procs| && j != i ==> v.procs[j] == s.procs[j]
  }

  // ------------------------------------------------------------------ fork

  /** The level a process starts at: its queue priority, kept between 0 and 4. */
  predicate StartLevel(priority: int, level: int) {
    if priority < 0 then level == 0 else if priority > 4 then level == 4 else level == priority
  }

  /** A new process inherits what its parent was given, and nothing of what it has used up or been sent. */
  predicate Inherits(parent: Proc, child: Proc) {
    && child.priority == parent.priority && child.tickets == parent.tickets
    && child.queuePriority == parent.queuePriority && child.estBurst == parent.estBurst
    && child.state == READY && child.counter == 10 && child.burstTicks == 0
    && child.pending == {} && child.preemptDisabled == 1
  }

  /**
   A fork that fails leaves the caller with preemption disabled once more. One that
   succeeds adds one process, which comes last in its queue, or under shortest-job-first
   behind all that are not longer.
   */
  ghost predicate ForkTells(s: KState, memory: bool, v: KState, r: int)
    requires Shaped(s)
  {
    var n, p := |s.procs|, s.procs[s.current];
    && v.current == s.current && v.ticks == s.ticks && v.algorithm == s.algorithm
    && if !memory || n >= 64 then
         && r == -1 && |v.procs| == n && OthersSame(s, v, s.current) && v.queues == s.queues && v.level == s.level
         && v.procs[s.current] == p.(preemptDisabled := p.preemptDisabled + 1)
       else
         && r == n && |v.procs| == n + 1 && v.procs[..n] == s.procs && Inherits(p, v.procs[n])
         && |v.level| == 64 && StartLevel(p.queuePriority, v.level[n])
         && (forall i :: 0 <= i < 64 && i != n ==> v.level[i] == s.level[i])
         && |v.queues| == 6
         && (forall k :: 0 <= k < 6 ==>
               if s.algorithm in {MLQ, MLFQ} && k == v.level[n] + 1 then v.queues[k] == s.queues[k] + [n]
               else if s.algorithm !in {MLQ, MLFQ, SJF} && k == 0 then v.queues[k] == s.queues[k] + [n]
               else if s.algorithm == SJF && k == 0 then InsertedByLength(s, v.queues[k], n, p.estBurst)
               else v.queues[k] == s.queues[k])
  }

  /** The queue of shortest-job-first with process `n` in its place. */
  ghost predicate InsertedByLength(s: KState, q: seq<nat>, n: nat, est: int)
    requires Shaped(s)
  {
    exists j :: 0 <= j <= |s.queues[0]| && InsertedAt(s, q, n, est, j)
  }

  ghost predicate InsertedAt(s: KState, q: seq<nat>, n: nat, est: int, j: nat)
    requires Shaped(s) && j <= |s.queues[0]|
  {
    && q == s.queues[0][..j] + [n] + s.queues[0][j..]
    && (forall k :: 0 <= k < j ==> s.procs[s.queues[0][k]].estBurst <= est)
    && (j < |s.queues[0]| ==> est < s.procs[s.queues[0][j]].estBurst)
  }

  lemma ForkEffect(s: KState, memory: bool)
    requires Shaped(s)
    ensures var (v, r) := Fork(s, memory); ForkTells(s, memory, v, r)
  {
    var v := AddPreempt(s, s.current, 1);
    if memory && |s.procs| < 64 {
      var n, c := |s.procs|, Child(v.procs[v.current]);
      var u := v.(procs := v.procs + [c], level := v.level[n := Clamped(c.queuePriority)]);
      var w := Enqueue(u, n);
      QueuedChild(s, u, n);
      var x := AddPreempt(w, w.current, -1);
      assert x.procs[..n] == s.procs;
      assert x == Fork(s, memory).0;
    }
  }

  lemma QueuedChild(s: KState, u: KState, n: nat)
    requires Shaped(s) && Shaped(u) && n == |s.procs| && |u.procs| == n + 1 && u.procs[n].state == READY
    requires u.queues == s.queues && u.algorithm == s.algorithm
    requires forall i :: 0 <= i < n ==> u.procs[i].estBurst == s.procs[i].estBurst
    ensures var w := Enqueue(u, n);
            && w == u.(queues := w.queues) && |w.queues| == 6
            && forall k :: 0 <= k < 6 ==>
                 if s.algorithm in {MLQ, MLFQ} && k == u.level[n] + 1 then w.queues[k] == s.queues[k] + [n]
                 else if s.algorithm !in {MLQ, MLFQ, SJF} && k == 0 then w.queues[k] == s.queues[k] + [n]
                 else if s.algorithm == SJF && k == 0 then InsertedByLength(s, w.queues[k], n, u.procs[n].estBurst)
                 else w.queues[k] == s.queues[k]
  {
    var w := Enqueue(u, n);
    assert w.procs == u.procs;
    var j := PlaceOf(u, n);
    if s.algorithm == SJF {
      assert InsertedAt(s, w.queues[0], n, u.procs[n].estBurst, j);
    }
  }

  // ------------------------------------------------------------ parameters

  /** Each selector sets one parameter, to a value it allows, and a queue priority moves the process there. */
  ghost predicate ParamTells(s: KState, i: nat, param: Param, value: int, v: KState, r: int)
    requires Shaped(s) && i < |s.procs|
  {
    var p := s.procs[i];
    var allowed := i != 0 && (match param
                              case PRIORITY => value >= 1
                              case TICKETS => value >= 1
                              case QUEUE_PRIORITY => 0 <= value <= 4
                              case UNKNOWN => false);
    && r == (if allowed then 0 else -1)
    && (!allowed ==> v == s)
    && (allowed ==>
          && v.queues == s.queues && v.current == s.current && v.ticks == s.ticks && v.algorithm == s.algorithm
          && |v.procs| == |s.procs| && OthersSame(s, v, i)
          && v.procs[i].state == p.state && v.procs[i].counter == p.counter && v.procs[i].estBurst == p.estBurst
          && v.procs[i].burstTicks == p.burstTicks && v.procs[i].preemptDisabled == p.preemptDisabled
          && v.procs[i].pending == p.pending && v.procs[i].pidToWait == p.pidToWait
          && v.procs[i].priority == (if param == PRIORITY then value else p.priority)
          && v.procs[i].tickets == (if param == TICKETS then value else p.tickets)
          && v.procs[i].queuePriority == (if param == QUEUE_PRIORITY then value else p.queuePriority)
          && |v.level| == 64
          && forall j :: 0 <= j < 64 ==>
               v.level[j] == if j == i && param == QUEUE_PRIORITY then value else s.level[j])
  }

  lemma ParamEffect(s: KState, i: nat, param: Param, value: int)
    requires Shaped(s) && i < |s.procs|
    ensures var (v, r) := SetParam(s, i, param, value); ParamTells(s, i, param, value, v, r)
  {
  }

  // --------------------------------------------------------------- signals

  /** Signal 1 kills, signal 2 stops, signal 3 resumes a stopped process; the lowest is handled alone. */
  ghost predicate SignalsTell(s: KState, i: nat, v: KState)
    requires Shaped(s) && i < |s.procs|
  {
    var p := s.procs[i];
    && |v.procs| == |s.procs| && OthersSame(s, v, i) && v.current == s.current
    && v.procs[i] == p.(state := v.procs[i].state, pending := v.procs[i].pending)
    && (if 1 in p.pending then v.procs[i].state == ZOMBIE && v.procs[i].pending == p.pending - {1}
        else if 2 in p.pending then v.procs[i].state == STOPPED && v.procs[i].pending == p.pending - {2}
        else if 3 in p.pending then
          && v.procs[i].state == (if p.state == STOPPED then READY else p.state)
          && v.procs[i].pending == p.pending - {3}
        else v.procs[i] == p)
  }

  lemma SignalsEffect(s: KState, i: nat)
    requires Shaped(s) && i < |s.procs|
    ensures SignalsTell(s, i, HandleSignals(s, i))
  {
  }

  // ------------------------------------------------------------ timer tick

  /** All that waits at the five levels, level by level. */
  function AllLevels(s: KState): seq<nat>
    requires Shaped(s)
  {
    s.queues[1] + s.queues[2] + s.queues[3] + s.queues[4] + s.queues[5]
  }

  /** Under the feedback queues every 300th tick brings everybody back to level 0. */
  ghost predicate Boosts(s: KState) {
    s.algorithm == MLFQ && s.ticks + 1 >= 300
  }

  /** The current process has used up its slice, and nothing keeps it from being preempted. */
  predicate UsedUp(s: KState)
    requires Shaped(s)
  {
    s.procs[s.current].counter <= 1 && s.procs[s.current].preemptDisabled <= 0
  }

  /**
   The tick is counted for the current process, which has `left` ticks of its slice then.
   Under the feedback queues a boost may come due, and a process that has used up its
   slice goes down by one of the five levels.
   */
  ghost predicate TickCounted(s: KState, v: KState, left: int)
    requires Shaped(s)
  {
    var p := s.procs[s.current];
    && v.current == s.current && v.algorithm == s.algorithm && |v.procs| == |s.procs| && OthersSame(s, v, s.current)
    && v.procs[s.current] == p.(counter := left, burstTicks := p.burstTicks + 1)
    && v.ticks == (if s.algorithm != MLFQ then s.ticks else if Boosts(s) then 0 else s.ticks + 1)
    && v.queues == (if Boosts(s) then [s.queues[0], AllLevels(s), [], [], [], []] else s.queues)
    && |v.level| == 64
    && forall i :: 0 <= i < 64 ==>
         var level := if Boosts(s) then 0 else s.level[i];
         v.level[i] == if s.algorithm == MLFQ && i == s.current && i != 0 && p.counter <= 1 && p.preemptDisabled == 0
                          && level < 4
                       then level + 1 else level
  }

  /**
   A timer tick. Under Round Robin, the lottery, priority aging and the two multilevel
   policies it ends in a decision when the slice is used up; first-come-first-served and
   shortest-job-first never take the CPU away.
   */
  ghost predicate TickTells(s: KState, draws: seq<nat>, v: KState)
    requires Shaped(s)
  {
    if !UsedUp(s) then TickCounted(s, v, s.procs[s.current].counter - 1)
    else if s.algorithm in {FCFS, SJF} then TickCounted(s, v, 0)
    else
      exists w :: TickCounted(s, w, 0) && Decides(w, draws, v)
  }

  /** A decision of the policy. */
  ghost predicate Decides(w: KState, draws: seq<nat>, v: KState) {
    && Shaped(w) && PositivePriorities(w.procs) && |w.queues[READY_QUEUE]| < |draws|
    && v == Pick(w, draws)
  }

  lemma CountEffect(s: KState)
    requires Shaped(s)
    ensures TickCounted(s, CountTick(s), s.procs[s.current].counter - 1)
  {
  }

  lemma TickEffect(s: KState, draws: seq<nat>)
    requires Shaped(s) && PositivePriorities(s.procs) && Room(s, draws)
    ensures TickTells(s, draws, Tick(s, draws))
  {
    hide CountTick, Pick, AllLevels;
    var v := CountTick(s);
    CountEffect(s);
    if UsedUp(s) {
      var w := WithProc(v, v.current, v.procs[v.current].(counter := 0));
      assert TickCounted(s, w, 0);
      if s.algorithm !in {FCFS, SJF} {
        assert Decides(w, draws, Tick(s, draws));
      }
    }
  }

  // ------------------------------------------------------------- decisions

  /** The slice of each of the five levels, in ticks. */
  function LevelSlice(a: Algorithm, level: nat): int
    requires level < 5
  {
    if level == 0 then (if a == MLQ then 10 else 5)
    else if level == 1 then (if a == MLQ then 12 else 8)
    else if level == 2 then (if a == MLQ then 14 else 10)
    else if level == 3 then (if a == MLQ then 16 else 15)
    else 20
  }

  /**
   The slice of the process that is chosen while the queues are those of `b`: ten ticks
   under Round Robin and the lottery, that of its level under the multilevel policies; the
   others hand out none.
   */
  ghost predicate SliceTells(b: KState, chosen: nat, counter: int) {
    match b.algorithm
    case ROUND_ROBIN => counter == 10
    case LOTTERY => counter == 10
    case PRIORITY_AGING => counter > 0
    case FCFS => chosen < |b.procs| && counter == b.procs[chosen].counter
    case SJF => chosen < |b.procs| && counter == b.procs[chosen].counter
    case MLQ => exists l :: 0 <= l < 5 && ChosenAt(b, l, chosen, counter)
    case MLFQ => exists l :: 0 <= l < 5 && ChosenAt(b, l, chosen, counter)
  }

  ghost predicate ChosenAt(b: KState, l: nat, chosen: nat, counter: int)
    requires l < 5
  {
    l + 1 < |b.queues| && chosen in b.queues[l + 1] && counter == LevelSlice(b.algorithm, l)
  }

  lemma {:induction false} LevelSliceEffect(b: KState, l: nat)
    requires Shaped(b) && l <= ML_MAX_LEVELS && b.algorithm.Multilevel()
    ensures var (v, i) := SelectMultilevel(b, l);
            i != INIT ==> exists k :: l <= k < 5 && ChosenAt(b, k, i, v.procs[i].counter)
    decreases ML_MAX_LEVELS - l
  {
    hide FirstSurvivor;
    if l < ML_MAX_LEVELS {
      var (v, i) := TakeReady(b, l + 1);
      if i != INIT {
        assert ChosenAt(b, l, i, Recharged(v, i, Quantum(b.algorithm, l)).procs[i].counter);
      } else {
        LevelSliceEffect(v, l + 1);
        var (w, j) := SelectMultilevel(v, l + 1);
        if j != INIT {
          var k :| l + 1 <= k < 5 && ChosenAt(v, k, j, w.procs[j].counter);
          assert ChosenAt(b, k, j, w.procs[j].counter);
        }
      }
    }
  }

  lemma {:induction false} LotterySliceEffect(b: KState, draws: seq<nat>)
    requires Shaped(b) && |b.queues[READY_QUEUE]| <= |draws|
    ensures var (v, i) := SelectLottery(b, draws); i != INIT ==> v.procs[i].counter == 10
    decreases |draws|
  {
    hide TotalTickets, Winner, Delivered;
    if b.queues[READY_QUEUE] != [] {
      var q := b.queues[READY_QUEUE];
      var j := Winner(b.procs, q, draws[0] % TotalTickets(b.procs, q));
      if !Survives(b.procs[q[j]]) {
        var u := Unlink(b, READY_QUEUE, j).0;
        LotterySliceEffect(u.(procs := Delivered(u.procs, [q[j]])), draws[1..]);
      }
    }
  }

  lemma {:induction false} AgingSliceEffect(b: KState)
    requires Shaped(b) && PositivePriorities(b.procs)
    ensures var (v, i) := SelectAging(b); i != INIT ==> v.procs[i].counter > 0
    decreases |b.queues[READY_QUEUE]|, Deficit(b)
  {
    hide Swept, Best, PositivePriorities, Epoch, Deficit;
    var v := Swept(b);
    var q := v.queues[READY_QUEUE];
    if Best(v.procs, q, |q|) == |q| && q != [] {
      EpochRaises(b);
      AgingSliceEffect(Epoch(v));
    }
  }

  lemma SelectEffect(b: KState, draws: seq<nat>)
    requires Shaped(b) && PositivePriorities(b.procs) && |b.queues[READY_QUEUE]| <= |draws|
    ensures var (v, i) := Select(b, draws); i != INIT ==> SliceTells(b, i, v.procs[i].counter)
  {
    hide SelectMultilevel, SelectLottery, SelectAging, PositivePriorities, ChosenAt, FirstSurvivor;
    match b.algorithm
    case ROUND_ROBIN =>
    case LOTTERY => LotterySliceEffect(b, draws);
    case PRIORITY_AGING => AgingSliceEffect(b);
    case MLQ => LevelSliceEffect(b, 0);
    case MLFQ => LevelSliceEffect(b, 0);
    case FCFS =>
    case SJF =>
  }

  /** A decision hands the CPU to the process it chooses from the queues, its slice to it, or idles. */
  ghost predicate PickTells(s: KState, v: KState)
    requires Shaped(s)
  {
    var b := Park(AddPreempt(s, s.current, 1));
    v.current < |v.procs| && v.procs[v.current].state == RUNNING
    && (v.current != 0 ==> SliceTells(b, v.current, v.procs[v.current].counter))
  }

  lemma PickEffect(s: KState, draws: seq<nat>)
    requires Shaped(s) && PositivePriorities(s.procs) && |s.queues[READY_QUEUE]| < |draws|
    ensures PickTells(s, Pick(s, draws))
  {
    hide Select, Park, SliceTells;
    var b := Park(AddPreempt(s, s.current, 1));
    assert PositivePriorities(b.procs);
    SelectEffect(b, draws);
  }

  /** A new epoch halves what is left of every slice, rounding down, and adds the priority. */
  ghost predicate EpochTells(s: KState, v: KState) {
    && v == s.(procs := v.procs) && |v.procs| == |s.procs|
    && forall i :: 0 <= i < |s.procs| ==>
         var c := v.procs[i].counter - s.procs[i].priority;
         v.procs[i] == s.procs[i].(counter := v.procs[i].counter) && 2 * c <= s.procs[i].counter <= 2 * c + 1
  }

  lemma EpochEffect(s: KState)
    requires Shaped(s)
    ensures EpochTells(s, Epoch(s))
  {
  }

  // ---------------------------------------------------- leaving the CPU

  /** Half of a sum, rounded towards zero. */
  predicate HalfOf(sum: int, half: int) {
    if sum >= 0 then 2 * half <= sum <= 2 * half + 1 else 2 * half - 1 <= sum <= 2 * half
  }

  /** The slice is given up; the estimate of a process that blocks or ends is averaged with its burst. */
  predicate GivenUp(p: Proc, r: Proc) {
    if p.state in {RUNNING, READY} then r == p.(counter := 0)
    else r == p.(counter := 0, burstTicks := 0, estBurst := r.estBurst) && HalfOf(p.estBurst + p.burstTicks, r.estBurst)
  }

  ghost predicate BurstTells(s: KState, w: KState)
    requires Shaped(s)
  {
    && w == s.(procs := w.procs) && |w.procs| == |s.procs| && OthersSame(s, w, s.current)
    && (s.current != 0 ==> GivenUp(s.procs[s.current], w.procs[s.current]))
    && (s.current == 0 ==> w.procs[0] == s.procs[0].(counter := 0))
  }

  /** `schedule`: the burst ends, and a decision follows. */
  ghost predicate ScheduleTells(s: KState, draws: seq<nat>, v: KState)
    requires Shaped(s)
  {
    exists w :: BurstTells(s, w) && Decides(w, draws, v)
  }

  lemma ScheduleEffect(s: KState, draws: seq<nat>)
    requires Shaped(s) && PositivePriorities(s.procs) && |s.queues[READY_QUEUE]| < |draws|
    ensures ScheduleTells(s, draws, Schedule(s, draws))
  {
    hide Pick;
    assert BurstTells(s, Rest(s));
    assert Decides(Rest(s), draws, Schedule(s, draws));
  }

  /** The end of process `i`, and what it means to a process that may wait for it. */
  predicate Ended(i: nat, j: nat, p: Proc, r: Proc) {
    if j == i then r == p.(state := ZOMBIE)
    else if p.state == WAITING_ANOTHER_PROCESS && p.pidToWait == i then r == p.(state := READY, pidToWait := -1)
    else r == p
  }

  ghost predicate EndTells(s: KState, u: KState)
    requires Shaped(s)
  {
    && Shaped(u) && u == s.(procs := u.procs, queues := u.queues) && |u.procs| == |s.procs|
    && forall j :: 0 <= j < |s.procs| ==> Ended(s.current, j, s.procs[j], u.procs[j])
  }

  /** `exit_process`: exactly those who wait for the process are woken, and it never runs again. */
  ghost predicate ExitTells(s: KState, draws: seq<nat>, v: KState)
    requires Shaped(s)
  {
    exists u :: EndTells(s, u) && ScheduleTells(u, draws, v)
  }

  lemma {:induction false} WakeEffect(s: KState, target: nat, i: nat)
    requires Shaped(s) && i <= |s.procs|
    ensures var u := WakeWaiters(s, target, i);
            && u == s.(procs := u.procs, queues := u.queues) && |u.procs| == |s.procs|
            && forall j :: 0 <= j < |s.procs| ==>
                 u.procs[j] == if j >= i && Waits(s.procs[j], target) then s.procs[j].(state := READY, pidToWait := -1)
                               else s.procs[j]
    decreases |s.procs| - i
  {
    hide QueueOf, PlaceOf;
    if i < |s.procs| {
      if Waits(s.procs[i], target) {
        WakeEffect(Enqueue(WithProc(s, i, s.procs[i].(state := READY, pidToWait := -1)), i), target, i + 1);
      } else {
        WakeEffect(s, target, i + 1);
      }
    }
  }

  lemma ExitEffect(s: KState, draws: seq<nat>)
    requires Shaped(s) && PositivePriorities(s.procs) && Room(s, draws)
    ensures ExitTells(s, draws, Exit(s, draws))
  {
    hide WakeWaiters, Schedule, ScheduleTells;
    var z := WithState(s, s.current, ZOMBIE);
    var u := WakeWaiters(z, s.current, 0);
    WakeEffect(z, s.current, 0);
    assert PositivePriorities(u.procs);
    ScheduleEffect(u, draws);
    assert EndTells(s, u);
  }

  /** `wait`: refused for a process that does not exist, without effect for one that has ended. */
  ghost predicate WaitTells(s: KState, pid: int, draws: seq<nat>, v: KState, r: int)
    requires Shaped(s)
  {
    if pid < 0 || pid >= |s.procs| then r == -1 && v == s
    else if s.procs[pid].state == ZOMBIE then r == 0 && v == s
    else r == 0 && exists u :: WaitStarted(s, pid, u) && ScheduleTells(u, draws, v)
  }

  ghost predicate WaitStarted(s: KState, pid: nat, u: KState)
    requires Shaped(s)
  {
    && Shaped(u) && u == s.(procs := u.procs) && |u.procs| == |s.procs| && OthersSame(s, u, s.current)
    && u.procs[s.current] == s.procs[s.current].(state := WAITING_ANOTHER_PROCESS, pidToWait := pid)
  }

  lemma WaitEffect(s: KState, pid: int, draws: seq<nat>)
    requires Shaped(s) && PositivePriorities(s.procs) && Room(s, draws)
    ensures var (v, r) := Wait(s, pid, draws); WaitTells(s, pid, draws, v, r)
  {
    hide Schedule, ScheduleTells;
    if 0 <= pid < |s.procs| && s.procs[pid].state != ZOMBIE {
      var u := WithProc(s, s.current, s.procs[s.current].(state := WAITING_ANOTHER_PROCESS, pidToWait := pid));
      ScheduleEffect(u, draws);
      assert WaitStarted(s, pid, u);
    }
  }
}
