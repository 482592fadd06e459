/**
 The loops of `libs/scheduler.c` step by step: what has been done to the state when a
 loop has dealt with part of its queue, and that the last step is what the function of
 the whole operation in `SchedulerState` says.
 */
module SchedulerLoops {
  import opened SchedulerState
  import opened SchedulerQueues
  import opened SchedulerRuns
  import opened ReadyQueues

  lemma AppendedPids(items: seq<PCB>, p: PCB)
    ensures Pids(items + [p]) == InsertAt(Pids(items), |items|, p.pid)
  {
  }

  lemma InsertedPids(items: seq<PCB>, j: nat, p: PCB)
    requires j <= |items|
    ensures Pids(items[..j] + [p] + items[j..]) == InsertAt(Pids(items), j, p.pid)
  {
  }

  lemma InsertedMembers(items: seq<PCB>, j: nat, p: PCB)
    requires j <= |items|
    ensures forall x :: x in items[..j] + [p] + items[j..] ==> x in items || x == p
  {
  }

  lemma RemovedPids(items: seq<PCB>, j: nat)
    requires j < |items|
    ensures Pids(items[..j] + items[j + 1..]) == RemoveAt(Pids(items), j)
    ensures j == 0 ==> Pids(items[1..]) == RemoveAt(Pids(items), j) == Pids(items)[1..]
  {
  }

  lemma RemovedMembers(items: seq<PCB>, j: nat)
    requires j < |items|
    ensures forall x :: x in items[..j] + items[j + 1..] ==> x in items
  {
  }

  /** The place of a sorted insertion is the first one with a longer process behind it. */
  lemma {:induction false} PlaceUnique(procs: seq<Proc>, q: seq<nat>, est: int, j: nat)
    requires InTable(procs, q) && j <= |q|
    requires forall k :: 0 <= k < j ==> procs[q[k]].estBurst <= est
    requires j < |q| ==> est < procs[q[j]].estBurst
    ensures SortedPlace(procs, q, est) == j
  {
    if j > 0 {
      PlaceUnique(procs, q[1..], est, j - 1);
    }
  }

  ghost predicate Nowhere(s: KState, i: nat) {
    forall k :: 0 <= k < |s.queues| ==> i !in s.queues[k]
  }

  // ------------------------------------------- the loop that takes a process

  /** The first `n` processes of a queue have been taken off and their signals handled. */
  function Partly(s: KState, k: nat, n: nat): KState
    requires Shaped(s) && k < N_QUEUES && n <= |s.queues[k]|
  {
    WithQueue(s, k, s.queues[k][n..]).(procs := Delivered(s.procs, s.queues[k][..n]))
  }

  lemma PartlyNothing(s: KState, k: nat)
    requires Shaped(s) && k < N_QUEUES
    ensures Partly(s, k, 0) == s
  {
    assert Delivered(s.procs, s.queues[k][..0]) == s.procs;
    assert s.queues[k][0..] == s.queues[k];
  }

  /** The next process has been taken off, its signals are still to be handled. */
  function Turn(s: KState, k: nat, n: nat): KState
    requires Shaped(s) && k < N_QUEUES && n < |s.queues[k]|
  {
    WithQueue(Partly(s, k, n), k, s.queues[k][n + 1..])
  }

  lemma TurnComes(s: KState, k: nat, n: nat)
    requires Shaped(s) && k < N_QUEUES && n <= |s.queues[k]|
    ensures |Partly(s, k, n).queues| == N_QUEUES
    ensures Partly(s, k, n).queues[k] == [] <==> n == |s.queues[k]|
    ensures n < |s.queues[k]| ==>
              && Partly(s, k, n).queues[k][0] == s.queues[k][n]
              && WithQueue(Partly(s, k, n), k, Partly(s, k, n).queues[k][1..]) == Turn(s, k, n)
  {
    if n < |s.queues[k]| {
      assert s.queues[k][n..][1..] == s.queues[k][n + 1..];
    }
  }

  /** Handling the signals of the next process is one more step. */
  lemma PartlyStep(s: KState, k: nat, n: nat)
    requires Shaped(s) && k < N_QUEUES && n < |s.queues[k]| && Calm(s)
    ensures var q := s.queues[k];
            var v := Turn(s, k, n);
            && Shaped(v) && !Resumes(v.procs[q[n]]) && HandleSignals(v, q[n]) == Partly(s, k, n + 1)
            && (Partly(s, k, n + 1).procs[q[n]].state == READY <==> Survives(s.procs[q[n]]))
  {
    hide Linked, Signalled, Enqueue;
    var q := s.queues[k];
    var v := Turn(s, k, n);
    QueuedOnce(s, k);
    forall j | 0 <= j < n
      ensures q[j] != q[n]
    {
      OnceDistinct(q, j, n);
    }
    DeliveredNext(s.procs, q, n);
    assert IsReady(s, q[n]);
    assert v.procs[q[n]] == s.procs[q[n]];
    SignalledReady(s.procs[q[n]]);
  }

  /** None of the first `n` processes of the queue survives its signals. */
  ghost predicate NoneSurvives(s: KState, k: nat, n: nat)
    requires Shaped(s) && k < N_QUEUES && n <= |s.queues[k]|
  {
    forall j :: 0 <= j < n ==> !Survives(s.procs[s.queues[k][j]])
  }

  lemma NoneSurvivesYet(s: KState, k: nat)
    requires Shaped(s) && k < N_QUEUES
    ensures NoneSurvives(s, k, 0)
  {
  }

  lemma NoneSurvivesMore(s: KState, k: nat, n: nat)
    requires Shaped(s) && k < N_QUEUES && n < |s.queues[k]| && NoneSurvives(s, k, n)
             && !Survives(s.procs[s.queues[k][n]])
    ensures NoneSurvives(s, k, n + 1)
  {
  }

  lemma SignalledReady(p: Proc)
    requires p.state == READY
    ensures Signalled(p).state == READY <==> Survives(p)
  {
  }

  lemma DeliveredNext(procs: seq<Proc>, q: seq<nat>, n: nat)
    requires n < |q| && q[n] < |procs| && forall j :: 0 <= j < n ==> q[j] != q[n]
    ensures Delivered(procs, q[..n])[q[n]] == procs[q[n]]
    ensures Delivered(procs, q[..n + 1]) == Delivered(procs, q[..n])[q[n] := Signalled(procs[q[n]])]
  {
    hide Signalled;
    assert q[..n + 1] == q[..n] + [q[n]];
  }

  lemma PartlyTaken(s: KState, k: nat, n: nat)
    requires Shaped(s) && k < N_QUEUES && n <= |s.queues[k]|
    requires NoneSurvives(s, k, n)
    requires n < |s.queues[k]| ==> Survives(s.procs[s.queues[k][n]])
    ensures n < |s.queues[k]| ==> TakeReady(s, k) == (Partly(s, k, n + 1), s.queues[k][n])
    ensures n == |s.queues[k]| ==> TakeReady(s, k) == (Partly(s, k, n), INIT)
  {
    hide Survives, Delivered;
    assert s.queues[k][..|s.queues[k]|] == s.queues[k] && s.queues[k][|s.queues[k]|..] == [];
    FirstSurvivorIs(s.procs, s.queues[k], n);
  }

  lemma {:induction false} FirstSurvivorIs(procs: seq<Proc>, q: seq<nat>, d: nat)
    requires InTable(procs, q) && d <= |q|
    requires forall j :: 0 <= j < d ==> !Survives(procs[q[j]])
    requires d < |q| ==> Survives(procs[q[d]])
    ensures FirstSurvivor(procs, q) == d
  {
    if d > 0 {
      FirstSurvivorIs(procs, q[1..], d - 1);
    }
  }

  // ----------------------------------------------------------- decisions

  /** Nothing has been taken off the queues. */
  ghost predicate Calm(s: KState) {
    Shaped(s) && Linked(s, INIT) && Placed(s)
  }

  lemma CalmLevel(s: KState, l: nat)
    requires Shaped(s) && Calm(s) && s.algorithm.Multilevel() && l < ML_MAX_LEVELS
    ensures var (v, i) := TakeReady(s, l + 1);
            && (i == INIT ==>
                Calm(v) && v.algorithm == s.algorithm && SelectMultilevel(s, l) == SelectMultilevel(v, l + 1))
            && (i != INIT ==> SelectMultilevel(s, l) == (Recharged(v, i, Quantum(s.algorithm, l)), i))
  {
    hide Linked, Placed, TakeReady, Quantum;
    TakeReadyLinks(s, l + 1);
  }

  lemma LevelsEnd(s: KState)
    requires Shaped(s)
    ensures SelectMultilevel(s, ML_MAX_LEVELS) == (s, INIT)
  {
  }

  lemma LotteryEnd(s: KState, draws: seq<nat>)
    requires Shaped(s) && s.queues[READY_QUEUE] == []
    ensures SelectLottery(s, draws) == (s, INIT)
  {
  }

  /** The state in which the selection is made. */
  ghost function Parked(s: KState): (b: KState)
    requires Consistent(s)
    ensures Shaped(b) && Calm(b) && PositivePriorities(b.procs)
    ensures |b.queues[READY_QUEUE]| <= |s.queues[READY_QUEUE]| + 1 && b.algorithm == s.algorithm
  {
    ParkedLinks(s);
    Park(AddPreempt(s, s.current, 1))
  }

  /** The state after a selection: `r.1` has the CPU. */
  function Finish(r: (KState, nat)): KState
    requires Shaped(r.0) && r.1 < |r.0.procs|
  {
    AddPreempt(SwitchTo(r.0, r.1), r.1, -1)
  }

  lemma ParkedLinks(s: KState)
    requires Consistent(s)
    ensures var b := Park(AddPreempt(s, s.current, 1));
            && Shaped(b) && Linked(b, INIT) && Placed(b) && PositivePriorities(b.procs)
            && |b.queues[READY_QUEUE]| <= |s.queues[READY_QUEUE]| + 1 && b.algorithm == s.algorithm
  {
    hide Linked, Park, Placed;
    PreemptKeeps(s, s.current, 1);
    ParkLinks(AddPreempt(s, s.current, 1));
    var b := Park(AddPreempt(s, s.current, 1));
    assert forall i :: 0 <= i < |b.procs| ==> Sane(b.procs[i]);
  }

  /** The current process is in no queue. */
  lemma CurrentUnlinked(s: KState)
    requires Consistent(s) && s.current != INIT
    ensures Nowhere(s, s.current)
  {
    forall k | 0 <= k < N_QUEUES
      ensures s.current !in s.queues[k]
    {
      QueuedOnce(s, k);
    }
  }

  /** The holder of a ticket has been taken off the queue. */
  function Drawn(s: KState, j: nat): (u: KState)
    requires Shaped(s) && j < |s.queues[READY_QUEUE]|
    ensures Shaped(u)
  {
    Unlink(s, READY_QUEUE, j).0
  }

  lemma DrawnIs(s: KState, j: nat)
    requires Shaped(s) && j < |s.queues[READY_QUEUE]|
    ensures Drawn(s, j) == WithQueue(s, READY_QUEUE, RemoveAt(s.queues[READY_QUEUE], j))
  {
  }

  /** One draw of the lottery: the winner is taken off the queue and its signals are handled. */
  lemma LotteryTurn(s: KState, j: nat, draws: seq<nat>)
    requires Shaped(s) && Calm(s) && !s.algorithm.Multilevel()
    requires 0 < |s.queues[READY_QUEUE]| <= |draws| && j < |s.queues[READY_QUEUE]|
    requires j == Winner(s.procs, s.queues[READY_QUEUE], draws[0] % TotalTickets(s.procs, s.queues[READY_QUEUE]))
    ensures var i, u := s.queues[READY_QUEUE][j], Drawn(s, j);
            && !Resumes(u.procs[i]) && i != INIT
            && var w := HandleSignals(u, i);
               && Shaped(w) && i < |w.procs| && w.algorithm == s.algorithm
               && |w.queues[READY_QUEUE]| == |s.queues[READY_QUEUE]| - 1
               && (w.procs[i].state == READY ==> SelectLottery(s, draws) == (Recharged(w, i, ROUND_ROBIN_QUANTUM), i))
               && (w.procs[i].state != READY ==> Calm(w) && SelectLottery(s, draws) == SelectLottery(w, draws[1..]))
  {
    hide Linked, Links, Winner, TotalTickets, Signalled, Enqueue, Placed;
    var (u, i) := Unlink(s, READY_QUEUE, j);
    UnlinkLinks(s, READY_QUEUE, j);
    DeliveredOne(u.procs, i);
    SignalledReady(u.procs[i]);
    var w := HandleSignals(u, i);
    DroppedLinks(s, u, i, w);
    PlacedShorter(s, w);
  }

  lemma WithQueueIs(s: KState, k: nat, q: seq<nat>)
    requires k < |s.queues|
    ensures WithQueue(s, k, q) == s.(queues := s.queues[k := q])
  {
  }

  /** Queues that only get shorter stay in their places. */
  lemma PlacedShorter(s: KState, v: KState)
    requires |s.queues| == |v.queues| == N_QUEUES && Placed(s)
    requires v.algorithm == s.algorithm && forall k :: 0 <= k < N_QUEUES ==> |v.queues[k]| <= |s.queues[k]|
    ensures Placed(v)
  {
  }

  lemma ReadyInTable(s: KState)
    requires Shaped(s)
    ensures InTable(s.procs, s.queues[READY_QUEUE])
  {
  }

  /** The first `k` processes hold `total` tickets. */
  ghost predicate Counted(procs: seq<Proc>, q: seq<nat>, k: nat, total: nat)
    requires InTable(procs, q) && k <= |q|
  {
    total + TotalTickets(procs, q[k..]) == TotalTickets(procs, q)
  }

  lemma CountStarts(procs: seq<Proc>, q: seq<nat>)
    requires InTable(procs, q)
    ensures Counted(procs, q, 0, 0)
  {
    assert q[0..] == q;
  }

  lemma CountsOn(procs: seq<Proc>, q: seq<nat>, k: nat, total: nat)
    requires InTable(procs, q) && k < |q| && Counted(procs, q, k, total)
    ensures Counted(procs, q, k + 1, total + Tickets(procs[q[k]]))
  {
    assert q[k..][0] == q[k] && q[k..][1..] == q[k + 1..];
  }

  lemma CountEnds(procs: seq<Proc>, q: seq<nat>, total: nat)
    requires InTable(procs, q) && Counted(procs, q, |q|, total)
    ensures total == TotalTickets(procs, q)
  {
  }

  /** The ticket walk has come to position `j` with `left` tickets to go. */
  ghost predicate Walks(procs: seq<Proc>, q: seq<nat>, winner: nat, j: nat, left: nat)
    requires InTable(procs, q) && winner < TotalTickets(procs, q)
  {
    && j < |q| && left < TotalTickets(procs, q[j..])
    && Winner(procs, q, winner) == j + Winner(procs, q[j..], left)
  }

  lemma WalkStarts(procs: seq<Proc>, q: seq<nat>, winner: nat)
    requires InTable(procs, q) && winner < TotalTickets(procs, q)
    ensures q != [] && Walks(procs, q, winner, 0, winner)
  {
    assert q[0..] == q;
  }

  lemma WalksOn(procs: seq<Proc>, q: seq<nat>, winner: nat, j: nat, left: nat)
    requires InTable(procs, q) && winner < TotalTickets(procs, q)
    requires Walks(procs, q, winner, j, left)
    ensures j < |q|
    ensures left < Tickets(procs[q[j]]) ==> Winner(procs, q, winner) == j
    ensures left >= Tickets(procs[q[j]]) ==> j + 1 < |q| && Walks(procs, q, winner, j + 1, left - Tickets(procs[q[j]]))
  {
    assert q[j..][0] == q[j] && q[j..][1..] == q[j + 1..];
  }

  lemma SomebodyHolds(s: KState)
    requires Shaped(s) && TotalTickets(s.procs, s.queues[READY_QUEUE]) > 0
    ensures s.queues[READY_QUEUE] != []
  {
  }

  lemma DeliveredOne(procs: seq<Proc>, i: nat)
    requires i < |procs|
    ensures Delivered(procs, [i]) == procs[i := Signalled(procs[i])]
  {
    hide Signalled;
  }

  // -------------------------------------------- the pass of priority aging

  /** The pass over the ready queue has dealt with its first `m` processes. */
  function PartSwept(s: KState, m: nat): (v: KState)
    requires Shaped(s) && m <= |s.queues[READY_QUEUE]|
    ensures Shaped(v)
  {
    var q := s.queues[READY_QUEUE];
    WithQueue(s, READY_QUEUE, Survivors(s.procs, q[..m]) + q[m..]).(procs := Delivered(s.procs, q[..m]))
  }

  function Kept(s: KState, m: nat): nat
    requires Shaped(s) && m <= |s.queues[READY_QUEUE]|
  {
    |Survivors(s.procs, s.queues[READY_QUEUE][..m])|
  }

  lemma SweepEnds(s: KState)
    requires Shaped(s)
    ensures PartSwept(s, 0) == s && Kept(s, 0) == 0
    ensures PartSwept(s, |s.queues[READY_QUEUE]|) == Swept(s)
    ensures Kept(s, |s.queues[READY_QUEUE]|) == |Swept(s).queues[READY_QUEUE]|
  {
    hide Survives;
    var q := s.queues[READY_QUEUE];
    assert q[..0] == [] && q[0..] == q && q[..|q|] == q && q[|q|..] == [];
    assert Delivered(s.procs, []) == s.procs;
    assert PartSwept(s, |q|).queues[READY_QUEUE] == Survivors(s.procs, q);
    assert PartSwept(s, 0).queues[READY_QUEUE] == q;
    SameState(PartSwept(s, 0), s);
    SameState(PartSwept(s, |q|), Swept(s));
  }

  lemma SameState(a: KState, b: KState)
    requires a.procs == b.procs && a.queues == b.queues && a.level == b.level
    requires a.ticks == b.ticks && a.current == b.current && a.algorithm == b.algorithm
    ensures a == b
  {
  }

  lemma {:induction false} SurvivorsAppend(procs: seq<Proc>, q: seq<nat>, x: nat)
    requires InTable(procs, q) && x < |procs|
    ensures Survivors(procs, q + [x]) == Survivors(procs, q) + if Survives(procs[x]) then [x] else []
  {
    hide Survives;
    if q == [] {
      assert ([] + [x])[1..] == [];
    } else {
      var h := if Survives(procs[q[0]]) then [q[0]] else [];
      SurvivorsAppend(procs, q[1..], x);
      assert (q + [x])[1..] == q[1..] + [x] && (q + [x])[0] == q[0];
      assert Survivors(procs, q + [x]) == h + Survivors(procs, q[1..] + [x]);
      assert Survivors(procs, q) == h + Survivors(procs, q[1..]);
    }
  }

  /** It stays in the queue if it survives its signals, and is unlinked if not. */
  lemma SweepStep(s: KState, m: nat)
    requires Shaped(s) && Calm(s) && m < |s.queues[READY_QUEUE]|
    ensures var v, i, c := PartSwept(s, m), s.queues[READY_QUEUE][m], Kept(s, m);
            && Kept(s, m) < |v.queues[READY_QUEUE]| && !Resumes(v.procs[i])
            && var w := HandleSignals(v, i);
               && w.queues == v.queues
               && (w.procs[i].state == READY ==> w == PartSwept(s, m + 1) && Kept(s, m + 1) == c + 1)
               && (w.procs[i].state != READY ==>
                     WithQueue(w, READY_QUEUE, RemoveAt(w.queues[READY_QUEUE], c)) == PartSwept(s, m + 1)
                       && Kept(s, m + 1) == c)
  {
    hide Linked, Signalled, Enqueue, Survivors, Survives, Placed;
    var q := s.queues[READY_QUEUE];
    QueuedOnce(s, READY_QUEUE);
    forall j | 0 <= j < m
      ensures q[j] != q[m]
    {
      OnceDistinct(q, j, m);
    }
    DeliveredNext(s.procs, q, m);
    assert q[..m + 1] == q[..m] + [q[m]];
    SurvivorsAppend(s.procs, q[..m], q[m]);
    assert IsReady(s, q[m]);
    SignalledReady(s.procs[q[m]]);
    SweptRest(Survivors(s.procs, q[..m]), q, m);
  }

  lemma SweptRest(kept: seq<nat>, q: seq<nat>, m: nat)
    requires m < |q|
    ensures RemoveAt(kept + q[m..], |kept|) == kept + q[m + 1..]
    ensures kept + [q[m]] + q[m + 1..] == kept + q[m..] && kept + [] == kept
  {
    assert q[m..] == [q[m]] + q[m + 1..];
    assert (kept + q[m..])[..|kept|] == kept && (kept + q[m..])[|kept| + 1..] == q[m + 1..];
  }

  /** What `Best` finds, told by its properties. */
  lemma {:induction false} BestIs(procs: seq<Proc>, q: seq<nat>, n: nat, j: nat)
    requires n <= |q| && forall k :: 0 <= k < |q| ==> q[k] < |procs|
    requires j < n || j == |q|
    requires j == |q| ==> forall k :: 0 <= k < n ==> procs[q[k]].counter <= 0
    requires j < |q| ==> procs[q[j]].counter > 0
    requires j < |q| ==> forall k :: 0 <= k < n ==> procs[q[k]].counter <= procs[q[j]].counter
    requires j < |q| ==> forall k :: 0 <= k < j ==> procs[q[k]].counter < procs[q[j]].counter
    ensures Best(procs, q, n) == j
  {
  }

  function KeptList(s: KState, m: nat): seq<nat>
    requires Shaped(s) && m <= |s.queues[READY_QUEUE]|
  {
    Survivors(s.procs, s.queues[READY_QUEUE][..m])
  }

  lemma KeptGrows(s: KState, m: nat)
    requires Shaped(s) && m < |s.queues[READY_QUEUE]|
    ensures KeptList(s, m + 1)
            == KeptList(s, m)
               + if Survives(s.procs[s.queues[READY_QUEUE][m]]) then [s.queues[READY_QUEUE][m]] else []
  {
    hide Survives;
    var q := s.queues[READY_QUEUE];
    assert q[..m + 1] == q[..m] + [q[m]];
    SurvivorsAppend(s.procs, q[..m], q[m]);
  }

  lemma KeptInTable(s: KState, m: nat)
    requires Shaped(s) && m <= |s.queues[READY_QUEUE]|
    ensures forall k :: 0 <= k < |KeptList(s, m)| ==> 0 < KeptList(s, m)[k] < |s.procs|
  {
    forall k | 0 <= k < |KeptList(s, m)|
      ensures 0 < KeptList(s, m)[k] < |s.procs|
    {
      assert KeptList(s, m)[k] in s.queues[READY_QUEUE][..m];
    }
  }

  /** `best` is the first of the largest positive counters among the processes kept so far; -1 when there is none. */
  ghost predicate Leads(s: KState, m: nat, best: int)
    requires Shaped(s) && m <= |s.queues[READY_QUEUE]|
  {
    KeptInTable(s, m);
    var kept := KeptList(s, m);
    && -1 <= best < |kept|
    && (best < 0 ==> forall k :: 0 <= k < |kept| ==> s.procs[kept[k]].counter <= 0)
    && (best >= 0 ==> s.procs[kept[best]].counter > 0
                      && (forall k :: 0 <= k < |kept| ==> s.procs[kept[k]].counter <= s.procs[kept[best]].counter)
                      && (forall k :: 0 <= k < best ==> s.procs[kept[k]].counter < s.procs[kept[best]].counter))
  }

  function MaxCounter(s: KState, m: nat, best: int): int
    requires Shaped(s) && m <= |s.queues[READY_QUEUE]| && best < |KeptList(s, m)|
  {
    KeptInTable(s, m);
    if best < 0 then 0 else s.procs[KeptList(s, m)[best]].counter
  }

  lemma LeaderKept(s: KState, m: nat, best: int)
    requires Shaped(s) && m <= |s.queues[READY_QUEUE]| && Leads(s, m, best)
    ensures -1 <= best < |KeptList(s, m)|
  {
  }

  lemma LeadsOn(s: KState, m: nat, best: int)
    requires Shaped(s) && m < |s.queues[READY_QUEUE]| && Leads(s, m, best)
    ensures var i, c := s.queues[READY_QUEUE][m], |KeptList(s, m)|;
            && (!Survives(s.procs[i]) ==> KeptList(s, m + 1) == KeptList(s, m) && Leads(s, m + 1, best))
            && (Survives(s.procs[i]) ==>
                  && KeptList(s, m + 1) == KeptList(s, m) + [i]
                  && (s.procs[i].counter > MaxCounter(s, m, best) ==> Leads(s, m + 1, c))
                  && (s.procs[i].counter <= MaxCounter(s, m, best) ==> Leads(s, m + 1, best)))
  {
    hide KeptList, Survives;
    KeptGrows(s, m);
    KeptInTable(s, m);
    KeptInTable(s, m + 1);
  }

  /** Where the pass stands in the queue. */
  lemma SweepNext(s: KState, m: nat)
    requires Shaped(s) && m <= |s.queues[READY_QUEUE]|
    ensures var v, q, kept := PartSwept(s, m), s.queues[READY_QUEUE], KeptList(s, m);
            var r := v.queues[READY_QUEUE];
            && |kept| == Kept(s, m) <= |r| && |r| == |kept| + |q| - m
            && (forall k :: 0 <= k < |kept| ==> r[k] == kept[k])
            && (m < |q| ==> r[|kept|] == q[m] && (|kept| + 1 < |r| <==> m + 1 < |q|))
            && (m + 1 < |q| ==> r[|kept| + 1] == q[m + 1])
            && (forall x :: 0 <= x < |s.procs| ==> v.procs[x].counter == s.procs[x].counter)
  {
    hide Survivors;
  }

  /** At the end of the pass the leader is what `Best` finds. */
  lemma LeaderIsBest(s: KState, best: int)
    requires Shaped(s) && Leads(s, |s.queues[READY_QUEUE]|, best)
    ensures var r := Swept(s).queues[READY_QUEUE];
            && r == KeptList(s, |s.queues[READY_QUEUE]|) && -1 <= best < |r|
            && Best(Swept(s).procs, r, |r|) == if best < 0 then |r| else best
  {
    hide Survivors;
    SweptSame(s);
    var q := s.queues[READY_QUEUE];
    assert q[..|q|] == q;
    var r := Swept(s).queues[READY_QUEUE];
    KeptInTable(s, |q|);
    BestIs(Swept(s).procs, r, |r|, if best < 0 then |r| else best);
  }

  /** A pass from `s` to `v` that took the process `i` off the queue, or nobody when it is INIT. */
  ghost predicate Charged(s: KState, v: KState, i: nat)
    requires Shaped(s)
  {
    var w := Swept(s);
    var q := w.queues[READY_QUEUE];
    var j := Best(w.procs, q, |q|);
    && (i == INIT <==> j == |q|)
    && (i == INIT ==> v == w)
    && (i != INIT ==> i == q[j] && v == WithQueue(w, READY_QUEUE, RemoveAt(q, j)))
  }

  /** One round of the selection loop of priority aging. */
  lemma AgingTurn(s: KState, v: KState, i: nat)
    requires Shaped(s) && Calm(s) && PositivePriorities(s.procs) && Charged(s, v, i)
    ensures Shaped(v)
    ensures i != INIT ==> SelectAging(s) == (v, i)
    ensures i == INIT && v.queues[READY_QUEUE] == [] ==> SelectAging(s) == (v, INIT)
    ensures i == INIT && v.queues[READY_QUEUE] != [] ==>
              var e := Epoch(v);
              && SelectAging(s) == SelectAging(e) && Calm(e) && PositivePriorities(e.procs)
              && |e.queues[READY_QUEUE]| <= |s.queues[READY_QUEUE]|
              && (|e.queues[READY_QUEUE]| == |s.queues[READY_QUEUE]| ==> Deficit(e) < Deficit(s))
  {
    hide Linked, Placed, Swept, Epoch, Best, Deficit, PositivePriorities;
    SweptLinks(s);
    if i == INIT && v.queues[READY_QUEUE] != [] {
      EpochRaises(s);
      EpochLinks(v);
    }
  }

  lemma PickIs(s: KState, draws: seq<nat>)
    requires Consistent(s) && PositivePriorities(s.procs) && |s.queues[READY_QUEUE]| < |draws|
    ensures Pick(s, draws) == Finish(Select(Parked(s), draws))
  {
    hide Select, Park, SwitchTo, Consistent;
  }

  lemma RestConsistent(s: KState)
    requires Consistent(s)
    ensures Consistent(Rest(s)) && PositivePriorities(Rest(s).procs)
  {
    hide Linked, PositivePriorities, Halved;
    SaneAt(s, s.current);
    EndedSane(s.procs[s.current]);
    RecordKeeps(s, s.current, Rest(s).procs[s.current]);
    Priorities(Rest(s));
  }

  // ---------------------------------------------------------------- boost

  /** The first `n` processes of queue `k` have gone to the end of the queue of level 0. */
  function Lifted(s: KState, k: nat, n: nat): KState
    requires |s.queues| == N_QUEUES && 1 < k < N_QUEUES && n <= |s.queues[k]|
  {
    s.(queues := s.queues[k := s.queues[k][n..]][1 := s.queues[1] + s.queues[k][..n]])
  }

  lemma LiftEnds(s: KState, k: nat)
    requires |s.queues| == N_QUEUES && 1 < k < N_QUEUES
    ensures Lifted(s, k, 0) == s
    ensures Lifted(s, k, |s.queues[k]|).queues == s.queues[k := []][1 := s.queues[1] + s.queues[k]]
  {
    assert s.queues[1] + s.queues[k][..0] == s.queues[1] && s.queues[k][0..] == s.queues[k];
    assert s.queues[k][..|s.queues[k]|] == s.queues[k] && s.queues[k][|s.queues[k]|..] == [];
    assert Lifted(s, k, 0).queues == s.queues;
  }

  /** A process that has just been taken off queue `k` is nowhere else, and queueing it at level 0 is the next step. */
  lemma LiftStep(s: KState, k: nat, n: nat)
    requires Shaped(s) && Linked(s, INIT) && 1 < k < N_QUEUES && n < |s.queues[k]|
    ensures var v, i := Lifted(s, k, n), s.queues[k][n];
            && v.queues[k] != [] && v.queues[k][0] == i && i != INIT
            && var w := WithQueue(v, k, v.queues[k][1..]);
               Nowhere(w, i) && Insert(w, 1, |w.queues[1]|, i) == Lifted(s, k, n + 1)
  {
    hide Linked;
    var v, i := Lifted(s, k, n), s.queues[k][n];
    var w := WithQueue(v, k, v.queues[k][1..]);
    LinkedLists(s);
    QueuedOnce(s, k);
    assert IsReady(s, i);
    assert v.queues[k][1..] == s.queues[k][n + 1..];
    forall l | 0 <= l < N_QUEUES
      ensures i !in w.queues[l]
    {
      if l == k || l == 1 {
        assert i !in s.queues[k][n + 1..] && i !in s.queues[k][..n];
        assert i !in s.queues[1];
      } else {
        assert w.queues[l] == s.queues[l];
      }
    }
    assert s.queues[k][..n + 1] == s.queues[k][..n] + [i];
    assert InsertAt(w.queues[1], |w.queues[1]|, i) == s.queues[1] + s.queues[k][..n + 1];
    assert s.procs[i := s.procs[i].(state := READY)] == s.procs;
    SameState(Insert(w, 1, |w.queues[1]|, i), Lifted(s, k, n + 1));
  }

  lemma InsertLevel(s: KState, level: seq<nat>, j: nat, i: nat)
    requires 1 < |s.queues| && j <= |s.queues[1]| && i < |s.procs|
    ensures Insert(s.(level := level), 1, j, i) == Insert(s, 1, j, i).(level := level)
  {
  }

  /** Lifting a whole queue keeps every link. */
  lemma LiftLinks(s: KState, k: nat)
    requires |s.queues| == N_QUEUES && Linked(s, INIT) && 1 < k < N_QUEUES
    ensures Linked(Lifted(s, k, |s.queues[k]|), INIT)
  {
    LiftEnds(s, k);
    var v := Lifted(s, k, |s.queues[k]|);
    forall x: nat
      ensures LinkedOnce(v, INIT, x)
    {
      assert LinkedOnce(s, INIT, x);
      LinksUpdate(s.queues, k, [], x);
      LinksUpdate(s.queues[k := []], 1, s.queues[1] + s.queues[k], x);
      assert s.queues[k := []][1] == s.queues[1];
    }
  }

  /** Only the levels of the processes change. */
  lemma LevelLinks(s: KState, level: seq<nat>)
    requires Linked(s, INIT)
    ensures Linked(s.(level := level), INIT)
  {
    RelinkedSame(s, s.(level := level), INIT, INIT);
  }

  /** Queue by queue, every level ends up behind level 0. */
  function LiftedUpTo(s: KState, k: nat): KState
    requires |s.queues| == N_QUEUES && 2 <= k <= N_QUEUES
    decreases k
  {
    if k == 2 then s
    else
      var v := LiftedUpTo(s, k - 1);
      if |v.queues| == N_QUEUES then Lifted(v, k - 1, |v.queues[k - 1]|) else s
  }

  lemma LiftedNext(s: KState, k: nat)
    requires |s.queues| == N_QUEUES && 2 <= k < N_QUEUES && |LiftedUpTo(s, k).queues| == N_QUEUES
    ensures var v, w := LiftedUpTo(s, k), LiftedUpTo(s, k + 1);
            && w == v.(queues := w.queues) && |w.queues| == N_QUEUES
            && w.queues[1] == v.queues[1] + v.queues[k] && w.queues[k] == []
            && forall l :: 0 <= l < N_QUEUES && l != 1 && l != k ==> w.queues[l] == v.queues[l]
  {
    LiftEnds(LiftedUpTo(s, k), k);
  }

  function Joined(q: seq<seq<nat>>, k: nat): seq<nat>
    requires 2 <= k <= |q|
  {
    if k == 2 then q[1] else Joined(q, k - 1) + q[k - 1]
  }

  lemma {:induction false} LiftedQueues(s: KState, k: nat)
    requires |s.queues| == N_QUEUES && 2 <= k <= N_QUEUES
    ensures var w, q := LiftedUpTo(s, k), s.queues;
            && w == s.(queues := w.queues) && |w.queues| == N_QUEUES
            && w.queues[0] == q[0] && w.queues[1] == Joined(q, k)
            && (forall l :: 2 <= l < k ==> w.queues[l] == [])
            && (forall l :: k <= l < N_QUEUES ==> w.queues[l] == q[l])
  {
    if k > 2 {
      LiftedQueues(s, k - 1);
      LiftedNext(s, k - 1);
    }
  }

  lemma LiftedAll(s: KState)
    requires Shaped(s)
    ensures LiftedUpTo(s, N_QUEUES) == Boosted(s).(level := s.level, ticks := s.ticks)
  {
    hide LiftedUpTo;
    LiftedQueues(s, N_QUEUES);
    assert Joined(s.queues, 3) == s.queues[1] + s.queues[2];
    assert Joined(s.queues, 4) == s.queues[1] + s.queues[2] + s.queues[3];
    assert LiftedUpTo(s, N_QUEUES).queues == Boosted(s).queues;
  }

  lemma BoostedIs(s: KState, v: KState)
    requires Shaped(s) && v == Boosted(s).(level := v.level, ticks := v.ticks)
    requires v.level == seq(N_PROCESSES, i => 0) && v.ticks == 0
    ensures v == Boosted(s)
  {
  }

  lemma {:induction false} LiftedLevel(s: KState, level: seq<nat>, k: nat)
    requires |s.queues| == N_QUEUES && 1 < k < N_QUEUES
    ensures Lifted(s.(level := level), k, |s.queues[k]|) == Lifted(s, k, |s.queues[k]|).(level := level)
  {
  }

  /** What the tick relies on before and after its bookkeeping. */
  lemma TickConsistent(s: KState)
    requires Invariant(s)
    ensures Linked(Account(s), INIT)
    ensures var v := CountTick(s);
            && v.current == s.current && v.algorithm == s.algorithm && |v.procs| == |s.procs|
            && v.procs[v.current].counter == s.procs[s.current].counter - 1
            && v.procs[v.current].preemptDisabled == s.procs[s.current].preemptDisabled
            && Consistent(Recharged(v, v.current, 0)) && PositivePriorities(Recharged(v, v.current, 0).procs)
            && |v.queues[READY_QUEUE]| == |s.queues[READY_QUEUE]|
  {
    hide Linked, Links, CountTick, PositivePriorities;
    var p := s.procs[s.current];
    SaneAt(s, s.current);
    RecordKeeps(s, s.current, p.(counter := p.counter - 1, burstTicks := p.burstTicks + 1));
    CountTickKeeps(s);
    var v := CountTick(s);
    SaneAt(v, v.current);
    RecordKeeps(v, v.current, v.procs[v.current].(counter := 0));
    Priorities(Recharged(v, v.current, 0));
  }

  /** One turn of the scan for waiting processes. */
  lemma WakeTurn(s: KState, target: nat, i: nat)
    requires Shaped(s) && Consistent(s) && i <= |s.procs| && s.procs[s.current].state == ZOMBIE
    ensures i == |s.procs| ==> WakeWaiters(s, target, i) == s
    ensures i < |s.procs| && !Waits(s.procs[i], target) ==> WakeWaiters(s, target, i) == WakeWaiters(s, target, i + 1)
    ensures i < |s.procs| && Waits(s.procs[i], target) ==>
              && Nowhere(s, i)
              && var v := Enqueue(WithProc(s, i, s.procs[i].(state := READY, pidToWait := -1)), i);
                 && Shaped(v) && Consistent(v) && |v.procs| == |s.procs| && v.current == s.current
                 && v.procs[v.current].state == ZOMBIE
                 && WakeWaiters(s, target, i) == WakeWaiters(v, target, i + 1)
  {
    hide Linked, Enqueue;
    if i < |s.procs| && Waits(s.procs[i], target) {
      SaneAt(s, i);
      WakeKeeps(s, i, s.procs[i].(state := READY, pidToWait := -1));
      Unlinked(s, i);
    }
  }

  /** A process that is not ready is in no queue. */
  lemma Unlinked(s: KState, i: nat)
    requires |s.queues| == N_QUEUES && Linked(s, INIT) && i < |s.procs| && s.procs[i].state != READY
    ensures Nowhere(s, i)
  {
    forall k | 0 <= k < N_QUEUES
      ensures i !in s.queues[k]
    {
      QueuedOnce(s, k);
    }
  }

  lemma LeaveConsistent(s: KState, p: Proc)
    requires Invariant(s) && s.current != INIT && p.state !in {READY, RUNNING, BOOTING}
    requires p == s.procs[s.current].(state := p.state, pidToWait := p.pidToWait)
    ensures var v := WithProc(s, s.current, p); Consistent(v) && PositivePriorities(v.procs)
  {
    hide Linked, PositivePriorities;
    SaneAt(s, s.current);
    LeavesKeeps(s, p);
    Priorities(WithProc(s, s.current, p));
  }

  lemma ExitConsistent(s: KState)
    requires Invariant(s) && s.current != INIT
    ensures var z := WithState(s, s.current, ZOMBIE);
            && AddPreempt(AddPreempt(s, s.current, 1), s.current, -1) == s
            && Consistent(z) && z.procs[z.current].state == ZOMBIE && z.current == s.current
            && Consistent(WakeWaiters(z, s.current, 0)) && PositivePriorities(WakeWaiters(z, s.current, 0).procs)
  {
    hide Linked, PositivePriorities, WakeWaiters;
    var z := WithState(s, s.current, ZOMBIE);
    LeaveConsistent(s, z.procs[s.current]);
    WakeWaitersKeeps(z, s.current, 0);
    Priorities(WakeWaiters(z, s.current, 0));
    assert s.procs[s.current := s.procs[s.current]] == s.procs;
  }
}
