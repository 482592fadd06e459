/**
 What every scheduling decision does to the queues: a process is ready exactly when
 it is linked once in one queue, whatever the algorithm, and a decision touches
 nothing of the processes that are not queued.
 */
module SchedulerQueues {
  import opened SchedulerState

  /** How often a queue links a process. */
  ghost function Occurs(q: seq<nat>, i: nat): nat {
    multiset(q)[i]
  }

  /** How often all the queues together link a process. */
  ghost function Links(queues: seq<seq<nat>>, i: nat): nat {
    if queues == [] then 0 else Occurs(queues[0], i) + Links(queues[1..], i)
  }

  lemma {:induction false} LinksUpdate(queues: seq<seq<nat>>, k: nat, q: seq<nat>, i: nat)
    requires k < |queues|
    ensures Links(queues[k := q], i) + Occurs(queues[k], i) == Links(queues, i) + Occurs(q, i)
  {
    hide Occurs;
    if k == 0 {
      assert queues[k := q][1..] == queues[1..];
    } else {
      LinksUpdate(queues[1..], k - 1, q, i);
      assert queues[k := q][1..] == queues[1..][k - 1 := q];
    }
  }

  lemma {:induction false} LinksContain(queues: seq<seq<nat>>, k: nat, i: nat)
    requires k < |queues|
    ensures Occurs(queues[k], i) <= Links(queues, i)
  {
    if k > 0 {
      LinksContain(queues[1..], k - 1, i);
    }
  }

  lemma {:induction false} LinksComeFrom(queues: seq<seq<nat>>, i: nat)
    ensures Links(queues, i) > 0 ==> Queued(queues, i)
  {
    if queues != [] {
      LinksComeFrom(queues[1..], i);
      if i in queues[0] {
        assert InQueue(queues, 0, i);
      } else if Links(queues[1..], i) > 0 {
        var k :| 0 <= k < |queues[1..]| && InQueue(queues[1..], k, i);
        assert InQueue(queues, k + 1, i);
      }
    }
  }

  ghost predicate InQueue(queues: seq<seq<nat>>, k: nat, i: nat)
    requires k < |queues|
  {
    i in queues[k]
  }

  ghost predicate Queued(queues: seq<seq<nat>>, i: nat) {
    exists k :: 0 <= k < |queues| && InQueue(queues, k, i)
  }

  ghost predicate IsReady(s: KState, i: nat) {
    0 < i < |s.procs| && s.procs[i].state == READY
  }

  /**
   Each ready process except `out`, which has just been taken off its queue, is
   linked exactly once, and nothing else is linked.
   */
  ghost predicate Linked(s: KState, out: nat) {
    forall i: nat :: LinkedOnce(s, out, i)
  }

  ghost predicate LinkedOnce(s: KState, out: nat, i: nat) {
    Links(s.queues, i) == if IsReady(s, i) && i != out then 1 else 0
  }

  /** Only the queues of the active algorithm are in use. */
  ghost predicate Placed(s: KState)
    requires |s.queues| == N_QUEUES
  {
    forall k :: 0 <= k < N_QUEUES && s.queues[k] != [] ==> (k != READY_QUEUE <==> s.algorithm.Multilevel())
  }

  /** `Linked` in terms of the lists: no list holds a process twice, no two share one, ready means queued. */
  lemma LinkedLists(s: KState)
    requires |s.queues| == N_QUEUES && Linked(s, INIT)
    ensures forall i: nat :: IsReady(s, i) <==> Queued(s.queues, i)
    ensures forall k, a, b :: 0 <= k < N_QUEUES && 0 <= a < b < |s.queues[k]| ==> s.queues[k][a] != s.queues[k][b]
    ensures forall k, l, i :: 0 <= k < l < N_QUEUES && i in s.queues[k] ==> i !in s.queues[l]
  {
    hide Links;
    forall i: nat
      ensures IsReady(s, i) <==> Queued(s.queues, i)
    {
      assert LinkedOnce(s, INIT, i);
      LinksComeFrom(s.queues, i);
      if Queued(s.queues, i) {
        var k :| 0 <= k < |s.queues| && InQueue(s.queues, k, i);
        LinksContain(s.queues, k, i);
      }
    }
    forall k, a, b | 0 <= k < N_QUEUES && 0 <= a < b < |s.queues[k]|
      ensures s.queues[k][a] != s.queues[k][b]
    {
      LinksContain(s.queues, k, s.queues[k][a]);
      assert LinkedOnce(s, INIT, s.queues[k][a]);
      OnceDistinct(s.queues[k], a, b);
    }
    forall k, l, i | 0 <= k < l < N_QUEUES && i in s.queues[k]
      ensures i !in s.queues[l]
    {
      assert LinkedOnce(s, INIT, i);
      LinksUpdate(s.queues, k, [], i);
      LinksContain(s.queues[k := []], l, i);
    }
  }

  lemma OnceDistinct(q: seq<nat>, a: nat, b: nat)
    requires a < b < |q| && Occurs(q, q[a]) <= 1
    ensures q[a] != q[b]
  {
    assert q == q[..b] + q[b..];
    assert q[a] in q[..b];
  }

  // ----------------------------------------------------------- insertion

  lemma InsertedOnce(q: seq<nat>, j: nat, i: nat, x: nat)
    requires j <= |q|
    ensures Occurs(InsertAt(q, j, i), x) == Occurs(q, x) + if x == i then 1 else 0
  {
    assert q == q[..j] + q[j..];
  }

  /** A process that no queue holds is linked once, where the algorithm wants it. */
  lemma EnqueueLinks(s: KState, i: nat)
    requires Shaped(s) && Linked(s, i) && Placed(s)
    requires 0 < i < |s.procs|
    ensures Shaped(Enqueue(s, i)) && Linked(Enqueue(s, i), INIT) && Placed(Enqueue(s, i))
    ensures Enqueue(s, i) == WithState(s, i, READY).(queues := Enqueue(s, i).queues)
  {
    hide Linked;
    EnqueueShape(s, i);
    InsertLinks(s, QueueOf(s, i), PlaceOf(s, i), i);
  }

  lemma EnqueueShape(s: KState, i: nat)
    requires Shaped(s) && Placed(s) && 0 < i < |s.procs|
    ensures Shaped(Enqueue(s, i)) && Placed(Enqueue(s, i))
    ensures Enqueue(s, i) == WithState(s, i, READY).(queues := Enqueue(s, i).queues)
  {
    hide SortedPlace;
  }

  lemma InsertLinks(s: KState, k: nat, j: nat, i: nat)
    requires |s.queues| == N_QUEUES && k < N_QUEUES && j <= |s.queues[k]| && 0 < i < |s.procs| && Linked(s, i)
    ensures Linked(Insert(s, k, j, i), INIT)
  {
    hide Links, Occurs, InsertAt;
    var v := Insert(s, k, j, i);
    forall x: nat
      ensures LinkedOnce(v, INIT, x)
    {
      assert LinkedOnce(s, i, x);
      InsertedOnce(s.queues[k], j, i, x);
      LinksUpdate(s.queues, k, InsertAt(s.queues[k], j, i), x);
    }
  }

  // ------------------------------------------------------------- removal

  /** The processes in `gone` leave queue `k`; of them only `out` is still ready. */
  lemma RemovalLinks(s: KState, k: nat, q: seq<nat>, gone: set<nat>, out: nat, v: KState)
    requires |s.queues| == N_QUEUES && k < N_QUEUES && Linked(s, INIT)
    requires v.queues == s.queues[k := q] && |v.procs| == |s.procs|
    requires forall x: nat :: Occurs(s.queues[k], x) == Occurs(q, x) + if x in gone then 1 else 0
    requires forall x: nat :: IsReady(v, x) <==> IsReady(s, x) && (x !in gone || x == out)
    requires out != INIT ==> out in gone
    ensures Linked(v, out)
  {
    hide Links, Occurs;
    forall x: nat
      ensures LinkedOnce(v, out, x)
    {
      LinksUpdate(s.queues, k, q, x);
      LinksContain(s.queues, k, x);
      assert LinkedOnce(s, INIT, x);
    }
  }

  /**
   What a decision may do to a record: the counter is recharged, and the signals
   of a ready process are handled.
   */
  ghost predicate Decided(p: Proc, q: Proc) {
    && q == p.(state := q.state, pending := q.pending, counter := q.counter)
    && ((q.state == p.state && q.pending == p.pending) ||
        (p.state == READY && q.state == Signalled(p).state && q.pending == Signalled(p).pending))
  }

  lemma DecidedTwice(p: Proc, q: Proc, r: Proc)
    requires Decided(p, q) && Decided(q, r)
    ensures Decided(p, r)
  {
  }

  ghost predicate AllDecided(s: KState, v: KState) {
    && v == s.(procs := v.procs, queues := v.queues)
    && |v.procs| == |s.procs|
    && (forall x :: 0 <= x < |s.procs| ==> Decided(s.procs[x], v.procs[x]))
    && (0 < |s.procs| ==> v.procs[INIT].state == s.procs[INIT].state)
  }

  lemma SamePolicy(s: KState, v: KState)
    requires AllDecided(s, v)
    ensures v.algorithm == s.algorithm
  {
  }

  /** Only the records count. */
  lemma DecidedQueues(s: KState, v: KState, w: KState)
    requires AllDecided(s, v) && w == v.(queues := w.queues)
    ensures AllDecided(s, w)
  {
  }

  lemma AllDecidedTwice(s: KState, v: KState, w: KState)
    requires AllDecided(s, v) && AllDecided(v, w)
    ensures AllDecided(s, w)
  {
    hide Decided;
    forall x | 0 <= x < |s.procs|
      ensures Decided(s.procs[x], w.procs[x])
    {
      DecidedTwice(s.procs[x], v.procs[x], w.procs[x]);
    }
  }

  /** The outcome of a selection: `i` is off the queues and ready, or it is INIT and there was nobody. */
  ghost predicate Selected(s: KState, v: KState, i: nat) {
    && AllDecided(s, v) && Shaped(v)
    && Linked(v, i) && Placed(v) && i < |v.procs|
    && (i != INIT ==> v.procs[i].state == READY)
    && (i == INIT ==> forall k :: 0 <= k < N_QUEUES ==> v.queues[k] == [])
  }

  lemma PrefixCount(q: seq<nat>, d: nat)
    requires d <= |q| && forall x: nat :: Occurs(q, x) <= 1
    ensures forall x: nat :: Occurs(q, x) == Occurs(q[d..], x) + if x in q[..d] then 1 else 0
  {
    forall x: nat
      ensures Occurs(q, x) == Occurs(q[d..], x) + if x in q[..d] then 1 else 0
    {
      assert q == q[..d] + q[d..];
      assert multiset(q)[x] == multiset(q[..d])[x] + multiset(q[d..])[x];
    }
  }

  lemma QueuedOnce(s: KState, k: nat)
    requires |s.queues| == N_QUEUES && k < N_QUEUES && Linked(s, INIT)
    ensures forall x: nat :: Occurs(s.queues[k], x) <= 1
    ensures forall x :: x in s.queues[k] ==> IsReady(s, x)
  {
    hide Links, IsReady;
    forall x: nat
      ensures Occurs(s.queues[k], x) <= if IsReady(s, x) then 1 else 0
    {
      LinksContain(s.queues, k, x);
      assert LinkedOnce(s, INIT, x);
    }
    forall x | x in s.queues[k]
      ensures IsReady(s, x)
    {
      assert Occurs(s.queues[k], x) > 0;
    }
  }

  lemma DeliveredDecided(s: KState, q: seq<nat>)
    requires forall x :: x in q ==> IsReady(s, x)
    ensures forall x :: 0 <= x < |s.procs| ==> Decided(s.procs[x], Delivered(s.procs, q)[x])
  {
  }

  /** The prefix that leaves the queue: dead or stopped processes and the one that is taken. */
  lemma TakenPrefix(s: KState, k: nat)
    requires Shaped(s) && Linked(s, INIT) && k < N_QUEUES
    ensures var (v, i) := TakeReady(s, k);
            var q := s.queues[k];
            var d := FirstSurvivor(s.procs, q);
            var n := if d == |q| then d else d + 1;
            && v.queues == s.queues[k := q[n..]] && v.procs == Delivered(s.procs, q[..n])
            && (forall x :: x in q[..n] ==> IsReady(s, x) && (Survives(s.procs[x]) <==> d < |q| && x == i))
  {
    hide Links, Linked, Signalled, Survives;
    var q := s.queues[k];
    var d := FirstSurvivor(s.procs, q);
    assert q[..|q|] == q && q[|q|..] == [];
    QueuedOnce(s, k);
    var n := if d == |q| then d else d + 1;
    forall x | x in q[..n]
      ensures IsReady(s, x) && (Survives(s.procs[x]) <==> d < |q| && x == TakeReady(s, k).1)
    {
      var m :| 0 <= m < n && q[m] == x;
      DistinctAt(q, m, d);
    }
  }

  /** Taking from the head of a queue keeps every list right; on a miss that queue is empty. */
  lemma TakeReadyLinks(s: KState, k: nat)
    requires Shaped(s) && Linked(s, INIT) && Placed(s) && k < N_QUEUES
    ensures var (v, i) := TakeReady(s, k);
            && AllDecided(s, v) && Linked(v, i) && Placed(v)
            && (i == INIT ==> v.queues == s.queues[k := []])
            && (i != INIT ==> v.procs[i].state == READY)
  {
    hide Occurs, Links, Linked, Decided, FirstSurvivor;
    var q := s.queues[k];
    var d := FirstSurvivor(s.procs, q);
    var (v, i) := TakeReady(s, k);
    var n := if d == |q| then d else d + 1;
    TakenPrefix(s, k);
    QueuedOnce(s, k);
    PrefixCount(q, n);
    DeliveredDecided(s, q[..n]);
    DeliveredReady(s, q[..n], v);
    RemovalLinks(s, k, q[n..], (set x | x in q[..n]), i, v);
  }

  /** Of the processes whose signals are handled, those that survive stay ready. */
  lemma DeliveredReady(s: KState, q: seq<nat>, v: KState)
    requires v.procs == Delivered(s.procs, q)
    requires forall x :: x in q ==> IsReady(s, x)
    ensures forall x: nat :: IsReady(v, x) <==> IsReady(s, x) && (x in q ==> Survives(s.procs[x]))
  {
  }

  lemma DistinctAt(q: seq<nat>, a: nat, b: nat)
    requires a < |q| && b <= |q| && forall x: nat :: Occurs(q, x) <= 1
    ensures b < |q| && a != b ==> q[a] != q[b]
  {
    if a < b < |q| {
      OnceDistinct(q, a, b);
    } else if b < a {
      OnceDistinct(q, b, a);
    }
  }

  // ---------------------------------------------------------- selections

  lemma RechargedDecided(s: KState, v: KState, i: nat, quantum: int)
    requires |v.queues| == N_QUEUES && Placed(v) && AllDecided(s, v) && Linked(v, i) && i < |v.procs|
    ensures AllDecided(s, Recharged(v, i, quantum)) && Linked(Recharged(v, i, quantum), i)
  {
    hide Links, Signalled;
    var w := Recharged(v, i, quantum);
    forall x: nat
      ensures LinkedOnce(w, i, x)
    {
      assert LinkedOnce(v, i, x);
    }
    assert Decided(v.procs[i], w.procs[i]);
    DecidedTwice(s.procs[i], v.procs[i], w.procs[i]);
  }

  /** The ready queue alone is in use, so a miss there means that nobody is ready. */
  lemma HeadLinks(s: KState)
    requires Shaped(s) && Linked(s, INIT) && Placed(s) && !s.algorithm.Multilevel()
    ensures var (v, i) := TakeReady(s, READY_QUEUE); Selected(s, v, i)
    ensures var (v, i) := SelectRoundRobin(s); Selected(s, v, i)
  {
    hide Linked, AllDecided, TakeReady;
    TakeReadyLinks(s, READY_QUEUE);
    var (v, i) := TakeReady(s, READY_QUEUE);
    if i != INIT {
      RechargedDecided(s, v, i, ROUND_ROBIN_QUANTUM);
    }
  }

  lemma {:induction false} MultilevelLinks(s: KState, l: nat)
    requires Shaped(s) && Linked(s, INIT) && Placed(s) && s.algorithm.Multilevel() && l <= ML_MAX_LEVELS
    requires forall k :: 1 <= k <= l ==> s.queues[k] == []
    ensures var (v, i) := SelectMultilevel(s, l); Selected(s, v, i)
    decreases ML_MAX_LEVELS - l
  {
    hide Linked, AllDecided, TakeReady, Quantum;
    if l == ML_MAX_LEVELS {
      NothingDecided(s);
    } else {
      TakeReadyLinks(s, l + 1);
      var (v, i) := TakeReady(s, l + 1);
      SamePolicy(s, v);
      if i != INIT {
        RechargedDecided(s, v, i, Quantum(s.algorithm, l));
      } else {
        MultilevelLinks(v, l + 1);
        var (w, j) := SelectMultilevel(v, l + 1);
        AllDecidedTwice(s, v, w);
      }
    }
  }

  lemma NothingDecided(s: KState)
    ensures AllDecided(s, s)
  {
  }

  lemma SameReady(s: KState, v: KState)
    requires v.procs == s.procs
    ensures forall x: nat :: IsReady(v, x) <==> IsReady(s, x)
  {
  }

  lemma ReadyIsUser(s: KState, i: nat)
    requires IsReady(s, i)
    ensures 0 < i < |s.procs| && s.procs[i].state == READY
  {
  }

  /** A process taken from the middle of a queue. */
  lemma UnlinkLinks(s: KState, k: nat, j: nat)
    requires Shaped(s) && Linked(s, INIT) && Placed(s) && k < N_QUEUES && j < |s.queues[k]|
    ensures var (v, i) := Unlink(s, k, j); Linked(v, i) && Placed(v) && IsReady(s, i) && i != INIT
  {
    hide Links, Linked, IsReady;
    var q := s.queues[k];
    var (v, i) := Unlink(s, k, j);
    QueuedOnce(s, k);
    forall x: nat
      ensures Occurs(q, x) == Occurs(RemoveAt(q, j), x) + if x in {i} then 1 else 0
    {
      RemovedOnce(q, j, x);
    }
    assert i in q;
    SameReady(s, v);
    RemovalLinks(s, k, RemoveAt(q, j), {i}, i, v);
    ReadyIsUser(s, i);
  }

  lemma RemovedOnce(q: seq<nat>, j: nat, x: nat)
    requires j < |q|
    ensures Occurs(q, x) == Occurs(RemoveAt(q, j), x) + if x == q[j] then 1 else 0
  {
    assert q == q[..j] + [q[j]] + q[j + 1..];
  }

  lemma {:induction false} LotteryLinks(s: KState, draws: seq<nat>)
    requires Shaped(s) && Linked(s, INIT) && Placed(s) && !s.algorithm.Multilevel()
    requires |s.queues[READY_QUEUE]| <= |draws|
    ensures var (v, i) := SelectLottery(s, draws); Selected(s, v, i)
    decreases |draws|
  {
    hide Linked, Links, Occurs, Winner, AllDecided, Signalled;
    var q := s.queues[READY_QUEUE];
    if q == [] {
      NothingDecided(s);
    } else {
      var j := Winner(s.procs, q, draws[0] % TotalTickets(s.procs, q));
      var (u, i) := Unlink(s, READY_QUEUE, j);
      UnlinkLinks(s, READY_QUEUE, j);
      var v := u.(procs := Delivered(u.procs, [i]));
      DroppedLinks(s, u, i, v);
      if Survives(s.procs[i]) {
        RechargedDecided(s, v, i, ROUND_ROBIN_QUANTUM);
      } else {
        LotteryLinks(v, draws[1..]);
        var (w, _) := SelectLottery(v, draws[1..]);
        AllDecidedTwice(s, v, w);
      }
    }
  }

  /** The signals of a process that has been unlinked are handled. */
  lemma DroppedLinks(s: KState, u: KState, i: nat, v: KState)
    requires u == s.(queues := u.queues) && Linked(u, i) && IsReady(s, i)
    requires v == u.(procs := Delivered(u.procs, [i]))
    ensures AllDecided(s, v) && Linked(v, if Survives(s.procs[i]) then i else INIT)
    ensures Survives(s.procs[i]) ==> v.procs[i].state == READY
  {
    hide Links;
    var out := if Survives(s.procs[i]) then i else INIT;
    forall x: nat
      ensures LinkedOnce(v, out, x)
    {
      assert LinkedOnce(u, i, x);
    }
    assert AllDecided(s, v) by {
      DeliveredDecided(s, [i]);
    }
  }

  // ------------------------------------------------------ aging selection

  lemma {:induction false} SurvivorsCount(procs: seq<Proc>, q: seq<nat>, x: nat)
    requires (forall k :: 0 <= k < |q| ==> q[k] < |procs|) && x < |procs|
    ensures Occurs(Survivors(procs, q), x) == if Survives(procs[x]) then Occurs(q, x) else 0
  {
    hide Survives;
    if q != [] {
      SurvivorsCount(procs, q[1..], x);
      assert q == [q[0]] + q[1..];
    }
  }

  lemma SweptLinks(s: KState)
    requires Shaped(s) && Linked(s, INIT) && Placed(s)
    ensures AllDecided(s, Swept(s)) && Linked(Swept(s), INIT) && Placed(Swept(s))
  {
    hide Links, Linked, Survivors, Signalled, Survives, Decided;
    var q := s.queues[READY_QUEUE];
    var v := Swept(s);
    QueuedOnce(s, READY_QUEUE);
    DeliveredDecided(s, q);
    DeliveredReady(s, q, v);
    var gone := set x | x in q && !Survives(s.procs[x]);
    forall x: nat
      ensures Occurs(q, x) == Occurs(Survivors(s.procs, q), x) + if x in gone then 1 else 0
    {
      if x < |s.procs| {
        SurvivorsCount(s.procs, q, x);
      } else if x in Survivors(s.procs, q) {
        SurvivorsFrom(s.procs, q, x);
      }
    }
    RemovalLinks(s, READY_QUEUE, Survivors(s.procs, q), gone, INIT, v);
  }

  lemma SurvivorsFrom(procs: seq<Proc>, q: seq<nat>, x: nat)
    requires forall k :: 0 <= k < |q| ==> q[k] < |procs|
    requires x in Survivors(procs, q)
    ensures x in q && x < |procs|
  {
    var k :| 0 <= k < |Survivors(procs, q)| && Survivors(procs, q)[k] == x;
    assert Survivors(procs, q)[k] in q;
  }

  lemma EpochLinks(s: KState)
    requires Shaped(s) && Linked(s, INIT) && Placed(s)
    ensures AllDecided(s, Epoch(s)) && Linked(Epoch(s), INIT) && Placed(Epoch(s))
  {
    hide Links, Signalled;
    forall x: nat
      ensures LinkedOnce(Epoch(s), INIT, x)
    {
      assert LinkedOnce(s, INIT, x);
    }
  }

  lemma {:induction false} AgingLinks(s: KState)
    requires Shaped(s) && PositivePriorities(s.procs)
    requires Linked(s, INIT) && Placed(s) && !s.algorithm.Multilevel()
    ensures var (v, i) := SelectAging(s); Selected(s, v, i)
    decreases |s.queues[READY_QUEUE]|, Deficit(s)
  {
    hide Linked, Swept, Epoch, Best, AllDecided, PositivePriorities, Deficit;
    SweptLinks(s);
    var v := Swept(s);
    var q := v.queues[READY_QUEUE];
    var j := Best(v.procs, q, |q|);
    SamePolicy(s, v);
    if j < |q| {
      UnlinkLinks(v, READY_QUEUE, j);
      var (w, i) := Unlink(v, READY_QUEUE, j);
      DecidedQueues(s, v, w);
    } else if q != [] {
      EpochRaises(s);
      EpochLinks(v);
      var e := Epoch(v);
      SamePolicy(v, e);
      AllDecidedTwice(s, v, e);
      AgingLinks(e);
      var (w, i) := SelectAging(e);
      AllDecidedTwice(s, e, w);
    }
  }

  /** Whatever the algorithm, the decision keeps every list right, and idles only when nobody is ready. */
  lemma SelectLinks(s: KState, draws: seq<nat>)
    requires Shaped(s) && PositivePriorities(s.procs) && |s.queues[READY_QUEUE]| <= |draws|
    requires Linked(s, INIT) && Placed(s)
    ensures var (v, i) := Select(s, draws); Selected(s, v, i)
  {
    hide Linked, Selected, SelectAging, SelectLottery, SelectRoundRobin, SelectMultilevel, TakeReady,
      PositivePriorities;
    match s.algorithm
    case ROUND_ROBIN => HeadLinks(s);
    case LOTTERY => LotteryLinks(s, draws);
    case PRIORITY_AGING => AgingLinks(s);
    case MLQ => MultilevelLinks(s, 0);
    case MLFQ => MultilevelLinks(s, 0);
    case FCFS => HeadLinks(s);
    case SJF => HeadLinks(s);
  }
}
