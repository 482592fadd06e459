/**
 The lottery of `libs/scheduler.c`: the draw gives every process exactly its share
 of the winning tickets, and the generator runs through nonzero states without
 ever merging two of them.
 */
module SchedulerLottery {
  import opened SchedulerState
  import opened SchedulerQueues
  import opened SchedulerRuns
  import opened SchedulerSafety
  import opened SchedulerFairness
  import opened SchedulerPriorities

  /** The tickets held before position `j` of the queue. */
  function Before(procs: seq<Proc>, q: seq<nat>, j: nat): (t: nat)
    requires InTable(procs, q) && j <= |q|
  {
    if j == 0 then 0 else Tickets(procs[q[0]]) + Before(procs, q[1..], j - 1)
  }

  /** The winner is the process whose interval of tickets holds the winning one. */
  lemma {:induction false} WinnerInterval(procs: seq<Proc>, q: seq<nat>, ticket: nat, j: nat)
    requires InTable(procs, q) && ticket < TotalTickets(procs, q) && j < |q|
    ensures Winner(procs, q, ticket) == j <==>
            Before(procs, q, j) <= ticket < Before(procs, q, j) + Tickets(procs[q[j]])
  {
    if ticket < Tickets(procs[q[0]]) {
      assert j > 0 ==> Before(procs, q, j) >= Tickets(procs[q[0]]);
    } else if j > 0 {
      WinnerInterval(procs, q[1..], ticket - Tickets(procs[q[0]]), j - 1);
    }
  }

  lemma {:induction false} IntervalInside(procs: seq<Proc>, q: seq<nat>, j: nat)
    requires InTable(procs, q) && j < |q|
    ensures Before(procs, q, j) + Tickets(procs[q[j]]) <= TotalTickets(procs, q)
  {
    if j > 0 {
      IntervalInside(procs, q[1..], j - 1);
    }
  }

  ghost predicate Wins(procs: seq<Proc>, q: seq<nat>, j: nat, ticket: nat)
    requires InTable(procs, q)
  {
    ticket < TotalTickets(procs, q) && Winner(procs, q, ticket) == j
  }

  ghost function Interval(from: nat, size: nat): set<nat> {
    if size == 0 then {} else Interval(from, size - 1) + {from + size - 1}
  }

  lemma {:induction false} IntervalSize(from: nat, size: nat)
    requires size > 0
    ensures |Interval(from, size)| == size
    ensures forall t: nat :: t in Interval(from, size) <==> from <= t < from + size
  {
    if size > 1 {
      IntervalSize(from, size - 1);
    }
  }

  /**
   Main result: of all the values the winning ticket can have, the process at each
   position wins with exactly as many as it holds tickets.
   */
  lemma ExactShare(procs: seq<Proc>, q: seq<nat>, j: nat, winning: set<nat>)
    requires InTable(procs, q) && j < |q|
    requires forall t: nat :: t in winning <==> Wins(procs, q, j, t)
    ensures |winning| == if procs[q[j]].tickets > 0 then procs[q[j]].tickets else 1
  {
    hide Winner, TotalTickets, Before;
    var from, size := Before(procs, q, j), Tickets(procs[q[j]]);
    IntervalSize(from, size);
    IntervalInside(procs, q, j);
    forall t: nat
      ensures t in winning <==> t in Interval(from, size)
    {
      if t < TotalTickets(procs, q) {
        WinnerInterval(procs, q, t, j);
      }
    }
    assert winning == Interval(from, size);
  }

  /** With at most 63 processes queued the total fits a signed 64-bit number. */
  lemma {:induction false} TotalFits(procs: seq<Proc>, q: seq<nat>)
    requires InTable(procs, q)
    requires forall k :: 0 <= k < |q| ==> procs[q[k]].tickets <= MAX_TICKETS
    ensures TotalTickets(procs, q) <= |q| * MAX_TICKETS
    ensures |q| <= 63 ==> TotalTickets(procs, q) < 0x8000_0000_0000_0000
  {
    if q != [] {
      TotalFits(procs, q[1..]);
      assert (|q| - 1) * MAX_TICKETS + MAX_TICKETS == |q| * MAX_TICKETS;
    }
  }

  lemma UndecidedFits(b: KState)
    requires Undecided(b, INIT)
    ensures InTable(b.procs, b.queues[READY_QUEUE])
    ensures TotalTickets(b.procs, b.queues[READY_QUEUE]) < 0x8000_0000_0000_0000
  {
    hide Linked;
    QueueBound(b, READY_QUEUE);
    forall k | 0 <= k < |b.queues[READY_QUEUE]|
      ensures b.procs[b.queues[READY_QUEUE][k]].tickets <= MAX_TICKETS
    {
      assert Sane(b.procs[b.queues[READY_QUEUE][k]]);
    }
    TotalFits(b.procs, b.queues[READY_QUEUE]);
  }

  /** In every run the tickets that a decision counts fit a signed 64-bit number. */
  lemma RunTotalFits(states: seq<KState>, events: seq<Event>, n: nat)
    requires Run(states, events) && n < |events|
    ensures Shaped(states[n])
    ensures Picks(states[n], events[n]) ==>
              && Shaped(Entry(states[n], events[n]))
              && var b := Deciding(states[n], events[n]);
                 && InTable(b.procs, b.queues[READY_QUEUE])
                 && TotalTickets(b.procs, b.queues[READY_QUEUE]) < 0x8000_0000_0000_0000
  {
    hide Linked, Consistent, Invariant, Undecided, Entry, Enabled, After, Picks, Step, Start, Park, AddPreempt,
      TotalTickets, InTable, Leaving;
    RunInvariant(states, events, n);
    var s, e := states[n], events[n];
    InvariantFacts(s);
    ConsistentFacts(s);
    if Picks(s, e) {
      EntryFacts(s, e);
      var u := Entry(s, e);
      ConsistentFacts(u);
      PreemptKeeps(u, u.current, 1);
      ParkLinks(AddPreempt(u, u.current, 1));
      UndecidedFits(Deciding(s, e));
    }
  }

  // ------------------------------------------------------------ generator

  const SEED: bv64 := 88172645463325252

  function Xor(x: bv64, y: bv64): bv64 { x ^ y }
  function Up13(x: bv64): bv64 { x << 13 }
  function Down7(x: bv64): bv64 { x >> 7 }
  function Up17(x: bv64): bv64 { x << 17 }

  datatype Move = UP13 | DOWN7 | UP17

  function Moved(m: Move, x: bv64): bv64 {
    match m case UP13 => Up13(x) case DOWN7 => Down7(x) case UP17 => Up17(x)
  }

  /** One round of the generator: a state combined with its own shift. */
  function Round(m: Move, x: bv64): bv64 {
    Xor(x, Moved(m, x))
  }

  /** The sum of the first `n + 1` shifts, which undoes a round once the next shift is zero. */
  function Unround(m: Move, n: nat, y: bv64): bv64 {
    if n == 0 then y else Xor(y, Moved(m, Unround(m, n - 1, y)))
  }

  function Repeated(m: Move, n: nat, x: bv64): bv64 {
    if n == 0 then x else Moved(m, Repeated(m, n - 1, x))
  }

  /** How often a 64-bit word can be shifted before nothing is left. */
  function Order(m: Move): nat {
    match m case UP13 => 4 case DOWN7 => 9 case UP17 => 3
  }

  /** One step of xorshift64. */
  function Shift(x: bv64): bv64 {
    Round(UP17, Round(DOWN7, Round(UP13, x)))
  }

  function Unshift(y: bv64): bv64 {
    Unround(UP13, Order(UP13), Unround(DOWN7, Order(DOWN7), Unround(UP17, Order(UP17), y)))
  }

  lemma XorAssociates(a: bv64, b: bv64, c: bv64)
    ensures Xor(Xor(a, b), c) == Xor(a, Xor(b, c))
  {
  }

  lemma XorBasics(a: bv64, b: bv64)
    ensures Xor(a, b) == Xor(b, a) && Xor(a, a) == 0 && Xor(a, 0) == a
  {
  }

  lemma XorCancels(a: bv64, b: bv64, c: bv64)
    ensures Xor(Xor(a, b), Xor(b, c)) == Xor(a, c)
  {
    hide Xor;
    XorAssociates(a, b, Xor(b, c));
    XorAssociates(b, b, c);
    XorBasics(b, c);
    XorBasics(c, 0);
  }

  lemma XorSwaps(a: bv64, b: bv64, c: bv64, d: bv64)
    ensures Xor(Xor(a, b), Xor(c, d)) == Xor(Xor(a, c), Xor(b, d))
  {
    hide Xor;
    XorAssociates(a, b, Xor(c, d));
    XorAssociates(b, c, d);
    XorBasics(b, c);
    XorAssociates(c, b, d);
    XorAssociates(a, c, Xor(b, d));
  }

  lemma Up13Xor(x: bv64, y: bv64)
    ensures Up13(Xor(x, y)) == Xor(Up13(x), Up13(y))
  {
  }

  lemma Down7Xor(x: bv64, y: bv64)
    ensures Down7(Xor(x, y)) == Xor(Down7(x), Down7(y))
  {
  }

  lemma Up17Xor(x: bv64, y: bv64)
    ensures Up17(Xor(x, y)) == Xor(Up17(x), Up17(y))
  {
  }

  lemma MovedXor(m: Move, x: bv64, y: bv64)
    ensures Moved(m, Xor(x, y)) == Xor(Moved(m, x), Moved(m, y))
  {
    hide Xor, Up13, Down7, Up17;
    match m
    case UP13 => Up13Xor(x, y);
    case DOWN7 => Down7Xor(x, y);
    case UP17 => Up17Xor(x, y);
  }

  lemma Up13Vanishes(x: bv64)
    ensures Up13(Up13(Up13(Up13(Up13(x))))) == 0
  {
  }

  lemma Down7Vanishes(x: bv64)
    ensures Down7(Down7(Down7(Down7(Down7(Down7(Down7(Down7(Down7(Down7(x)))))))))) == 0
  {
  }

  lemma Up17Vanishes(x: bv64)
    ensures Up17(Up17(Up17(Up17(x)))) == 0
  {
  }

  lemma Vanishes(m: Move, x: bv64)
    ensures Repeated(m, Order(m) + 1, x) == 0
  {
    hide Up13, Down7, Up17;
    Twice(m, x);
    Twice(m, Repeated(m, 2, x));
    RepeatedAdds(m, 2, 2, x);
    match m
    case UP13 => Up13Vanishes(x);
    case UP17 => Up17Vanishes(x);
    case DOWN7 =>
      Down7Vanishes(x);
      RepeatedAdds(m, 4, 4, x);
      Twice(m, Repeated(m, 4, x));
      RepeatedAdds(m, 2, 2, Repeated(m, 4, x));
      Twice(m, Repeated(m, 6, x));
      RepeatedAdds(m, 2, 4, x);
      RepeatedAdds(m, 8, 2, x);
      Twice(m, Repeated(m, 8, x));
      RepeatedAdds(m, 2, 8, x);
      RepeatedAdds(m, 2, 6, x);
  }

  lemma Twice(m: Move, x: bv64)
    ensures Repeated(m, 2, x) == Moved(m, Moved(m, x))
  {
    assert Repeated(m, 1, x) == Moved(m, Repeated(m, 0, x));
  }

  lemma {:induction false} RepeatedAdds(m: Move, j: nat, k: nat, x: bv64)
    ensures Repeated(m, j + k, x) == Repeated(m, j, Repeated(m, k, x))
  {
    if j > 0 {
      RepeatedAdds(m, j - 1, k, x);
    }
  }

  lemma {:induction false} UnroundRound(m: Move, n: nat, x: bv64)
    ensures Unround(m, n, Round(m, x)) == Xor(x, Repeated(m, n + 1, x))
  {
    hide Xor, Moved;
    if n == 0 {
      assert Repeated(m, 1, x) == Moved(m, Repeated(m, 0, x));
    } else {
      UnroundRound(m, n - 1, x);
      MovedXor(m, x, Repeated(m, n, x));
      XorCancels(x, Moved(m, x), Repeated(m, n + 1, x));
    }
  }

  lemma {:induction false} RoundUnround(m: Move, n: nat, y: bv64)
    ensures Round(m, Unround(m, n, y)) == Unround(m, n, Round(m, y))
  {
    hide Xor, Moved;
    if n > 0 {
      var u := Unround(m, n - 1, y);
      RoundUnround(m, n - 1, y);
      MovedXor(m, y, Moved(m, u));
      MovedXor(m, u, Moved(m, u));
      XorSwaps(y, Moved(m, u), Moved(m, y), Moved(m, Moved(m, u)));
    }
  }

  lemma RoundUndone(m: Move, x: bv64)
    ensures Unround(m, Order(m), Round(m, x)) == x && Round(m, Unround(m, Order(m), x)) == x
  {
    hide Xor, Moved, Repeated;
    UnroundRound(m, Order(m), x);
    RoundUnround(m, Order(m), x);
    Vanishes(m, x);
    XorBasics(x, 0);
  }

  lemma ShiftUndone(x: bv64)
    ensures Unshift(Shift(x)) == x
  {
    hide Round, Unround, Order, Xor, Moved;
    RoundUndone(UP13, x);
    RoundUndone(DOWN7, Round(UP13, x));
    RoundUndone(UP17, Round(DOWN7, Round(UP13, x)));
  }

  lemma UnshiftUndone(x: bv64)
    ensures Shift(Unshift(x)) == x
  {
    hide Round, Unround, Order, Xor, Moved;
    var a := Unround(UP17, Order(UP17), x);
    var b := Unround(DOWN7, Order(DOWN7), a);
    RoundUndone(UP17, x);
    RoundUndone(DOWN7, a);
    RoundUndone(UP13, b);
  }

  lemma ShiftOfZero()
    ensures Shift(0) == 0
  {
    hide Round;
    RoundZero(UP13);
    RoundZero(DOWN7);
    RoundZero(UP17);
  }

  /** The generator's step is a bijection of the 64-bit states, and only zero goes to zero. */
  lemma ShiftBijective(x: bv64)
    ensures Unshift(Shift(x)) == x && Shift(Unshift(x)) == x
    ensures Shift(x) == 0 <==> x == 0
  {
    hide Shift, Unshift;
    ShiftUndone(x);
    UnshiftUndone(x);
    ShiftUndone(0);
    ShiftOfZero();
  }

  lemma RoundZero(m: Move)
    ensures Round(m, 0) == 0
  {
  }

  predicate Left13(x: bv64, y: bv64) { y == x ^ (x << 13) }
  predicate Right7(x: bv64, y: bv64) { y == x ^ (x >> 7) }
  predicate Left17(x: bv64, y: bv64) { y == x ^ (x << 17) }

  /** The 64-bit xorshift of Marsaglia with the shifts 13, 7 and 17. */
  ghost predicate XorShift(x: bv64, y: bv64) {
    exists a, b :: Left13(x, a) && Right7(a, b) && Left17(b, y)
  }

  lemma Left13Is(x: bv64, u: bv64)
    requires u == x << 13
    ensures Left13(x, Xor(x, u))
  {
  }

  lemma Right7Is(x: bv64, u: bv64)
    requires u == x >> 7
    ensures Right7(x, Xor(x, u))
  {
  }

  lemma Left17Is(x: bv64, u: bv64)
    requires u == x << 17
    ensures Left17(x, Xor(x, u))
  {
  }

  lemma ShiftsAre(x: bv64)
    ensures Up13(x) == x << 13 && Down7(x) == x >> 7 && Up17(x) == x << 17
  {
  }

  lemma ShiftTells(x: bv64)
    ensures XorShift(x, Shift(x))
  {
    hide Xor, Up13, Down7, Up17, Left13, Right7, Left17;
    var a := Round(UP13, x);
    var b := Round(DOWN7, a);
    ShiftsAre(x);
    ShiftsAre(a);
    ShiftsAre(b);
    Left13Is(x, Up13(x));
    Right7Is(a, Down7(a));
    Left17Is(b, Up17(b));
  }

  class Generator {
    var state: bv64

    constructor ()
      ensures state == SEED
    {
      state := SEED;
    }

    /** `lottery_random`: the timer is mixed in, and a zero state is replaced by the seed. */
    method Random(timer: bv64) returns (r: bv64)
      modifies this
      ensures r == state && state != 0
      ensures Xor(old(state), timer) != 0 ==> state == Shift(Xor(old(state), timer))
      ensures Xor(old(state), timer) == 0 ==> state == Shift(SEED)
      ensures XorShift(if old(state) ^ timer == 0 then 88172645463325252 else old(state) ^ timer, state)
    {
      hide Up13, Down7, Up17, Unshift, XorShift;
      state := Xor(state, timer);
      if state == 0 {
        state := SEED;
      }
      ShiftBijective(state);
      ShiftTells(state);
      state := Xor(state, Up13(state));
      state := Xor(state, Down7(state));
      state := Xor(state, Up17(state));
      r := state;
    }
  }
}
