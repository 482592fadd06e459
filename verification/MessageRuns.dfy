/**
 Sending and receiving over the scheduler, in atomic steps: a sender that finds the
 buffer full blocks, a receiver that finds its own empty blocks, and each of them
 tries again when it runs next.
 */
module MessageRuns {
  import opened SchedulerState
  import opened SchedulerRuns
  import opened SchedulerSafety
  import opened MessageRing

  /**
   The buffers by pid, with everything ever sent to and received by each process;
   `wanted` is the destination on which a process last found no room.
   */
  datatype System = System(
    kernel: KState, buffers: seq<seq<Message>>, sent: seq<seq<Message>>, received: seq<seq<Message>>,
    wanted: map<nat, nat>)

  datatype Action =
    | Other(event: Event)
    | Send(destination: int, body: string, draws: seq<nat>)
    | Receive(draws: seq<nat>)

  /** Blocking on messages and the wakeups from it belong to the two message calls alone. */
  ghost predicate Allowed(s: System, a: Action)
    requires Shaped(s.kernel)
  {
    match a
    case Other(e) =>
      && Enabled(s.kernel, e)
      && (e.Blocked? ==> e.state == WAITING_UART_INPUT)
      && (e.Woken? ==> s.kernel.procs[e.pid].state == WAITING_UART_INPUT)
    case Send(_, _, draws) => s.kernel.current != INIT && Room(s.kernel, draws)
    case Receive(draws) => s.kernel.current != INIT && Room(s.kernel, draws)
  }

  /** From process `i` on, wakes everybody who waits for room in some buffer. */
  function WakeSenders(k: KState, i: nat): (v: KState)
    requires Shaped(k) && i <= |k.procs|
    ensures Shaped(v) && |v.procs| == |k.procs|
    decreases |k.procs| - i
  {
    if i == |k.procs| then k
    else if k.procs[i].state == WAITING_TO_SEND_MESSAGE then WakeSenders(Wake(k, i), i + 1)
    else WakeSenders(k, i + 1)
  }

  ghost predicate Sized(s: System) {
    |s.buffers| == |s.sent| == |s.received| == N_PROCESSES
  }

  /** A message is put at the end of what waits for its destination. */
  function Appended(s: System, d: nat, m: Message): System
    requires Sized(s) && d < N_PROCESSES
  {
    s.(buffers := s.buffers[d := s.buffers[d] + [m]], sent := s.sent[d := s.sent[d] + [m]])
  }

  /** A destination that waits for a message is woken. */
  function Roused(s: System, d: nat): System
    requires Shaped(s.kernel) && d < |s.kernel.procs|
  {
    s.(kernel := if s.kernel.procs[d].state == WAITING_TO_RECEIVE_MESSAGE then Wake(s.kernel, d) else s.kernel)
  }

  /** The oldest message of a buffer is taken out. */
  function Removed(s: System, c: nat): System
    requires Sized(s) && c < N_PROCESSES && s.buffers[c] != []
  {
    s.(buffers := s.buffers[c := s.buffers[c][1..]], received := s.received[c := s.received[c] + [s.buffers[c][0]]])
  }

  /** One attempt of `send_message`, by the current process. */
  function Sending(s: System, d: int, body: string, draws: seq<nat>): System
    requires Sized(s) && Shaped(s.kernel) && PositivePriorities(s.kernel.procs) && Room(s.kernel, draws)
  {
    var k := s.kernel;
    if !(0 <= d < |k.procs|) then s
    else if |s.buffers[d]| < MAX_MESSAGES then Roused(Appended(s, d, Message(k.current, d, body)), d)
    else s.(kernel := Block(k, WAITING_TO_SEND_MESSAGE, draws), wanted := s.wanted[k.current := d])
  }

  /** One attempt of `receive_message`, by the current process. */
  function Receiving(s: System, draws: seq<nat>): System
    requires Sized(s) && Shaped(s.kernel) && PositivePriorities(s.kernel.procs) && Room(s.kernel, draws)
  {
    if s.buffers[s.kernel.current] != [] then
      var v := Removed(s, s.kernel.current);
      v.(kernel := WakeSenders(v.kernel, 0))
    else s.(kernel := Block(s.kernel, WAITING_TO_RECEIVE_MESSAGE, draws))
  }

  function Acted(s: System, a: Action): System
    requires Sized(s) && Shaped(s.kernel) && PositivePriorities(s.kernel.procs) && Allowed(s, a)
  {
    match a
    case Other(e) => s.(kernel := After(s.kernel, e))
    case Send(d, body, draws) => Sending(s, d, body, draws)
    case Receive(draws) => Receiving(s, draws)
  }

  // ----------------------------------------------------------- invariants

  /** What a process has received, followed by what waits for it, is what was sent to it. */
  ghost predicate InOrder(s: System, d: nat)
    requires Sized(s) && d < N_PROCESSES
  {
    s.received[d] + s.buffers[d] == s.sent[d] && |s.buffers[d]| <= MAX_MESSAGES
  }

  /** A receiver only waits at an empty buffer, a sender only at a full one: no wakeup was lost. */
  ghost predicate WaitsRightly(s: System, i: nat)
    requires Sized(s) && i < |s.kernel.procs| <= N_PROCESSES
  {
    && (s.kernel.procs[i].state == WAITING_TO_RECEIVE_MESSAGE ==> s.buffers[i] == [])
    && (s.kernel.procs[i].state == WAITING_TO_SEND_MESSAGE ==>
          i in s.wanted && s.wanted[i] < N_PROCESSES && |s.buffers[s.wanted[i]]| == MAX_MESSAGES)
  }

  ghost predicate Healthy(s: System) {
    && Sized(s) && Invariant(s.kernel)
    && (forall d :: 0 <= d < N_PROCESSES ==> InOrder(s, d))
    && (forall i :: 0 <= i < |s.kernel.procs| ==> WaitsRightly(s, i))
  }

  ghost predicate Started(s: System) {
    && Start(s.kernel) && s.wanted == map[] && Sized(s)
    && forall d :: 0 <= d < N_PROCESSES ==> s.buffers[d] == s.sent[d] == s.received[d] == []
  }

  ghost predicate Step(s: System, a: Action, v: System) {
    Healthy(s) ==> (Priorities(s.kernel); Allowed(s, a) && v == Acted(s, a))
  }

  ghost predicate Run(systems: seq<System>, actions: seq<Action>) {
    && |systems| == |actions| + 1 && Started(systems[0])
    && forall n :: 0 <= n < |actions| ==> Step(systems[n], actions[n], systems[n + 1])
  }

  // ---------------------------------------------------------------- steps

  lemma KernelFacts(k: KState)
    requires Invariant(k)
    ensures 0 < |k.procs| <= N_PROCESSES && k.current < |k.procs| && Shaped(k)
    ensures !Blocking(k.procs[k.current].state)
  {
  }

  lemma HealthyFacts(s: System)
    requires Healthy(s)
    ensures Sized(s) && Invariant(s.kernel) && Consistent(s.kernel)
    ensures forall d :: 0 <= d < N_PROCESSES ==> InOrder(s, d)
  {
  }

  /** The message states of processes that an event does not concern stay what they are. */
  lemma OtherKeeps(s: System, e: Event)
    requires Healthy(s) && PositivePriorities(s.kernel.procs) && Allowed(s, Other(e))
    ensures Healthy(Acted(s, Other(e)))
  {
    hide Invariant, Enabled, After, PositivePriorities;
    KernelFacts(s.kernel);
    var v := Acted(s, Other(e));
    StepKeeps(s.kernel, e);
    KernelFacts(v.kernel);
    forall i | 0 <= i < |v.kernel.procs|
      ensures WaitsRightly(v, i)
    {
      if i < |s.kernel.procs| {
        assert Stepped(s.kernel, e, v.kernel, i) && WaitsRightly(s, i);
      }
    }
    forall d | 0 <= d < N_PROCESSES
      ensures InOrder(v, d)
    {
      assert InOrder(s, d);
    }
  }

  /** An attempt that blocks: the process waits for what it has just not found. */
  lemma BlockedKeeps(s: System, v: System, st: State, draws: seq<nat>)
    requires Healthy(s) && PositivePriorities(s.kernel.procs) && s.kernel.current != INIT && Room(s.kernel, draws)
    requires st in {WAITING_TO_RECEIVE_MESSAGE, WAITING_TO_SEND_MESSAGE}
    requires v == s.(kernel := Block(s.kernel, st, draws), wanted := v.wanted)
    requires forall i :: i in s.wanted && i != s.kernel.current ==> i in v.wanted && v.wanted[i] == s.wanted[i]
    requires st == WAITING_TO_RECEIVE_MESSAGE ==> s.buffers[s.kernel.current] == []
    requires st == WAITING_TO_SEND_MESSAGE ==>
               var c := s.kernel.current;
               c in v.wanted && v.wanted[c] < N_PROCESSES && |s.buffers[v.wanted[c]]| == MAX_MESSAGES
    ensures Healthy(v)
  {
    hide Invariant, PositivePriorities, Block;
    var k := s.kernel;
    KernelFacts(k);
    BlockSteps(k, st, draws);
    KernelFacts(v.kernel);
    forall i | 0 <= i < |v.kernel.procs|
      ensures WaitsRightly(v, i)
    {
      assert Stepped(k, Blocked(st, draws), v.kernel, i) && WaitsRightly(s, i);
    }
    forall d | 0 <= d < N_PROCESSES
      ensures InOrder(v, d)
    {
      assert InOrder(s, d);
    }
  }

  /** A message that finds room is appended for its destination, which is woken if it waits. */
  lemma SentKeeps(s: System, d: nat, m: Message)
    requires Healthy(s) && d < |s.kernel.procs| && |s.buffers[d]| < MAX_MESSAGES
    ensures Healthy(Roused(Appended(s, d, m), d))
  {
    hide Invariant, Wake;
    var k := s.kernel;
    KernelFacts(k);
    var v := Roused(Appended(s, d, m), d);
    var w := v.kernel;
    if k.procs[d].state == WAITING_TO_RECEIVE_MESSAGE {
      WakeSteps(k, d);
      WokenReady(k, d);
    }
    forall i | 0 <= i < |w.procs|
      ensures WaitsRightly(v, i)
    {
      assert WaitsRightly(s, i);
      if w != k {
        assert Stepped(k, Woken(d), w, i);
      }
    }
    forall x | 0 <= x < N_PROCESSES
      ensures InOrder(v, x)
    {
      assert InOrder(s, x);
      assert s.received[d] + (s.buffers[d] + [m]) == s.received[d] + s.buffers[d] + [m];
    }
  }

  lemma WokenReady(k: KState, i: nat)
    requires Shaped(k) && i < |k.procs|
    ensures Wake(k, i).procs[i].state == READY
  {
  }

  /** After a receive nobody is left waiting for room; every other record is as it was. */
  lemma {:induction false} WakeSendersKeeps(k: KState, i: nat)
    requires Invariant(k) && i <= |k.procs|
    ensures var v := WakeSenders(k, i);
            && Invariant(v) && |v.procs| == |k.procs| && v.current == k.current
            && forall j :: 0 <= j < |k.procs| ==>
                 v.procs[j]
                 == if i <= j && k.procs[j].state == WAITING_TO_SEND_MESSAGE then k.procs[j].(state := READY)
                    else k.procs[j]
    decreases |k.procs| - i
  {
    hide Invariant, Consistent, Enqueue;
    KernelFacts(k);
    if i < |k.procs| {
      if k.procs[i].state == WAITING_TO_SEND_MESSAGE {
        InvariantFacts(k);
        SaneAt(k, i);
        StaysSane(k.procs[i], k.procs[i].(state := READY));
        WakeKeeps(k, i, k.procs[i].(state := READY));
        WakeSendersKeeps(Wake(k, i), i + 1);
      } else {
        WakeSendersKeeps(k, i + 1);
      }
    }
  }

  /** The oldest message is taken out of the buffer, and the senders try again. */
  lemma ReceivedKeeps(s: System)
    requires Healthy(s) && s.kernel.current < N_PROCESSES && s.buffers[s.kernel.current] != [] && Shaped(s.kernel)
    ensures Healthy(Removed(s, s.kernel.current).(kernel := WakeSenders(s.kernel, 0)))
  {
    hide Invariant, WakeSenders;
    var c := s.kernel.current;
    var v := Removed(s, c).(kernel := WakeSenders(s.kernel, 0));
    KernelFacts(s.kernel);
    WakeSendersKeeps(s.kernel, 0);
    forall i | 0 <= i < |v.kernel.procs|
      ensures WaitsRightly(v, i)
    {
      assert WaitsRightly(s, i);
    }
    forall x | 0 <= x < N_PROCESSES
      ensures InOrder(v, x)
    {
      assert InOrder(s, x);
      assert s.received[c] + [s.buffers[c][0]] + s.buffers[c][1..] == s.received[c] + s.buffers[c];
    }
  }

  lemma ActedHealthy(s: System, a: Action)
    requires Healthy(s) && PositivePriorities(s.kernel.procs) && Shaped(s.kernel) && Allowed(s, a)
    ensures Healthy(Acted(s, a))
  {
    hide Healthy, Shaped, PositivePriorities, Block, WakeSenders, Wake;
    var k, c := s.kernel, s.kernel.current;
    HealthyFacts(s);
    KernelFacts(k);
    match a
    case Other(e) =>
      OtherKeeps(s, e);
    case Send(d, body, draws) =>
      if 0 <= d < |k.procs| {
        if |s.buffers[d]| < MAX_MESSAGES {
          SentKeeps(s, d, Message(c, d, body));
        } else {
          assert InOrder(s, d);
          BlockedKeeps(s, Sending(s, d, body, draws), WAITING_TO_SEND_MESSAGE, draws);
        }
      }
    case Receive(draws) =>
      if s.buffers[c] != [] {
        ReceivedKeeps(s);
      } else {
        BlockedKeeps(s, Receiving(s, draws), WAITING_TO_RECEIVE_MESSAGE, draws);
      }
  }

  // ----------------------------------------------------------------- runs

  lemma StartedHealthy(s: System)
    requires Started(s)
    ensures Healthy(s)
  {
    StartInvariant(s.kernel);
    assert forall d :: 0 <= d < N_PROCESSES ==> InOrder(s, d);
  }

  /**
   Over every run, whatever the scheduling algorithm and whoever runs when: for each
   process what it has received followed by what waits for it is what was sent to it,
   in that order; never more than four messages wait; and nobody waits for a message
   that is there or for room that is there.
   */
  lemma {:induction false} RunHealthy(systems: seq<System>, actions: seq<Action>, n: nat)
    requires Run(systems, actions) && n < |systems|
    ensures Healthy(systems[n])
  {
    hide Healthy, Acted, Allowed, Started;
    if n == 0 {
      StartedHealthy(systems[0]);
    } else {
      RunHealthy(systems, actions, n - 1);
      var s := systems[n - 1];
      assert Step(s, actions[n - 1], systems[n]);
      HealthyFacts(s);
      Priorities(s.kernel);
      KernelFacts(s.kernel);
      ActedHealthy(s, actions[n - 1]);
    }
  }

  /** What has been received or sent by some time stays received or sent, in the same order. */
  lemma {:induction false} RunHistories(systems: seq<System>, actions: seq<Action>, m: nat, n: nat, d: nat)
    requires Run(systems, actions) && m <= n < |systems| && d < N_PROCESSES
    ensures Sized(systems[m]) && Sized(systems[n])
    ensures systems[m].received[d] <= systems[n].received[d] && systems[m].sent[d] <= systems[n].sent[d]
    decreases n - m
  {
    hide Invariant, Allowed, After, Wake, WakeSenders, Block, Started, PositivePriorities;
    RunHealthy(systems, actions, m);
    if m < n {
      RunHistories(systems, actions, m + 1, n, d);
      var s := systems[m];
      assert Step(s, actions[m], systems[m + 1]);
      HealthyFacts(s);
      Priorities(s.kernel);
      KernelFacts(s.kernel);
    }
  }

  /** First in, first out: a receiver has seen exactly the oldest messages, and at most four wait for it. */
  lemma RunFifo(systems: seq<System>, actions: seq<Action>, n: nat, d: nat)
    requires Run(systems, actions) && n < |systems| && d < N_PROCESSES
    ensures var s := systems[n];
            && Sized(s) && s.received[d] + s.buffers[d] == s.sent[d] && |s.buffers[d]| <= 4
            && s.received[d] == s.sent[d][..|s.sent[d]| - |s.buffers[d]|]
  {
    RunHealthy(systems, actions, n);
    assert InOrder(systems[n], d);
  }

  // ------------------------------------------------------ the fifth slot

  /** The slot of the buffer of process `d` that the next message for it is written to: see `Push`. */
  ghost function SlotWritten(s: System, d: nat): nat
    requires Sized(s) && d < N_PROCESSES
  {
    |s.sent[d]| % 5
  }

  /** Does the action write the buffer of process `d`? */
  ghost predicate Pushes(s: System, a: Action, d: nat)
    requires Sized(s) && d < N_PROCESSES
  {
    a.Send? && a.destination == d && d < |s.kernel.procs| && |s.buffers[d]| < MAX_MESSAGES
  }

  /** Does it stay inside the declared array of four slots? */
  ghost predicate WritesInside(s: System, a: Action) {
    Sized(s) && forall d :: 0 <= d < N_PROCESSES && Pushes(s, a, d) ==> SlotWritten(s, d) < 4
  }

  lemma ActedSends(s: System, a: Action, d: nat)
    requires Sized(s) && Shaped(s.kernel) && PositivePriorities(s.kernel.procs) && Allowed(s, a) && d < N_PROCESSES
    ensures Sized(Acted(s, a))
    ensures |Acted(s, a).sent[d]| == |s.sent[d]| + if Pushes(s, a, d) then 1 else 0
  {
    hide Shaped, PositivePriorities, Block, WakeSenders, Wake, After;
    ShapeFacts(s.kernel);
  }

  /**
   Over every run: no message has been written outside the declared array exactly
   when no process has been sent more than four, whatever it has received.
   */
  lemma {:induction false} RunInside(systems: seq<System>, actions: seq<Action>, n: nat)
    requires Run(systems, actions) && n <= |actions|
    ensures Sized(systems[n])
    ensures (forall m :: 0 <= m < n ==> WritesInside(systems[m], actions[m])) <==>
            forall d :: 0 <= d < N_PROCESSES ==> |systems[n].sent[d]| <= 4
  {
    hide Healthy, Acted, Allowed, Pushes;
    RunHealthy(systems, actions, n);
    HealthyFacts(systems[n]);
    if n > 0 {
      var s, a := systems[n - 1], actions[n - 1];
      RunInside(systems, actions, n - 1);
      RunHealthy(systems, actions, n - 1);
      assert Step(s, a, systems[n]);
      HealthyFacts(s);
      Priorities(s.kernel);
      KernelFacts(s.kernel);
      forall d | 0 <= d < N_PROCESSES
        ensures |systems[n].sent[d]| == |s.sent[d]| + if Pushes(s, a, d) then 1 else 0
      {
        ActedSends(s, a, d);
      }
      InsideStep(s, a, systems[n]);
    }
  }

  lemma InsideStep(s: System, a: Action, v: System)
    requires Sized(s) && Sized(v)
    requires forall d :: 0 <= d < N_PROCESSES ==> |v.sent[d]| == |s.sent[d]| + if Pushes(s, a, d) then 1 else 0
    ensures (forall d :: 0 <= d < N_PROCESSES ==> |v.sent[d]| <= MAX_MESSAGES) <==>
            (forall d :: 0 <= d < N_PROCESSES ==> |s.sent[d]| <= MAX_MESSAGES) && WritesInside(s, a)
  {
    hide Pushes;
    if forall d :: 0 <= d < N_PROCESSES ==> |v.sent[d]| <= MAX_MESSAGES {
      forall d | 0 <= d < N_PROCESSES
        ensures |s.sent[d]| <= MAX_MESSAGES && (Pushes(s, a, d) ==> SlotWritten(s, d) < MAX_MESSAGES)
      {
        assert |v.sent[d]| <= MAX_MESSAGES;
      }
    }
  }

  // ------------------------------------------------ the empty slots

  /** A slot of the process table that holds no process; `receive_message` reads through every slot. */
  ghost predicate EmptySlot(s: System, i: nat) {
    |s.kernel.procs| <= i < N_PROCESSES
  }

  /** Does the action register a process? */
  ghost predicate Registers(s: System, a: Action) {
    a.Other? && a.event.Forked? && !Fails(s.kernel, a.event)
  }

  /** How many processes the first `n` actions have registered. */
  ghost function Registered(systems: seq<System>, actions: seq<Action>, n: nat): nat
    requires n <= |actions| < |systems|
  {
    if n == 0 then 0
    else Registered(systems, actions, n - 1) + if Registers(systems[n - 1], actions[n - 1]) then 1 else 0
  }

  lemma WakeSize(k: KState, i: nat)
    requires Shaped(k) && i < |k.procs|
    ensures |Wake(k, i).procs| == |k.procs|
  {
    hide Enqueue;
    EnqueueGrows(WithState(k, i, READY), i);
  }

  lemma ActedRegisters(s: System, a: Action)
    requires Healthy(s) && PositivePriorities(s.kernel.procs) && Shaped(s.kernel) && Allowed(s, a)
    ensures |Acted(s, a).kernel.procs| == |s.kernel.procs| + if Registers(s, a) then 1 else 0
  {
    hide Invariant, Shaped, PositivePriorities, Block, WakeSenders, Wake, After, Fails, Room;
    KernelFacts(s.kernel);
    match a
    case Other(e) => StepKeeps(s.kernel, e);
    case Send(d, _, draws) =>
      BlockSteps(s.kernel, WAITING_TO_SEND_MESSAGE, draws);
      if 0 <= d < |s.kernel.procs| {
        WakeSize(s.kernel, d);
      }
    case Receive(draws) => BlockSteps(s.kernel, WAITING_TO_RECEIVE_MESSAGE, draws);
  }

  /**
   Over every run: the process table has an empty slot exactly while fewer than 63
   forks have registered a process.
   */
  lemma {:induction false} RunEmptySlots(systems: seq<System>, actions: seq<Action>, n: nat)
    requires Run(systems, actions) && n <= |actions|
    ensures |systems[n].kernel.procs| == 1 + Registered(systems, actions, n)
    ensures (exists i: nat :: EmptySlot(systems[n], i)) <==> Registered(systems, actions, n) < N_PROCESSES - 1
  {
    hide Healthy, Acted, Allowed, Registers;
    if n > 0 {
      RunEmptySlots(systems, actions, n - 1);
      RunHealthy(systems, actions, n - 1);
      var s := systems[n - 1];
      assert Step(s, actions[n - 1], systems[n]);
      HealthyFacts(s);
      Priorities(s.kernel);
      KernelFacts(s.kernel);
      ActedRegisters(s, actions[n - 1]);
    }
    if Registered(systems, actions, n) < N_PROCESSES - 1 {
      assert EmptySlot(systems[n], N_PROCESSES - 1);
    }
  }

  // The run of `FifthMessage`: the first process sends five messages to itself and
  // receives each but the last.

  function Note(): Message {
    Message(1, 1, "")
  }

  function Copies(n: nat): (c: seq<Message>)
    ensures |c| == n && forall i :: 0 <= i < n ==> c[i] == Note()
  {
    seq(n, i => Note())
  }

  function OnlyFirst(c: seq<Message>): (b: seq<seq<Message>>)
    ensures |b| == N_PROCESSES
    ensures forall d :: 0 <= d < N_PROCESSES ==> b[d] == if d == 1 then c else []
  {
    seq(N_PROCESSES, d => if d == 1 then c else [])
  }

  /** The system in which the first process has sent itself `n` messages and received `r` of them. */
  function Mailed(k: KState, n: nat, r: nat): System
    requires r <= n
  {
    System(k, OnlyFirst(Copies(n - r)), OnlyFirst(Copies(n)), OnlyFirst(Copies(r)), map[])
  }

  function NoteSent(): Action {
    Send(1, "", NoDraws())
  }

  lemma MailedSends(n: nat)
    requires Shaped(FirstRuns()) && PositivePriorities(FirstRuns().procs) && Room(FirstRuns(), NoDraws())
    ensures Acted(Mailed(FirstRuns(), n, n), NoteSent()) == Mailed(FirstRuns(), n + 1, n)
  {
    hide Block;
    var s := Mailed(FirstRuns(), n, n);
    assert Copies(n) + [Note()] == Copies(n + 1) && Copies(0) + [Note()] == Copies(1);
    assert OnlyFirst(Copies(n))[1 := Copies(n + 1)] == OnlyFirst(Copies(n + 1));
    assert OnlyFirst(Copies(0))[1 := Copies(1)] == OnlyFirst(Copies(1));
  }

  lemma MailedReceives(n: nat)
    requires Shaped(FirstRuns()) && PositivePriorities(FirstRuns().procs) && Room(FirstRuns(), NoDraws())
    ensures Acted(Mailed(FirstRuns(), n + 1, n), Receive(NoDraws())) == Mailed(FirstRuns(), n + 1, n + 1)
  {
    hide Block;
    assert Copies(n) + [Note()] == Copies(n + 1) && Copies(1)[1..] == Copies(0);
    assert OnlyFirst(Copies(n))[1 := Copies(n + 1)] == OnlyFirst(Copies(n + 1));
    assert OnlyFirst(Copies(1))[1 := Copies(0)] == OnlyFirst(Copies(0));
    NobodyWaits(0);
  }

  lemma {:induction false} NobodyWaits(i: nat)
    requires Shaped(FirstRuns()) && i <= 2
    ensures WakeSenders(FirstRuns(), i) == FirstRuns()
    decreases 2 - i
  {
    if i < 2 {
      NobodyWaits(i + 1);
    }
  }

  lemma FirstRunsFacts()
    ensures Shaped(Boot()) && Shaped(FirstForked()) && Shaped(FirstRuns())
    ensures Enabled(Boot(), Forked(true)) && After(Boot(), Forked(true)) == FirstForked()
    ensures PositivePriorities(FirstForked().procs)
    ensures Enabled(FirstForked(), Yielded(NoDraws())) && After(FirstForked(), Yielded(NoDraws())) == FirstRuns()
    ensures PositivePriorities(FirstRuns().procs) && Room(FirstRuns(), NoDraws())
  {
    hide Invariant, Consistent, Fork, Schedule;
    StartInvariant(Boot());
    OneStep(Boot(), Forked(true));
    FirstFork();
    OneStep(FirstForked(), Yielded(NoDraws()));
    FirstPick();
  }

  function SelfMailAction(i: nat): Action {
    if i == 0 then Other(Forked(true))
    else if i == 1 then Other(Yielded(NoDraws()))
    else if i % 2 == 0 then NoteSent()
    else Receive(NoDraws())
  }

  function SelfMailSystem(i: nat): System {
    if i == 0 then Mailed(Boot(), 0, 0)
    else if i == 1 then Mailed(FirstForked(), 0, 0)
    else Mailed(FirstRuns(), (i - 1) / 2, (i - 2) / 2)
  }

  lemma SelfMailStep(n: nat)
    ensures Step(Mailed(FirstRuns(), n, n), NoteSent(), Mailed(FirstRuns(), n + 1, n))
    ensures Step(Mailed(FirstRuns(), n + 1, n), Receive(NoDraws()), Mailed(FirstRuns(), n + 1, n + 1))
  {
    hide Healthy, Acted, Room;
    FirstRunsFacts();
    MailedSends(n);
    MailedReceives(n);
  }

  lemma SelfMailStarts()
    ensures Started(Mailed(Boot(), 0, 0))
    ensures Step(Mailed(Boot(), 0, 0), Other(Forked(true)), Mailed(FirstForked(), 0, 0))
    ensures Step(Mailed(FirstForked(), 0, 0), Other(Yielded(NoDraws())), Mailed(FirstRuns(), 0, 0))
  {
    hide Healthy, After;
    FirstRunsFacts();
    assert Copies(0) == [];
  }

  lemma SelfMailSteps(i: nat)
    ensures Step(SelfMailSystem(i), SelfMailAction(i), SelfMailSystem(i + 1))
  {
    hide Step, Mailed, Boot, FirstForked, FirstRuns;
    SelfMailStarts();
    if i >= 2 {
      SelfMailStep((i - 2) / 2);
      if i % 2 == 0 {
        assert (i - 1) / 2 == (i - 2) / 2 && i / 2 == (i - 2) / 2 + 1;
      } else {
        assert (i - 1) / 2 == (i - 2) / 2 + 1 == i / 2;
      }
    }
  }

  /** A run from boot whose fifth message goes to slot 4, with nothing waiting before it. */
  lemma FifthMessage() returns (systems: seq<System>, actions: seq<Action>)
    ensures Run(systems, actions) && |actions| == 11 && Sized(systems[10])
    ensures systems[10].buffers[1] == [] && Pushes(systems[10], actions[10], 1) && SlotWritten(systems[10], 1) == 4
  {
    hide Step, Started, Boot, FirstForked, FirstRuns, SelfMailSystem, SelfMailAction, Mailed, Sized, Pushes,
      SlotWritten, NoteSent;
    systems := seq(12, i requires 0 <= i => SelfMailSystem(i));
    actions := seq(11, i requires 0 <= i => SelfMailAction(i));
    forall i | 0 <= i < 11
      ensures Step(systems[i], actions[i], systems[i + 1])
    {
      SelfMailSteps(i);
    }
    SelfMailStarts();
    SelfMailTenth();
  }

  lemma MailedPushes(k: KState, n: nat)
    requires |k.procs| == 2
    ensures var s := Mailed(k, n, n);
            Sized(s) && s.buffers[1] == [] && Pushes(s, NoteSent(), 1) && SlotWritten(s, 1) == n % SLOTS
  {
    hide NoDraws;
  }

  lemma SelfMailTenth()
    ensures SelfMailSystem(0) == Mailed(Boot(), 0, 0)
    ensures var s, a := SelfMailSystem(10), SelfMailAction(10);
            Sized(s) && s.buffers[1] == [] && Pushes(s, a, 1) && SlotWritten(s, 1) == 4
  {
    hide Boot, FirstForked, Mailed, Sized, Pushes, SlotWritten, NoteSent;
    MailedPushes(FirstRuns(), 4);
  }
}
