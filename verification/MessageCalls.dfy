/**
 The message calls of `libs/ipc.c` in place, on the linked scheduler and the circular
 buffers: each attempt of a call turns the state that `Value` reads off the heap into
 what `MessageRuns` says, so that its theorems over runs hold of the buffers too.
 */
module MessageCalls {
  import opened SchedulerState
  import opened SchedulerQueues
  import opened SchedulerRuns
  import opened ReadyQueues
  import opened KernelScheduler
  import opened MessageRing
  import opened MessageRuns
  import opened MessageEffects

  class MessageKernel {
    const scheduler: Scheduler
    // the buffer of each slot of the table of processes
    const buffers: seq<MessagesCircularBuffer>
    // the destination on which a process last found no room
    ghost var wanted: map<nat, nat>

    ghost function Slots(): set<array<Message>> {
      set i | 0 <= i < |buffers| :: buffers[i].buffer
    }

    ghost predicate BuffersValid()
      reads buffers, Slots()
    {
      && |buffers| == N_PROCESSES
      && (forall i :: 0 <= i < N_PROCESSES ==> buffers[i].Valid())
      && (forall i, j :: 0 <= i < j < N_PROCESSES ==>
          buffers[i] != buffers[j] && buffers[i].buffer != buffers[j].buffer)
    }

    ghost function Waiting(): seq<seq<Message>>
      requires BuffersValid()
      reads buffers, Slots()
    {
      seq(N_PROCESSES, i requires 0 <= i < N_PROCESSES reads buffers, Slots() requires BuffersValid() =>
          buffers[i].Contents())
    }

    ghost function Sent(): seq<seq<Message>>
      requires BuffersValid()
      reads buffers, Slots()
    {
      seq(N_PROCESSES, i requires 0 <= i < N_PROCESSES reads buffers, Slots() requires BuffersValid() =>
          buffers[i].pushed)
    }

    ghost function Received(): seq<seq<Message>>
      requires BuffersValid()
      reads buffers, Slots()
    {
      seq(N_PROCESSES, i requires 0 <= i < N_PROCESSES reads buffers, Slots() requires BuffersValid() =>
          buffers[i].pushed[..buffers[i].popped])
    }

    ghost predicate Valid()
      reads this, scheduler, scheduler.queueLevel, scheduler.queues, scheduler.processes`nextReady, buffers, Slots()
    {
      scheduler.Valid() && BuffersValid()
    }

    ghost function Value(): (s: System)
      requires Valid()
      reads this, scheduler, scheduler.queueLevel, scheduler.queues, scheduler.processes, buffers, Slots()
      ensures Sized(s) && s.kernel == scheduler.Value() && Shaped(s.kernel)
    {
      System(scheduler.Value(), Waiting(), Sent(), Received(), wanted)
    }

    /** At boot every buffer is empty. */
    constructor (algorithm: Algorithm)
      ensures Valid() && Started(Value())
    {
      hide Scheduler.Valid, Scheduler.Value, Start, Valid, Value, Started, MessagesCircularBuffer.Valid;
      var k := new Scheduler(algorithm);
      var b := EmptyBuffers();
      scheduler, buffers, wanted := k, b, map[];
      new;
      Booted();
    }

    lemma Booted()
      requires scheduler.Valid() && Start(scheduler.Value()) && wanted == map[]
      requires |buffers| == N_PROCESSES
      requires forall i :: 0 <= i < |buffers| ==> buffers[i].Valid() && buffers[i].pushed == []
      requires forall i, j :: 0 <= i < j < |buffers| ==>
                 buffers[i] != buffers[j] && buffers[i].buffer != buffers[j].buffer
      ensures Valid() && Started(Value())
    {
      hide Scheduler.Valid, Scheduler.Value, Start;
    }

    static method EmptyBuffers() returns (b: seq<MessagesCircularBuffer>)
      ensures |b| == N_PROCESSES
      ensures forall i :: 0 <= i < |b| ==> fresh(b[i]) && fresh(b[i].buffer) && b[i].Valid() && b[i].pushed == []
      ensures forall i, j :: 0 <= i < j < |b| ==> b[i] != b[j] && b[i].buffer != b[j].buffer
    {
      b := [];
      while |b| < N_PROCESSES
        invariant |b| <= N_PROCESSES
        invariant forall i :: 0 <= i < |b| ==> fresh(b[i]) && fresh(b[i].buffer) && b[i].Valid() && b[i].pushed == []
        invariant forall i, j :: 0 <= i < j < |b| ==> b[i] != b[j] && b[i].buffer != b[j].buffer
      {
        var x := new MessagesCircularBuffer();
        b := b + [x];
      }
    }

    /** Work of the scheduler leaves the buffers alone. */
    twostate lemma BuffersKept()
      requires old(BuffersValid())
      requires forall i :: 0 <= i < |buffers| ==> unchanged(buffers[i]) && unchanged(buffers[i].buffer)
      ensures BuffersValid() && Waiting() == old(Waiting()) && Sent() == old(Sent()) && Received() == old(Received())
    {
      hide MessagesCircularBuffer.Valid;
      assert forall i :: 0 <= i < |buffers| ==> buffers[i].Valid() == old(buffers[i].Valid());
    }

    /** Only the kernel has moved on. */
    twostate lemma KernelReplaced()
      requires old(Valid()) && scheduler.Valid() && wanted == old(wanted)
      requires forall i :: 0 <= i < |buffers| ==> unchanged(buffers[i]) && unchanged(buffers[i].buffer)
      ensures Valid() && Value() == old(Value()).(kernel := scheduler.Value())
    {
      hide Scheduler.Valid, Scheduler.Value, BuffersValid, Waiting, Sent, Received;
      BuffersKept();
    }

    lemma Parts()
      requires Valid()
      ensures scheduler.Valid() && Value().kernel == scheduler.Value()
    {
    }

    /** One buffer changes, the others stay. */
    twostate lemma BufferReplaced(d: nat)
      requires d < N_PROCESSES && old(BuffersValid()) && buffers[d].Valid()
      requires forall i :: 0 <= i < N_PROCESSES && i != d ==> unchanged(buffers[i]) && unchanged(buffers[i].buffer)
      ensures BuffersValid()
      ensures Waiting() == old(Waiting())[d := buffers[d].Contents()]
      ensures Sent() == old(Sent())[d := buffers[d].pushed]
      ensures Received() == old(Received())[d := buffers[d].pushed[..buffers[d].popped]]
      ensures buffers[d].Contents() == old(buffers[d].Contents()) ==> Waiting() == old(Waiting())
      ensures buffers[d].pushed == old(buffers[d].pushed) ==> Sent() == old(Sent())
      ensures buffers[d].pushed[..buffers[d].popped] == old(buffers[d].pushed[..buffers[d].popped]) ==>
                Received() == old(Received())
    {
      forall i | 0 <= i < N_PROCESSES
        ensures buffers[i].Valid()
      {
        assert old(buffers[i].Valid());
      }
    }

    /** The part of `push_message` that concerns the buffer. */
    method PushTo(d: nat, message: Message) returns (r: int)
      requires Valid() && d < N_PROCESSES
      modifies buffers, Slots()
      ensures Valid() && r == if |old(Value()).buffers[d]| < MAX_MESSAGES then 0 else -1
      ensures r == 0 ==> Value() == Appended(old(Value()), d, message)
      ensures SlotWritten(old(Value()), d) < buffers[d].buffer.Length
      ensures r == 0 ==> buffers[d].buffer[..] == old(buffers[d].buffer[..])[SlotWritten(old(Value()), d) := message]
      ensures r != 0 ==> Value() == old(Value())
    {
      hide Scheduler.Valid, Records;
      r := buffers[d].Push(message);
      BufferReplaced(d);
    }

    /** `pop_message`. */
    method PopFrom(c: nat) returns (r: int, message: Message)
      requires Valid() && c < N_PROCESSES
      modifies buffers, Slots()
      ensures Valid() && r == if old(Value()).buffers[c] == [] then -1 else 0
      ensures r == 0 ==> message == old(Value()).buffers[c][0] && Value() == Removed(old(Value()), c)
      ensures r != 0 ==> Value() == old(Value())
    {
      hide Scheduler.Valid, Records;
      r, message := buffers[c].Pop();
      BufferReplaced(c);
      assert r == 0 ==>
               buffers[c].pushed[..buffers[c].popped] == old(buffers[c].pushed[..buffers[c].popped]) + [message];
    }

    /** The part of `push_message` that wakes the destination. */
    method WakeReceiver(d: nat)
      requires Valid() && Invariant(scheduler.Value()) && d < |Value().kernel.procs|
      modifies scheduler.queues, scheduler.processes`state, scheduler.processes`nextReady
      ensures Valid() && Value() == Roused(old(Value()), d)
    {
      hide Scheduler.Valid, Records, Consistent, Wake, Valid, Value;
      Parts();
      scheduler.Numbered();
      InvariantFacts(scheduler.Value());
      var p := scheduler.processes[d];
      if p.state == WAITING_TO_RECEIVE_MESSAGE {
        scheduler.WakeProcess(p);
      }
      KernelReplaced();
    }

    /** One turn of the scan. */
    method WakeSender(i: nat)
      requires scheduler.Valid() && Invariant(scheduler.Value()) && i < |scheduler.processes|
      modifies scheduler.queues, scheduler.processes`state, scheduler.processes`nextReady
      ensures scheduler.Valid() && Invariant(scheduler.Value())
      ensures WakeSenders(old(scheduler.Value()), i) == WakeSenders(scheduler.Value(), i + 1)
    {
      hide Scheduler.Valid, Records, Consistent, Invariant, WakeSenders;
      SenderTurn(scheduler.Value(), i);
      scheduler.Numbered();
      if scheduler.processes[i].state == WAITING_TO_SEND_MESSAGE {
        scheduler.WakeProcess(scheduler.processes[i]);
      }
    }

    /** The scan of `receive_message` for senders that wait for room. */
    method ScanSenders()
      requires scheduler.Valid() && Invariant(scheduler.Value())
      modifies scheduler.queues, scheduler.processes`state, scheduler.processes`nextReady
      ensures scheduler.Valid() && scheduler.Value() == WakeSenders(old(scheduler.Value()), 0)
    {
      hide Scheduler.Valid, Records, Consistent, Invariant, WakeSenders;
      ghost var s := scheduler.Value();
      var i := 0;
      while i < |scheduler.processes|
        invariant i <= |scheduler.processes| && scheduler.Valid() && Invariant(scheduler.Value())
        invariant WakeSenders(s, 0) == WakeSenders(scheduler.Value(), i)
      {
        WakeSender(i);
        i := i + 1;
      }
      SenderTurn(scheduler.Value(), i);
    }

    method WakeAllSenders()
      requires Valid() && Invariant(scheduler.Value())
      modifies scheduler.queues, scheduler.processes`state, scheduler.processes`nextReady
      ensures Valid() && Value() == old(Value()).(kernel := WakeSenders(old(Value()).kernel, 0))
    {
      hide *;
      Parts();
      ScanSenders();
      KernelReplaced();
    }

    /** The current process waits, and the scheduler decides who runs. */
    method BlockFor(st: State, draws: seq<nat>)
      requires Valid() && Attempting(Value(), draws) && Blocking(st)
      modifies scheduler`current, scheduler.queues, scheduler.processes
      ensures Valid() && Value() == old(Value()).(kernel := Block(old(Value()).kernel, st, draws))
    {
      hide *;
      Parts();
      AttemptingSays(Value(), draws);
      InRange();
      scheduler.BlockCurrent(st, draws);
      KernelReplaced();
    }

    ghost method NoteWanted(d: nat)
      requires Valid()
      modifies this`wanted
      ensures Valid() && Value() == old(Value()).(wanted := old(Value()).wanted[scheduler.current.pid := d])
    {
      wanted := wanted[scheduler.current.pid := d];
    }

    /** One attempt of `send_message` by the current process, after `search_process`. */
    method SendMessage(pid: int, body: string, draws: seq<nat>) returns (sent: bool)
      requires Valid() && Attempting(Value(), draws)
      modifies this`wanted, buffers, Slots(), scheduler`current, scheduler.queues, scheduler.processes
      ensures Valid() && Value() == Sending(old(Value()), pid, body, draws)
      ensures sent <==> 0 <= pid < |old(Value()).kernel.procs| && |old(Value()).buffers[pid]| < 4
      ensures SendTells(old(Value()), pid, body, draws, Value(), sent)
      ensures sent ==>
                && pid < |buffers| && SlotWritten(old(Value()), pid) < buffers[pid].buffer.Length
                && buffers[pid].buffer[..]
                   == old(buffers[pid].buffer[..])[SlotWritten(old(Value()), pid) :=
                        Message(old(scheduler.current.pid), pid, body)]
    {
      hide Valid, Value, Scheduler.Valid, Scheduler.Value, Shaped, Invariant, PositivePriorities, Room, Block, Wake,
        SendTells;
      InRange();
      AttemptingSays(Value(), draws);
      SendEffect(Value(), pid, body, draws);
      if !(0 <= pid < |scheduler.processes|) {
        return false;
      }
      var r := PushTo(pid, Message(scheduler.current.pid, pid, body));
      sent := r == 0;
      if sent {
        WakeReceiver(pid);
      } else {
        NoteWanted(pid);
        BlockFor(WAITING_TO_SEND_MESSAGE, draws);
      }
    }

    /** One attempt of `receive_message` by the current process. */
    method ReceiveMessage(draws: seq<nat>) returns (received: bool, message: Message)
      requires Valid() && Attempting(Value(), draws)
      modifies buffers, Slots(), scheduler`current, scheduler.queues, scheduler.processes
      ensures Valid() && Value() == Receiving(old(Value()), draws)
      ensures ReceiveTells(old(Value()), draws, Value())
      ensures var waiting := old(Value()).buffers[old(scheduler.current.pid)];
              (received <==> waiting != []) && (received ==> message == waiting[0])
    {
      hide Valid, Value, Scheduler.Valid, Scheduler.Value, Shaped, Invariant, PositivePriorities, Room, Block,
        WakeSenders, ReceiveTells;
      InRange();
      AttemptingSays(Value(), draws);
      ReceiveEffect(Value(), draws);
      var r;
      r, message := PopFrom(scheduler.current.pid);
      received := r == 0;
      if received {
        WakeAllSenders();
      } else {
        BlockFor(WAITING_TO_RECEIVE_MESSAGE, draws);
      }
    }

    lemma InRange()
      requires Valid()
      ensures scheduler.current.pid == Value().kernel.current < |Value().kernel.procs|
              == |scheduler.processes| <= N_PROCESSES == |buffers|
    {
      hide Scheduler.Valid;
      scheduler.LevelsInRange();
    }
  }

  /** What the caller of a message call is: not the init process, with the kernel between two events. */
  ghost predicate Attempting(s: System, draws: seq<nat>) {
    && Sized(s) && Shaped(s.kernel) && Invariant(s.kernel) && PositivePriorities(s.kernel.procs)
    && Room(s.kernel, draws) && s.kernel.current != INIT
  }

  lemma AttemptingSays(s: System, draws: seq<nat>)
    requires Attempting(s, draws)
    ensures Shaped(s.kernel) && Invariant(s.kernel) && PositivePriorities(s.kernel.procs)
    ensures Room(s.kernel, draws) && s.kernel.current != INIT
  {
  }

  /** One turn of the scan for senders. */
  lemma SenderTurn(k: KState, i: nat)
    requires Shaped(k) && Invariant(k) && i <= |k.procs|
    ensures i == |k.procs| ==> WakeSenders(k, i) == k
    ensures i < |k.procs| && k.procs[i].state != WAITING_TO_SEND_MESSAGE ==> WakeSenders(k, i) == WakeSenders(k, i + 1)
    ensures i < |k.procs| && k.procs[i].state == WAITING_TO_SEND_MESSAGE ==>
              && Shaped(Wake(k, i)) && Invariant(Wake(k, i)) && |Wake(k, i).procs| == |k.procs|
              && WakeSenders(k, i) == WakeSenders(Wake(k, i), i + 1)
    ensures Consistent(k)
  {
    hide Linked, Enqueue;
    if i < |k.procs| && k.procs[i].state == WAITING_TO_SEND_MESSAGE {
      WakeSteps(k, i);
    }
  }
}
