/**
 What an attempt to send or to receive does to the buffers and to every process, without
 the functions that the runs are made of.
 */
module MessageEffects {
  import opened SchedulerState
  import opened SchedulerEffects
  import opened MessageRing
  import opened MessageRuns

  /** A process is made ready, or left as it is. */
  predicate Awakened(p: Proc, wakes: bool, r: Proc) {
    r == if wakes then p.(state := READY) else p
  }

  /** The current process waits, its burst ends, and a decision follows. */
  ghost predicate BlockTells(k: KState, st: State, draws: seq<nat>, v: KState)
    requires Shaped(k)
  {
    var u := k.(procs := k.procs[k.current := k.procs[k.current].(state := st)]);
    Shaped(u) && ScheduleTells(u, draws, v)
  }

  lemma BlockEffect(k: KState, st: State, draws: seq<nat>)
    requires Shaped(k) && PositivePriorities(k.procs) && Room(k, draws)
    ensures BlockTells(k, st, draws, Block(k, st, draws))
  {
    hide Schedule, ScheduleTells;
    ScheduleEffect(WithState(k, k.current, st), draws);
  }

  /**
   To a process that does not exist nothing is sent. With four messages waiting there the
   sender waits. Otherwise the message, with the pid of its sender, is put behind those that
   wait, and its destination is woken if it is waiting for one.
   */
  ghost predicate SendTells(s: System, d: int, body: string, draws: seq<nat>, v: System, sent: bool)
    requires Sized(s) && Shaped(s.kernel)
  {
    var k := s.kernel;
    if d < 0 || d >= |k.procs| then !sent && v == s
    else if |s.buffers[d]| >= 4 then
      && !sent && v == s.(kernel := v.kernel, wanted := s.wanted[k.current := d])
      && BlockTells(k, WAITING_TO_SEND_MESSAGE, draws, v.kernel)
    else
      var m := Message(k.current, d, body);
      && sent && v.received == s.received && v.wanted == s.wanted
      && v.buffers == s.buffers[d := s.buffers[d] + [m]] && v.sent == s.sent[d := s.sent[d] + [m]]
      && v.kernel == k.(procs := v.kernel.procs, queues := v.kernel.queues) && |v.kernel.procs| == |k.procs|
      && forall j :: 0 <= j < |k.procs| ==>
           Awakened(k.procs[j], j == d && k.procs[j].state == WAITING_TO_RECEIVE_MESSAGE, v.kernel.procs[j])
  }

  lemma SendEffect(s: System, d: int, body: string, draws: seq<nat>)
    requires Sized(s) && Shaped(s.kernel) && PositivePriorities(s.kernel.procs) && Room(s.kernel, draws)
    ensures SendTells(s, d, body, draws, Sending(s, d, body, draws),
                      0 <= d < |s.kernel.procs| && |s.buffers[d]| < MAX_MESSAGES)
  {
    hide BlockTells, Block, QueueOf, PlaceOf;
    BlockEffect(s.kernel, WAITING_TO_SEND_MESSAGE, draws);
  }

  /**
   With nothing waiting for it the receiver waits. Otherwise it takes the oldest message,
   and all who wait for room somewhere are woken.
   */
  ghost predicate ReceiveTells(s: System, draws: seq<nat>, v: System)
    requires Sized(s) && Shaped(s.kernel)
  {
    var k, c := s.kernel, s.kernel.current;
    if s.buffers[c] == [] then
      v == s.(kernel := v.kernel) && BlockTells(k, WAITING_TO_RECEIVE_MESSAGE, draws, v.kernel)
    else
      && v.sent == s.sent && v.wanted == s.wanted && |v.buffers| == |v.received| == 64
      && [s.buffers[c][0]] + v.buffers[c] == s.buffers[c] && v.received[c] == s.received[c] + [s.buffers[c][0]]
      && (forall j :: 0 <= j < 64 && j != c ==> v.buffers[j] == s.buffers[j] && v.received[j] == s.received[j])
      && v.kernel == k.(procs := v.kernel.procs, queues := v.kernel.queues) && |v.kernel.procs| == |k.procs|
      && forall j :: 0 <= j < |k.procs| ==>
           Awakened(k.procs[j], k.procs[j].state == WAITING_TO_SEND_MESSAGE, v.kernel.procs[j])
  }

  lemma {:induction false} WakeSendersEffect(k: KState, i: nat)
    requires Shaped(k) && i <= |k.procs|
    ensures var v := WakeSenders(k, i);
            && v == k.(procs := v.procs, queues := v.queues)
            && forall j :: 0 <= j < |k.procs| ==>
                 Awakened(k.procs[j], j >= i && k.procs[j].state == WAITING_TO_SEND_MESSAGE, v.procs[j])
    decreases |k.procs| - i
  {
    hide QueueOf, PlaceOf;
    if i < |k.procs| {
      WakeSendersEffect(if k.procs[i].state == WAITING_TO_SEND_MESSAGE then Wake(k, i) else k, i + 1);
    }
  }

  lemma ReceiveEffect(s: System, draws: seq<nat>)
    requires Sized(s) && Shaped(s.kernel) && PositivePriorities(s.kernel.procs) && Room(s.kernel, draws)
    ensures ReceiveTells(s, draws, Receiving(s, draws))
  {
    hide BlockTells, Block, WakeSenders;
    BlockEffect(s.kernel, WAITING_TO_RECEIVE_MESSAGE, draws);
    WakeSendersEffect(s.kernel, 0);
  }
}
