/**
 Process control blocks and the intrusive ready queues of `libs/scheduler.c`: singly
 linked lists through `next_ready` with a head and a tail, which insert at the tail
 or by estimate and unlink from the head or the middle.
 */
module ReadyQueues {
  import opened SchedulerState

  class PCB {
    const pid: nat
    var state: State
    var counter: int
    var priority: int
    var estBurst: int
    var burstTicks: int
    var queuePriority: int
    var tickets: int
    var preemptDisabled: int
    var pending: set<nat>
    var pidToWait: int
    var nextReady: PCB?

    /** Everything but the link. */
    function Record(): Proc
      reads this`state, this`counter, this`priority, this`estBurst, this`burstTicks, this`queuePriority,
            this`tickets, this`preemptDisabled, this`pending, this`pidToWait
    {
      Proc(state, counter, priority, estBurst, burstTicks, queuePriority, tickets, preemptDisabled, pending, pidToWait)
    }

    constructor (pid: nat, p: Proc)
      ensures this.pid == pid && Record() == p && nextReady == null
    {
      this.pid := pid;
      state, counter, priority, estBurst := p.state, p.counter, p.priority, p.estBurst;
      burstTicks, queuePriority, tickets := p.burstTicks, p.queuePriority, p.tickets;
      preemptDisabled, pending, pidToWait := p.preemptDisabled, p.pending, p.pidToWait;
      nextReady := null;
    }
  }

  function Pids(items: seq<PCB>): (r: seq<nat>)
    ensures |r| == |items| && forall k :: 0 <= k < |r| ==> r[k] == items[k].pid
  {
    seq(|items|, k requires 0 <= k < |items| => items[k].pid)
  }

  /** The records of a table of processes. */
  function Records(items: seq<PCB>): (r: seq<Proc>)
    reads items`state, items`counter, items`priority, items`estBurst, items`burstTicks, items`queuePriority,
          items`tickets, items`preemptDisabled, items`pending, items`pidToWait
    ensures |r| == |items| && forall i :: 0 <= i < |r| ==> r[i] == items[i].Record()
  {
    if items == [] then [] else [items[0].Record()] + Records(items[1..])
  }

  class ProcessQueue {
    var head: PCB?
    var tail: PCB?
    ghost var items: seq<PCB>

    /** `items` are distinct and linked in order from the head to the tail. */
    ghost predicate Valid()
      reads this, items`nextReady
    {
      && (forall a, b :: 0 <= a < b < |items| ==> items[a] != items[b])
      && (head == if items == [] then null else items[0])
      && (tail == if items == [] then null else items[|items| - 1])
      && (forall k :: 0 <= k < |items| ==> items[k].nextReady == Next(items, k))
    }

    static ghost function Next(items: seq<PCB>, k: nat): PCB? {
      if k + 1 < |items| then items[k + 1] else null
    }

    constructor ()
      ensures Valid() && items == []
    {
      head, tail, items := null, null, [];
    }

    /** `enqueue_process_to`. */
    method Append(p: PCB)
      requires Valid() && p !in items
      modifies this, p`nextReady, p`state, items`nextReady
      ensures Valid() && items == old(items) + [p] && p.state == READY
    {
      p.nextReady := null;
      p.state := READY;
      if tail == null {
        head := p;
        tail := p;
      } else {
        tail.nextReady := p;
        tail := p;
      }
      items := items + [p];
    }

    /** `dequeue_process_from`. */
    method Dequeue() returns (p: PCB?)
      requires Valid()
      modifies this, items`nextReady
      ensures Valid()
      ensures p == null <==> old(items) == []
      ensures p == null ==> items == []
      ensures p != null ==> p == old(items)[0] && items == old(items)[1..]
    {
      if head == null {
        return null;
      }
      p := head;
      head := p.nextReady;
      if head == null {
        tail := null;
      }
      p.nextReady := null;
      items := items[1..];
    }

    /** `remove_process_from`: unlinks a process, given its predecessor. */
    method Remove(previous: PCB?, p: PCB, ghost j: nat)
      requires Valid() && j < |items| && items[j] == p
      requires previous == if j == 0 then null else items[j - 1]
      modifies this, items`nextReady
      ensures Valid() && items == old(items)[..j] + old(items)[j + 1..]
    {
      ghost var before, rest := items, items[..j] + items[j + 1..];
      RestOf(before, j);
      hide Next;
      if previous == null {
        head := p.nextReady;
      } else {
        previous.nextReady := p.nextReady;
      }
      if tail == p {
        tail := previous;
      }
      p.nextReady := null;
      items := rest;
      forall k | 0 <= k < |rest|
        ensures rest[k].nextReady == Next(rest, k)
      {
        RestLinks(before, j, k);
      }
    }

    /** The successors in a list from which a process has been taken. */
    static lemma RestLinks(items: seq<PCB>, j: nat, k: nat)
      requires j < |items| && k < |items| - 1
      ensures var rest := items[..j] + items[j + 1..];
              Next(rest, k)
              == if k + 1 < j then Next(items, k) else if k + 1 == j then Next(items, j) else Next(items, k + 1)
    {
    }

    static lemma RestOf(items: seq<PCB>, j: nat)
      requires j < |items|
      ensures var rest := items[..j] + items[j + 1..];
              && |rest| == |items| - 1
              && (forall k :: 0 <= k < j ==> rest[k] == items[k])
              && (forall k :: j <= k < |rest| ==> rest[k] == items[k + 1])
    {
    }

    static lemma MoreOf(items: seq<PCB>, j: nat, p: PCB)
      requires j <= |items|
      ensures var more := items[..j] + [p] + items[j..];
              && |more| == |items| + 1 && more[j] == p
              && (forall k :: 0 <= k < j ==> more[k] == items[k])
              && (forall k :: j < k < |more| ==> more[k] == items[k - 1])
    {
    }

    /** Links a process behind `node`, which stands just before position `j`. */
    method LinkAfter(node: PCB, p: PCB, ghost j: nat)
      requires Valid() && p !in items && 1 <= j <= |items| && node == items[j - 1]
      modifies this, p`nextReady, node`nextReady
      ensures Valid() && items == old(items)[..j] + [p] + old(items)[j..]
    {
      MoreOf(items, j, p);
      p.nextReady := node.nextReady;
      node.nextReady := p;
      if p.nextReady == null {
        tail := p;
      }
      items := items[..j] + [p] + items[j..];
    }

    /** The last process that is not longer, when the first one is not. */
    method FindPlace(est: int) returns (node: PCB, ghost j: nat)
      requires Valid() && head != null && head.estBurst <= est
      ensures 1 <= j <= |items| && node == items[j - 1]
      ensures forall k :: 0 <= k < j ==> items[k].estBurst <= est
      ensures j < |items| ==> est < items[j].estBurst
    {
      node := head;
      j := 1;
      while node.nextReady != null
        invariant 1 <= j <= |items| && node == items[j - 1]
        invariant forall k :: 0 <= k < j ==> items[k].estBurst <= est
        decreases |items| - j
      {
        if est < node.nextReady.estBurst {
          break;
        }
        node := node.nextReady;
        j := j + 1;
      }
    }

    /** `enqueue_sorted_to`: behind every process that is not longer. */
    method InsertSorted(p: PCB) returns (ghost j: nat)
      requires Valid() && p !in items
      modifies this, p`nextReady, p`state, items`nextReady
      ensures Valid() && j <= |old(items)| && items == old(items)[..j] + [p] + old(items)[j..] && p.state == READY
      ensures forall k :: 0 <= k < j ==> old(items)[k].estBurst <= p.estBurst
      ensures j < |old(items)| ==> p.estBurst < old(items)[j].estBurst
    {
      p.nextReady := null;
      p.state := READY;
      if head == null {
        head := p;
        tail := p;
        items := [p];
        return 0;
      }
      if p.estBurst < head.estBurst {
        LinkFirst(p);
        return 0;
      }
      var node;
      node, j := FindPlace(p.estBurst);
      LinkAfter(node, p, j);
    }

    /** Links a process before the head. */
    method LinkFirst(p: PCB)
      requires Valid() && p !in items && head != null
      modifies this, p`nextReady
      ensures Valid() && items == old(items)[..0] + [p] + old(items)[0..]
    {
      p.nextReady := head;
      head := p;
      items := [p] + items;
    }
  }
}
