/**
 The circular message buffer of `libs/ipc.c`. The indices run from 0 to 4, so the
 buffer has five slots here and holds four messages; the declared array of four slots
 (`libs/scheduler.h:71`) is one short. Which slot a push writes is part of the contract of
 `Push`; `MessageRuns.RunInside` tells when the missing one is written.
 */
module MessageRing {

  const MAX_MESSAGES := 4
  const SLOTS := MAX_MESSAGES + 1

  /** Processes are named by their pid; the body is the text without its terminator. */
  datatype Message = Message(source: nat, destination: nat, body: string)

  /** The index after `i`, as both functions compute it. */
  function Next(i: nat): (n: nat)
    requires i < SLOTS
    ensures n < SLOTS && n == (i + 1) % SLOTS
  {
    if i + 1 > MAX_MESSAGES then 0 else i + 1
  }

  class MessagesCircularBuffer {
    var head: nat
    var tail: nat
    const buffer: array<Message>
    ghost var pushed: seq<Message>
    ghost var popped: nat

    /** What has been pushed and not popped yet, oldest first. */
    ghost function Contents(): seq<Message>
      requires popped <= |pushed|
      reads this
    {
      pushed[popped..]
    }

    /** The messages that wait are in the slots from the tail to the head. */
    ghost predicate Valid()
      reads this, buffer
    {
      && buffer.Length == SLOTS
      && popped <= |pushed| <= popped + MAX_MESSAGES
      && head == |pushed| % SLOTS && tail == popped % SLOTS
      && forall k :: popped <= k < |pushed| ==> buffer[k % SLOTS] == pushed[k]
    }

    constructor ()
      ensures Valid() && Contents() == [] && pushed == [] && fresh(buffer)
    {
      head, tail := 0, 0;
      buffer := new Message[SLOTS](i => Message(0, 0, ""));
      pushed, popped := [], 0;
    }

    /** `push_message` without the wakeup: -1 when the buffer is full, that is with four messages. */
    method Push(message: Message) returns (r: int)
      requires Valid()
      modifies this, buffer
      ensures Valid()
      ensures r == if |old(Contents())| < 4 then 0 else -1
      ensures r == 0 ==> Contents() == old(Contents()) + [message] && pushed == old(pushed) + [message]
      ensures r == 0 ==> buffer[..] == old(buffer[..])[|old(pushed)| % 5 := message]
      ensures r != 0 ==> Contents() == old(Contents()) && pushed == old(pushed) && buffer[..] == old(buffer[..])
      ensures popped == old(popped)
    {
      var nextHead := Next(head);
      FullWhen(popped, |pushed|);
      if nextHead == tail {
        return -1;
      }
      SlotsDiffer(popped, |pushed|);
      buffer[head] := message;
      head := nextHead;
      pushed := pushed + [message];
      return 0;
    }

    /** `pop_message`: -1 when the buffer is empty, otherwise the oldest message. */
    method Pop() returns (r: int, message: Message)
      requires Valid()
      modifies this`tail, this`popped
      ensures Valid() && pushed == old(pushed)
      ensures r == if |old(Contents())| == 0 then -1 else 0
      ensures r == 0 ==> old(Contents()) == [message] + Contents() && popped == old(popped) + 1
      ensures r != 0 ==> Contents() == old(Contents()) && popped == old(popped)
    {
      FullWhen(popped, |pushed|);
      if head == tail {
        return -1, Message(0, 0, "");
      }
      message := buffer[tail];
      tail := Next(tail);
      popped := popped + 1;
      return 0, message;
    }
  }

  /** The head meets the tail when nothing waits, and stands just before it when four messages wait. */
  lemma FullWhen(popped: nat, pushed: nat)
    requires popped <= pushed <= popped + MAX_MESSAGES
    ensures pushed % SLOTS == popped % SLOTS <==> pushed == popped
    ensures (pushed + 1) % SLOTS == popped % SLOTS <==> pushed == popped + MAX_MESSAGES
    ensures Next(pushed % SLOTS) == (pushed + 1) % SLOTS && Next(popped % SLOTS) == (popped + 1) % SLOTS
  {
    NextSlot(pushed);
    NextSlot(popped);
    var q, r := popped / SLOTS, popped % SLOTS;
    assert pushed == SLOTS * q + r + (pushed - popped);
  }

  lemma NextSlot(n: nat)
    ensures Next(n % SLOTS) == (n + 1) % SLOTS
  {
  }

  /** The slot that is written is none of those that hold a message. */
  lemma SlotsDiffer(popped: nat, pushed: nat)
    requires popped <= pushed < popped + MAX_MESSAGES
    ensures forall k :: popped <= k < pushed ==> k % SLOTS != pushed % SLOTS
  {
    forall k | popped <= k < pushed
      ensures k % SLOTS != pushed % SLOTS
    {
      FullWhen(k, pushed);
    }
  }
}
