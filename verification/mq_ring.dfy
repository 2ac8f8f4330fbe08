/** The queues of skynet_mq.c as they are stored: a growing ring per service, and the global list threaded
    through the queues themselves. */
module MessageQueues {
  import opened Wrappers
  import opened Scheduler

  const DEFAULT_QUEUE_SIZE: nat := 64
  const MQ_OVERLOAD: nat := 1024

  /** The elements of a ring from head to tail. */
  function Unrolled<T>(ring: seq<T>, head: nat, tail: nat): (r: seq<T>)
    requires head < |ring| && tail < |ring|
    ensures |r| == if head <= tail then tail - head else tail + |ring| - head
  {
    if head <= tail then ring[head..tail] else ring[head..] + ring[..tail]
  }

  /** A full ring, read from head around. */
  lemma Around<T>(ring: seq<T>, head: nat, i: nat)
    requires head < |ring| && i < |ring|
    ensures (head + i) % |ring| < |ring| && (ring[head..] + ring[..head])[i] == ring[(head + i) % |ring|]
  {
    Wrap(head + i, |ring|);
  }

  lemma TakeFirst<T>(ring: seq<T>, head: nat, tail: nat)
    requires head < |ring| && tail < |ring| && head != tail
    ensures var next := if head + 1 >= |ring| then 0 else head + 1;
            && |Unrolled(ring, head, tail)| > 0 && Unrolled(ring, head, tail)[0] == ring[head]
            && Unrolled(ring, next, tail) == Unrolled(ring, head, tail)[1..]
  {
  }

  lemma Wrap(x: nat, n: nat)
    requires x < 2 * n
    ensures x % n == if x < n then x else x - n
  {
  }

  class MessageQueue {
    var handle: Id
    var cap: nat
    var head: nat
    var tail: nat
    var release: bool
    var inGlobal: bool
    var overload: nat
    var overloadThreshold: nat
    var queue: array<Message>
    /** The link of the global list. */
    var next: MessageQueue?

    ghost predicate Valid()
      reads this`queue, this`cap, this`head, this`tail, this`overloadThreshold
    {
      queue.Length == cap > 0 && head < cap && tail < cap && overloadThreshold > 0
    }

    /** The waiting messages, first in first. */
    ghost function Contents(): seq<Message>
      requires Valid()
      reads this`queue, this`cap, this`head, this`tail, this`overloadThreshold, queue
    {
      Unrolled(queue[..], head, tail)
    }

    /** skynet_mq_create */
    constructor (handle: Id)
      ensures Valid() && fresh(queue) && Contents() == []
      ensures this.handle == handle && inGlobal && !release && next == null && overload == 0
    {
      this.handle := handle;
      cap, head, tail := DEFAULT_QUEUE_SIZE, 0, 0;
      inGlobal, release, overload, overloadThreshold := true, false, 0, MQ_OVERLOAD;
      queue := new Message[DEFAULT_QUEUE_SIZE](_ => Message(0, 0));
      next := null;
    }

    /** skynet_mq_length */
    method Length() returns (n: nat)
      requires Valid()
      ensures n == |Contents()|
    {
      if head <= tail { n := tail - head; } else { n := tail + cap - head; }
    }

    /** skynet_mq_overload: reported once. */
    method TakeOverload() returns (n: nat)
      modifies this`overload
      ensures n == old(overload) && overload == 0
    {
      n := overload;
      if n != 0 { overload := 0; }
    }

    /** expand_queue, on a full ring (head == tail): every slot is taken, from head around. */
    method Expand()
      requires Valid() && head == tail
      modifies this`cap, this`head, this`tail, this`queue
      ensures Valid() && fresh(queue)
      ensures Contents() == old(queue[head..] + queue[..head])
    {
      var larger := new Message[cap * 2](_ => Message(0, 0));
      ghost var was := queue[head..] + queue[..head];
      assert queue[..][head..] + queue[..][..head] == was;
      var i := 0;
      while i < cap
        invariant 0 <= i <= cap && Valid() && unchanged(this)
        invariant forall k :: 0 <= k < i ==> larger[k] == was[k]
        invariant queue[..] == old(queue[..])
      {
        Around(queue[..], head, i);
        larger[i] := queue[(head + i) % cap];
        i := i + 1;
      }
      assert forall k :: 0 <= k < cap ==> larger[..][..cap][k] == was[k];
      head, tail, cap := 0, cap, cap * 2;
      queue := larger;
      assert Contents() == larger[..][..tail];
    }

    /** skynet_mq_push. The answer says whether the queue goes on the global list. */
    method Push(message: Message) returns (toGlobal: bool)
      requires Valid()
      modifies this`cap, this`head, this`tail, this`queue, this`inGlobal, queue
      ensures Valid() && (queue == old(queue) || fresh(queue))
      ensures Contents() == old(Contents()) + [message]
      ensures inGlobal && toGlobal == !old(inGlobal)
    {
      queue[tail] := message;
      tail := tail + 1;
      if tail >= cap { tail := 0; }
      if head == tail {
        assert queue[head..] + queue[..head] == old(Contents()) + [message];
        Expand();
      }
      toGlobal := !inGlobal;
      if toGlobal { inGlobal := true; }
    }

    /** A length over the threshold is noted and the threshold doubled until it is not. */
    method NoteOverload(length: nat)
      requires overloadThreshold > 0
      modifies this`overload, this`overloadThreshold
      ensures overloadThreshold > 0 && length <= overloadThreshold
      ensures overload == if length > old(overloadThreshold) then length else old(overload)
    {
      while length > overloadThreshold
        invariant overloadThreshold >= old(overloadThreshold)
        invariant overload == if overloadThreshold > old(overloadThreshold) then length else old(overload)
        invariant overloadThreshold > old(overloadThreshold) ==> length > old(overloadThreshold)
        decreases length - overloadThreshold
      {
        overload := length;
        overloadThreshold := overloadThreshold * 2;
      }
    }

    /** skynet_mq_pop: the first message, or None and the queue is off the global list. */
    method Pop() returns (message: Option<Message>)
      requires Valid()
      modifies this`head, this`inGlobal, this`overload, this`overloadThreshold
      ensures Valid()
      ensures old(Contents()) == [] ==>
                && message == None && Contents() == [] && !inGlobal
                && overloadThreshold == MQ_OVERLOAD && overload == old(overload)
      ensures old(Contents()) != [] ==>
                && message == Some(old(Contents())[0]) && Contents() == old(Contents())[1..]
                && inGlobal == old(inGlobal) && |Contents()| <= overloadThreshold
      ensures old(Contents()) != [] ==> overload == if |Contents()| > old(overloadThreshold) then |Contents()| else old(overload)
    {
      hide Unrolled;
      if head != tail {
        TakeFirst(queue[..], head, tail);
        message := Some(queue[head]);
        head := head + 1;
        if head >= cap { head := 0; }
        var length: int := tail - head;
        if length < 0 { length := length + cap; }
        NoteOverload(length);
      } else {
        message := None;
        overloadThreshold := MQ_OVERLOAD;
        inGlobal := false;
      }
    }

    /** skynet_mq_mark_release. The answer says whether the queue goes on the global list. */
    method MarkRelease() returns (toGlobal: bool)
      requires !release
      modifies this`release
      ensures release && toGlobal == !inGlobal
    {
      release := true;
      toGlobal := !inGlobal;
    }

    /** _drop_queue: every waiting message, in order. */
    method DropAll() returns (dropped: seq<Message>)
      requires Valid()
      modifies this`head, this`inGlobal, this`overload, this`overloadThreshold
      ensures Valid() && Contents() == [] && dropped == old(Contents()) && !inGlobal
    {
      hide Unrolled;
      dropped := [];
      var message := Pop();
      while message.Some?
        invariant Valid() && queue == old(queue) && queue[..] == old(queue[..]) && cap == old(cap)
        invariant dropped + (if message.Some? then [message.value] + Contents() else []) == old(Contents())
        invariant message.None? ==> Contents() == [] && !inGlobal
        decreases message.Some?, |Contents()|
      {
        dropped := dropped + [message.value];
        message := Pop();
      }
    }
  }

  // ----- the global list -----

  /** struct global_queue: queues linked through their `next` fields. */
  class GlobalQueue {
    var head: MessageQueue?
    var tail: MessageQueue?
    /** The queues listed, first in first. */
    ghost var listed: seq<MessageQueue>

    ghost predicate Valid()
      reads this, listed
    {
      && (forall i, j :: 0 <= i < j < |listed| ==> listed[i] != listed[j])
      && (forall i :: 0 <= i < |listed| - 1 ==> listed[i].next == listed[i + 1])
      && (if listed == [] then head == null && tail == null
          else head == listed[0] && tail == listed[|listed| - 1] && listed[|listed| - 1].next == null)
    }

    constructor ()
      ensures Valid() && listed == []
    {
      head, tail, listed := null, null, [];
    }

    /** skynet_globalmq_push: its assertion is the `next == NULL` required here, which single ownership provides. */
    method Push(queue: MessageQueue)
      requires Valid() && queue.next == null && queue !in listed
      modifies this, listed`next
      ensures Valid() && listed == old(listed) + [queue]
    {
      if tail != null {
        tail.next := queue;
        tail := queue;
      } else {
        head, tail := queue, queue;
      }
      listed := listed + [queue];
    }

    /** skynet_globalmq_pop: with the source's assertion that the last queue is the tail. */
    method Pop() returns (mq: MessageQueue?)
      requires Valid()
      modifies this, listed`next
      ensures Valid()
      ensures old(listed) == [] ==> mq == null && listed == []
      ensures old(listed) != [] ==> mq == old(listed)[0] && listed == old(listed)[1..] && mq.next == null && mq !in listed
    {
      mq := head;
      if mq != null {
        assert |listed| > 1 ==> mq.next == listed[1];
        head := mq.next;
        if head == null {
          assert mq == tail;
          tail := null;
        }
        mq.next := null;
        listed := listed[1..];
      }
    }
  }
}
