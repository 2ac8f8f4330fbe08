/** The stored queues beside the state machine of the scheduler: every operation on them is the step of the
    thread that calls it, and the assertions of the global list hold because they hold in the machine. */
module QueueSteps {
  import opened Wrappers
  import opened Scheduler
  import opened SchedulerTheorems
  import opened MessageQueues

  ghost predicate Reachable(s: State) {
    exists threads: nat, moves: seq<Move> :: s == Run(Init(threads), moves)
  }

  lemma StepReaches(s: State, i: Thread, c: Choice)
    requires Reachable(s)
    ensures Reachable(Step(s, i, c)) && Step(s, i, c).ok
  {
    hide Step;
    var threads: nat, moves: seq<Move> :| s == Run(Init(threads), moves);
    var more := moves + [Move(i, c)];
    assert more[..|more| - 1] == moves;
    AssertionsHold(threads, more);
    assert Step(s, i, c) == Run(Init(threads), more);
  }

  /** The queues that are not freed, by handle. */
  type Queues = map<Id, MessageQueue>

  /** The queue holds what the machine says, wherever it is linked. */
  ghost predicate Like(mq: MessageQueue, v: Service)
    reads mq`queue, mq`cap, mq`head, mq`tail, mq`overloadThreshold, mq`inGlobal, mq`release, mq.queue
  {
    mq.Valid() && mq.Contents() == v.messages && mq.inGlobal == v.inGlobal && mq.release == v.release
  }

  /** Every queue that is not freed is stored, apart from the others. */
  ghost predicate Kept(s: State, queues: Queues)
    reads queues.Values, set q | q in queues :: queues[q].queue
  {
    && (forall q :: q in queues <==> Alive(s, q))
    && (forall q :: q in queues ==> queues[q].handle == q && Like(queues[q], s.services[q]))
    && (forall p, q :: p in queues && q in queues && p != q ==> queues[p].queue != queues[q].queue)
  }

  /** The global list links what the machine lists, and the other queues have no link. */
  ghost predicate Linked(s: State, g: GlobalQueue, queues: Queues)
    reads g, g.listed, queues.Values
  {
    && g.Valid() && |g.listed| == |s.global|
    && (forall q :: q in queues ==> queues[q].handle == q)
    && (forall k :: 0 <= k < |s.global| ==> s.global[k] in queues && g.listed[k] == queues[s.global[k]])
    && (forall q :: q in queues && q !in s.global ==> queues[q].next == null)
  }

  /** What is stored is what the state of the machine says. */
  ghost predicate Stored(s: State, g: GlobalQueue, queues: Queues)
    reads g, g.listed, queues.Values, set q | q in queues :: queues[q].queue
  {
    Kept(s, queues) && Linked(s, g, queues)
  }

  /** The queues listed are those the machine lists. */
  lemma ListedAre(s: State, g: GlobalQueue, queues: Queues)
    requires Linked(s, g, queues)
    ensures forall q :: q in queues ==> (queues[q] in g.listed <==> q in s.global)
  {
    forall q | q in queues ensures queues[q] in g.listed <==> q in s.global {
      forall k | 0 <= k < |s.global| ensures g.listed[k] == queues[q] <==> s.global[k] == q {
        assert queues[s.global[k]].handle == s.global[k];
      }
    }
  }

  lemma ListedKept(s: State, g: GlobalQueue, queues: Queues)
    requires Stored(s, g, queues)
    ensures forall x :: x in g.listed ==> x in queues.Values
  {
    hide Kept;
    forall x | x in g.listed ensures x in queues.Values {
      var k :| 0 <= k < |g.listed| && g.listed[k] == x;
      assert x == queues[s.global[k]];
    }
  }

  /** skynet_globalmq_push, with its assertion. */
  method List(g: GlobalQueue, mq: MessageQueue, ghost s: State, ghost queues: Queues)
    requires Stored(s, g, queues) && mq.handle in queues && queues[mq.handle] == mq
    requires GlobalPush(s, mq.handle).ok
    modifies g, g.listed`next
    ensures Stored(GlobalPush(s, mq.handle), g, queues)
  {
    hide Like;
    ListedAre(s, g, queues);
    g.Push(mq);
    ghost var t := GlobalPush(s, mq.handle);
    forall k | 0 <= k < |t.global| ensures t.global[k] in queues && g.listed[k] == queues[t.global[k]] {
      if k < |s.global| { assert t.global[k] == s.global[k]; }
    }
    forall q | q in queues && q !in t.global ensures queues[q].next == null {
      assert q !in s.global;
    }
  }

  /** A queue of a thread's step. */
  ghost predicate Has(queues: Queues, q: Id, mq: MessageQueue) { q in queues && queues[q] == mq }

  lemma KnownHandle(s: State, g: GlobalQueue, queues: Queues, q: Id, mq: MessageQueue)
    requires Stored(s, g, queues) && Has(queues, q, mq)
    ensures mq.handle == q && Like(mq, s.services[q]) && Alive(s, q)
  {
  }

  function Pushed(v: Service, m: Message): Service {
    v.(messages := v.messages + [m], pushed := v.pushed + [m], inGlobal := true)
  }

  predicate SameQueue(v: Service, w: Service) {
    v.messages == w.messages && v.inGlobal == w.inGlobal && v.release == w.release && v.freed == w.freed
  }

  predicate SameView(s: State, t: State) {
    && s.global == t.global && s.services.Keys == t.services.Keys
    && forall q :: q in s.services ==> SameQueue(s.services[q], t.services[q])
  }

  /** The stored queues do not depend on what the threads are doing. */
  lemma SameQueues(s: State, t: State, g: GlobalQueue, queues: Queues)
    requires Stored(s, g, queues) && SameView(s, t)
    ensures Stored(t, g, queues)
  {
    forall q ensures Alive(s, q) == Alive(t, q) { assert q in s.services ==> SameQueue(s.services[q], t.services[q]); }
    forall q | q in queues ensures Like(queues[q], t.services[q]) { assert SameQueue(s.services[q], t.services[q]); }
  }

  // ----- the steps -----

  method PushOne(mq: MessageQueue, m: Message, ghost v: Service) returns (toGlobal: bool)
    requires Like(mq, v)
    modifies mq`cap, mq`head, mq`tail, mq`queue, mq`inGlobal, mq.queue
    ensures Like(mq, Pushed(v, m)) && toGlobal == !v.inGlobal
    ensures mq.queue == old(mq.queue) || fresh(mq.queue)
  {
    toGlobal := mq.Push(m);
  }

  method PutIn(g: GlobalQueue, mq: MessageQueue, m: Message, ghost s: State, ghost q: Id, ghost queues: Queues)
    returns (toGlobal: bool)
    requires Stored(s, g, queues) && Has(queues, q, mq)
    modifies mq`cap, mq`head, mq`tail, mq`queue, mq`inGlobal, mq.queue
    ensures Stored(Put(s, q, Pushed(s.services[q], m)), g, queues) && toGlobal == !s.services[q].inGlobal
  {
    hide Like;
    toGlobal := PushOne(mq, m, s.services[q]);
  }

  /** skynet_mq_push, by a thread that holds the receiver's context. */
  method PushMessage(g: GlobalQueue, mq: MessageQueue, m: Message, ghost s: State, ghost i: Thread,
                    ghost c: Choice, ghost q: Id, ghost queues: Queues)
    requires Reachable(s) && Stored(s, g, queues) && Has(queues, q, mq) && i < |s.procs|
    requires s.procs[i] == Sending(q, m) || (s.procs[i] == Holding(q) && c.Send? && c.m == m)
    modifies g, queues.Values, mq.queue
    ensures Stored(Step(s, i, c), g, queues)
  {
    hide Stored, Reachable;
    StepReaches(s, i, c);
    KnownHandle(s, g, queues, q, mq);
    ghost var t := Put(s, q, Pushed(s.services[q], m));
    var toGlobal := PutIn(g, mq, m, s, q, queues);
    if toGlobal {
      ListedKept(t, g, queues);
      KnownHandle(t, g, queues, q, mq);
      List(g, mq, t, queues);
      SameQueues(GlobalPush(t, q), Step(s, i, c), g, queues);
    } else {
      SameQueues(t, Step(s, i, c), g, queues);
    }
  }

  function Popped(v: Service): Service {
    if v.messages == [] then v.(inGlobal := false) else v.(messages := v.messages[1..])
  }

  method PopOne(mq: MessageQueue, ghost v: Service) returns (message: Option<Message>)
    requires Like(mq, v)
    modifies mq`head, mq`inGlobal, mq`overload, mq`overloadThreshold
    ensures Like(mq, Popped(v)) && message == if v.messages == [] then None else Some(v.messages[0])
  {
    message := mq.Pop();
  }

  method TakeOut(g: GlobalQueue, mq: MessageQueue, ghost s: State, ghost q: Id, ghost queues: Queues)
    returns (message: Option<Message>)
    requires Stored(s, g, queues) && Has(queues, q, mq)
    modifies mq`head, mq`inGlobal, mq`overload, mq`overloadThreshold
    ensures Stored(Put(s, q, Popped(s.services[q])), g, queues)
    ensures message == if s.services[q].messages == [] then None else Some(s.services[q].messages[0])
  {
    hide Like;
    message := PopOne(mq, s.services[q]);
  }

  /** skynet_mq_pop in the dispatch loop: the thread goes on with the message the machine says. */
  method PopMessage(g: GlobalQueue, mq: MessageQueue, ghost s: State, ghost i: Thread, ghost q: Id,
                    ghost queues: Queues) returns (message: Option<Message>)
    requires Stored(s, g, queues) && Has(queues, q, mq) && i < |s.procs| && s.procs[i].Batch? && s.procs[i].q == q
    modifies mq`head, mq`inGlobal, mq`overload, mq`overloadThreshold
    ensures var t := Step(s, i, Go);
            && Stored(t, g, queues)
            && (message.None? ==> t.procs[i] == LettingGo(q, Rest))
            && (message.Some? ==> (t.procs[i].Measuring? || t.procs[i].Calling?) && t.procs[i].m == message.value)
  {
    hide Stored;
    KnownHandle(s, g, queues, q, mq);
    message := TakeOut(g, mq, s, q, queues);
    SameQueues(Put(s, q, Popped(s.services[q])), Step(s, i, Go), g, queues);
  }

  /** _drop_queue, one turn: the empty queue is freed. */
  method DropMessage(g: GlobalQueue, mq: MessageQueue, ghost s: State, ghost i: Thread, ghost q: Id,
                    ghost queues: Queues) returns (message: Option<Message>)
    requires Reachable(s) && Stored(s, g, queues) && Has(queues, q, mq) && i < |s.procs| && s.procs[i] == Dropping(q)
    modifies mq`head, mq`inGlobal, mq`overload, mq`overloadThreshold
    ensures var t := Step(s, i, Go);
            && (message.None? ==> t.procs[i] == Idle && Stored(t, g, queues - {q}))
            && (message.Some? ==> t.procs[i] == Replying(q, message.value) && Stored(t, g, queues))
  {
    hide Stored, Reachable;
    StepReaches(s, i, Go);
    KnownHandle(s, g, queues, q, mq);
    message := TakeOut(g, mq, s, q, queues);
    ghost var t := Put(s, q, Popped(s.services[q]));
    if message.None? {
      Freed(t, g, queues, q);
      SameQueues(Put(t, q, t.services[q].(freed := true)), Step(s, i, Go), g, queues - {q});
    } else {
      SameQueues(t, Step(s, i, Go), g, queues);
    }
  }

  lemma Freed(s: State, g: GlobalQueue, queues: Queues, q: Id)
    requires Stored(s, g, queues) && q in queues && q !in s.global
    ensures Stored(Put(s, q, s.services[q].(freed := true)), g, queues - {q})
  {
  }

  /** skynet_mq_mark_release, with its assertion that this is the first time. */
  method MarkForRelease(g: GlobalQueue, mq: MessageQueue, ghost s: State, ghost i: Thread, ghost q: Id,
                    ghost queues: Queues)
    requires Reachable(s) && Stored(s, g, queues) && Has(queues, q, mq) && i < |s.procs| && s.procs[i].Marking?
    requires s.procs[i].q == q
    modifies g, queues.Values
    ensures Stored(Step(s, i, Go), g, queues)
  {
    hide Stored, Reachable;
    StepReaches(s, i, Go);
    KnownHandle(s, g, queues, q, mq);
    ghost var t := Put(s, q, s.services[q].(release := true));
    var toGlobal := Mark(g, mq, s, q, queues);
    if toGlobal {
      ListedKept(t, g, queues);
      KnownHandle(t, g, queues, q, mq);
      List(g, mq, t, queues);
      SameQueues(GlobalPush(t, q), Step(s, i, Go), g, queues);
    } else {
      SameQueues(t, Step(s, i, Go), g, queues);
    }
  }

  method Mark(g: GlobalQueue, mq: MessageQueue, ghost s: State, ghost q: Id, ghost queues: Queues)
    returns (toGlobal: bool)
    requires Stored(s, g, queues) && Has(queues, q, mq) && !s.services[q].release
    modifies mq`release
    ensures Stored(Put(s, q, s.services[q].(release := true)), g, queues) && toGlobal == !s.services[q].inGlobal
  {
    hide Like;
    toGlobal := MarkOne(mq, s.services[q]);
  }

  method MarkOne(mq: MessageQueue, ghost v: Service) returns (toGlobal: bool)
    requires Like(mq, v) && !v.release
    modifies mq`release
    ensures Like(mq, v.(release := true)) && toGlobal == !v.inGlobal
  {
    toGlobal := mq.MarkRelease();
  }

  /** skynet_globalmq_pop, by an idle thread or one that has finished a batch: the first queue of the list. */
  method TakeQueue(g: GlobalQueue, ghost s: State, ghost i: Thread, ghost queues: Queues) returns (mq: MessageQueue?)
    requires Stored(s, g, queues) && i < |s.procs| && (s.procs[i].Idle? || s.procs[i].Finished?)
    modifies g, g.listed`next
    ensures Stored(Step(s, i, Work), g, queues)
    ensures if s.global == [] then mq == null else mq != null && Has(queues, s.global[0], mq)
  {
    hide Stored;
    mq := Unlist(g, s, queues);
    SameQueues(s.(global := if s.global == [] then [] else s.global[1..]), Step(s, i, Work), g, queues);
  }

  method Unlist(g: GlobalQueue, ghost s: State, ghost queues: Queues) returns (mq: MessageQueue?)
    requires Stored(s, g, queues)
    modifies g, g.listed`next
    ensures Stored(s.(global := if s.global == [] then [] else s.global[1..]), g, queues)
    ensures if s.global == [] then mq == null else mq != null && Has(queues, s.global[0], mq)
  {
    hide Like;
    ListedAre(s, g, queues);
    mq := g.Pop();
    if s.global != [] {
      ghost var rest := s.global[1..];
      assert mq == queues[s.global[0]];
      forall k | 0 <= k < |rest| ensures rest[k] in queues && g.listed[k] == queues[rest[k]] { assert rest[k] == s.global[k + 1]; }
      forall q | q in queues && q !in rest ensures queues[q].next == null {
        if q in s.global { assert s.global == [s.global[0]] + rest; }
      }
    }
  }

  /** skynet_globalmq_push, by a thread that gives its queue back or has made a new one. */
  method PutBack(g: GlobalQueue, mq: MessageQueue, ghost s: State, ghost i: Thread, ghost q: Id, ghost queues: Queues)
    requires Reachable(s) && Stored(s, g, queues) && Has(queues, q, mq) && i < |s.procs|
    requires (s.procs[i].Returning? && s.procs[i].q == q) || s.procs[i] == Pushing(q)
    modifies g, g.listed`next
    ensures Stored(Step(s, i, Go), g, queues)
  {
    hide Stored, Reachable;
    StepReaches(s, i, Go);
    KnownHandle(s, g, queues, q, mq);
    List(g, mq, s, queues);
    SameQueues(GlobalPush(s, q), Step(s, i, Go), g, queues);
  }

  /** skynet_mq_release: a queue marked for release is dropped, another goes back on the list. */
  method ReleaseOrPutBack(g: GlobalQueue, mq: MessageQueue, ghost s: State, ghost i: Thread, ghost q: Id,
                    ghost queues: Queues) returns (drop: bool)
    requires Reachable(s) && Stored(s, g, queues) && Has(queues, q, mq) && i < |s.procs| && s.procs[i] == Unowned(q)
    modifies g, g.listed`next
    ensures Stored(Step(s, i, Go), g, queues) && Step(s, i, Go).procs[i] == if drop then Dropping(q) else Idle
  {
    hide Stored, Reachable;
    StepReaches(s, i, Go);
    KnownHandle(s, g, queues, q, mq);
    drop := mq.release;
    if drop {
      SameQueues(s, Step(s, i, Go), g, queues);
    } else {
      List(g, mq, s, queues);
      SameQueues(GlobalPush(s, q), Step(s, i, Go), g, queues);
    }
  }

  /** skynet_mq_create, for a handle not in use. */
  method CreateQueue(g: GlobalQueue, q: Id, ghost s: State, ghost i: Thread, ghost queues: Queues)
    returns (mq: MessageQueue)
    requires Stored(s, g, queues) && i < |s.procs| && s.procs[i] == Idle && q !in s.services
    ensures fresh(mq) && Stored(Step(s, i, Create(q)), g, queues[q := mq])
  {
    hide Like;
    mq := new MessageQueue(q);
    assert Like(mq, Step(s, i, Create(q)).services[q]) by { IsNew(mq, Step(s, i, Create(q)).services[q]); }
  }

  lemma IsNew(mq: MessageQueue, v: Service)
    requires mq.Valid() && mq.Contents() == [] == v.messages && mq.inGlobal == v.inGlobal && mq.release == v.release
    ensures Like(mq, v)
  {
  }

  /** The step of thread i works on a queue, or on the list of queues. */
  predicate OnQueues(s: State, i: Thread, c: Choice)
    requires i < |s.procs|
  {
    match s.procs[i]
    case Idle => c.Work? || c.Create?
    case Holding(_) => c.Send?
    case Sending(_, _) | Batch(_, _, _) | Dropping(_) | Marking(_, _) | Finished(_) | Returning(_, _) | Pushing(_) | Unowned(_) => true
    case _ => false
  }

  /** All other steps leave the queues alone. */
  lemma ElsewhereKept(s: State, i: Thread, c: Choice, g: GlobalQueue, queues: Queues)
    requires Stored(s, g, queues) && i < |s.procs| && !OnQueues(s, i, c)
    ensures Stored(Step(s, i, c), g, queues)
  {
    hide Stored;
    SameElsewhere(s, i, c);
    SameQueues(s, Step(s, i, c), g, queues);
  }

  lemma SameElsewhere(s: State, i: Thread, c: Choice)
    requires i < |s.procs| && !OnQueues(s, i, c)
    ensures SameView(s, Step(s, i, c))
  {
    hide Start, LetGo;
    match s.procs[i]
    case LettingGo(q, a) => SameLetGo(s, i, q, a);
    case Idle => SameStart(s, i, c);
    case _ =>
  }

  lemma SameStart(s: State, i: Thread, c: Choice)
    requires i < |s.procs| && !c.Work? && !c.Create?
    ensures SameView(s, Start(s, i, c))
  {
  }

  lemma SameLetGo(s: State, i: Thread, q: Id, a: After)
    requires i < |s.procs|
    ensures SameView(s, LetGo(s, i, q, a))
  {
  }
}
