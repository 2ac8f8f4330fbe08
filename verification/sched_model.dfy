/** The actor scheduler of skynet_mq.c and skynet_server.c: any number of threads share services, their
    message queues and the global list of queues. One step is one section under a lock or one atomic
    operation, and any thread may take its next step at any time. */
module Scheduler {
  type Id = int
  type Thread = nat

  /** A message, with the handle a drop is reported to. */
  datatype Message = Message(source: Id, body: int)

  /** What became of a message taken from its queue. */
  datatype Fate = Dispatched(m: Message) | Dropped(m: Message)

  /** A service: its entry in the handle table, the references to its context, its queue with the flags
      `in_global` and `release`, and the history of the queue. */
  datatype Service = Service(
    registered: bool, refs: int,
    messages: seq<Message>, inGlobal: bool, release: bool, freed: bool,
    pushed: seq<Message>, fates: seq<Fate>, replies: seq<Message>)

  /** What a thread does after it has released a context. */
  datatype After = Rest | Keep(q: Id) | Launch(q: Id) | Undo(q: Id) | Discard(q: Id)

  /** Where a thread is; a service is named by its handle. */
  datatype Proc =
    | Idle
    | Held(q: Id)                       // q is taken from the global list
    | Unowned(q: Id)                    // no context for q: about to call skynet_mq_release
    | Dropping(q: Id)
    | Replying(q: Id, m: Message)       // m is dropped, its error reply is due
    | Batch(q: Id, more: nat, first: bool) // about to pop, with `more` iterations to follow
    | Measuring(q: Id, m: Message)      // first message taken, about to read the length
    | Calling(q: Id, m: Message, more: nat) // in the callback
    | Finished(q: Id)                   // about to look for another queue
    | Returning(q: Id, next: Id)        // about to push q back
    | LettingGo(q: Id, then_: After)    // about to release q's context
    | Marking(q: Id, then_: After)      // that was the last reference: about to mark q for release
    | Sending(q: Id, m: Message)        // holds q's context, about to push m
    | Holding(q: Id)                    // holds q's context
    | Creating(q: Id)                   // initialising the new service q
    | Pushing(q: Id)                    // about to put the new queue on the global list
    | Undoing(q: Id)                    // about to retire a service that failed to initialise

  /** `ok` is cleared when an assertion of the source fails, or freed memory or a lost reference is used. */
  datatype State = State(services: map<Id, Service>, global: seq<Id>, procs: seq<Proc>, ok: bool)

  /** The choices left open by the code. */
  datatype Choice =
    | Work | Send(dst: Id, m: Message) | Hold(dst: Id) | Create(handle: Id) | Retire(handle: Id)
    | Weight(w: int) | InitOk | InitFailed | Go

  // ----- building blocks -----

  function Resume(a: After): Proc {
    match a
    case Rest => Idle
    case Keep(q) => Held(q)
    case Launch(q) => Pushing(q)
    case Undo(q) => Undoing(q)
    case Discard(q) => Unowned(q)
  }

  function At(s: State, i: Thread, p: Proc): State
    requires i < |s.procs|
  {
    s.(procs := s.procs[i := p])
  }

  function Put(s: State, q: Id, v: Service): State { s.(services := s.services[q := v]) }

  function Check(s: State, c: bool): State { s.(ok := s.ok && c) }

  /** A queue that has not been freed. */
  predicate Alive(s: State, q: Id) { q in s.services && !s.services[q].freed }

  predicate Registered(s: State, q: Id) { q in s.services && s.services[q].registered }

  /** skynet_globalmq_push, with its assertion that the queue is in no list. */
  function GlobalPush(s: State, q: Id): State {
    Check(s, Alive(s, q) && q !in s.global).(global := s.global + [q])
  }

  /** skynet_mq_push */
  function Enqueue(s: State, q: Id, m: Message): State {
    if !Alive(s, q) then Check(s, false)
    else
      var v := s.services[q];
      var w := v.(messages := v.messages + [m], pushed := v.pushed + [m], inGlobal := true);
      if v.inGlobal then Put(s, q, w) else GlobalPush(Put(s, q, w), q)
  }

  function BatchSize(length: nat, w: int): (n: nat)
    decreases if w < 0 then 0 else w
  {
    if w < 0 then 1 else if w == 0 then length else BatchSize(length, w - 1) / 2
  }

  // ----- steps -----

  function Start(s: State, i: Thread, c: Choice): State
    requires i < |s.procs|
  {
    match c
    case Work =>
      // skynet_globalmq_pop
      if s.global == [] then s else At(s.(global := s.global[1..]), i, Held(s.global[0]))
    case Send(q, m) => if Registered(s, q) then At(Grab(s, q), i, Sending(q, m)) else s
    case Hold(q) => if Registered(s, q) then At(Grab(s, q), i, Holding(q)) else s
    case Create(q) =>
      // skynet_context_new: a handle that is not in use, two references
      if q in s.services then s
      else At(Put(s, q, Service(true, 2, [], true, false, false, [], [], [])), i, Creating(q))
    case Retire(q) =>
      if Registered(s, q) then At(Put(s, q, s.services[q].(registered := false)), i, LettingGo(q, Rest)) else s
    case _ => s
  }

  /** skynet_handle_grab on a registered service. */
  function Grab(s: State, q: Id): State
    requires q in s.services
  {
    Put(s, q, s.services[q].(refs := s.services[q].refs + 1))
  }

  /** skynet_context_release */
  function LetGo(s: State, i: Thread, q: Id, a: After): State
    requires i < |s.procs|
  {
    if q !in s.services then Check(s, false)
    else
      var v := s.services[q];
      var t := Check(Put(s, q, v.(refs := v.refs - 1)), v.refs > 0);
      if v.refs == 1 then At(t, i, Marking(q, a)) else At(t, i, Resume(a))
  }

  /** skynet_mq_mark_release */
  function MarkRelease(s: State, i: Thread, q: Id, a: After): State
    requires i < |s.procs|
  {
    if !Alive(s, q) then Check(s, false)
    else
      var v := s.services[q];
      var t := Check(Put(s, q, v.(release := true)), !v.release);
      At(if v.inGlobal then t else GlobalPush(t, q), i, Resume(a))
  }

  /** skynet_mq_release */
  function ReleaseQueue(s: State, i: Thread, q: Id): State
    requires i < |s.procs|
  {
    if !Alive(s, q) then Check(s, false)
    else if s.services[q].release then At(s, i, Dropping(q))
    else At(GlobalPush(s, q), i, Idle)
  }

  /** _drop_queue: one skynet_mq_pop; the empty queue is freed. */
  function DropOne(s: State, i: Thread, q: Id): State
    requires i < |s.procs|
  {
    if !Alive(s, q) then Check(s, false)
    else
      var v := s.services[q];
      if v.messages == [] then
        At(Check(Put(s, q, v.(inGlobal := false, freed := true)), q !in s.global), i, Idle)
      else
        var m := v.messages[0];
        At(Put(s, q, v.(messages := v.messages[1..], fates := v.fates + [Dropped(m)])), i, Replying(q, m))
  }

  /** skynet_mq_pop in the dispatch loop. */
  function PopOne(s: State, i: Thread, q: Id, more: nat, first: bool): State
    requires i < |s.procs|
  {
    if !Alive(s, q) then Check(s, false)
    else
      var v := s.services[q];
      if v.messages == [] then At(Put(s, q, v.(inGlobal := false)), i, LettingGo(q, Rest))
      else
        var m := v.messages[0];
        At(Put(s, q, v.(messages := v.messages[1..], fates := v.fates + [Dispatched(m)])), i,
           if first then Measuring(q, m) else Calling(q, m, more))
  }

  /** The next step of thread i. */
  function Step(s: State, i: Thread, c: Choice): State {
    if i >= |s.procs| then s
    else
      match s.procs[i]
      case Idle => Start(s, i, c)
      case Held(q) =>
        if Registered(s, q) then At(Grab(s, q), i, Batch(q, 0, true)) else At(s, i, Unowned(q))
      case Unowned(q) => ReleaseQueue(s, i, q)
      case Dropping(q) => DropOne(s, i, q)
      case Replying(q, m) =>
        if !Alive(s, q) then Check(s, false)
        else At(Put(s, q, s.services[q].(replies := s.services[q].replies + [m])), i, Dropping(q))
      case Batch(q, more, first) => PopOne(s, i, q, more, first)
      case Measuring(q, m) =>
        if !Alive(s, q) then Check(s, false)
        else
          var n := BatchSize(|s.services[q].messages|, if c.Weight? then c.w else -1);
          At(s, i, Calling(q, m, if n == 0 then 0 else n - 1))
      case Calling(q, m, more) => At(s, i, if more > 0 then Batch(q, more - 1, false) else Finished(q))
      case Finished(q) =>
        if s.global == [] then At(s, i, LettingGo(q, Keep(q)))
        else At(s.(global := s.global[1..]), i, Returning(q, s.global[0]))
      case Returning(q, next) => At(GlobalPush(s, q), i, LettingGo(q, Keep(next)))
      case LettingGo(q, a) => LetGo(s, i, q, a)
      case Marking(q, a) => MarkRelease(s, i, q, a)
      case Sending(q, m) => At(Enqueue(s, q, m), i, LettingGo(q, Rest))
      case Holding(q) => if c.Send? then Enqueue(s, q, c.m) else At(s, i, LettingGo(q, Rest))
      case Creating(q) =>
        if c.InitOk? then At(s, i, LettingGo(q, Launch(q)))
        else if c.InitFailed? then At(s, i, LettingGo(q, Undo(q)))
        else s
      case Pushing(q) => At(GlobalPush(s, q), i, Idle)
      case Undoing(q) =>
        if Registered(s, q) then At(Put(s, q, s.services[q].(registered := false)), i, LettingGo(q, Discard(q)))
        else At(s, i, Unowned(q))
  }

  datatype Move = Move(thread: Thread, choice: Choice)

  function Init(threads: nat): State { State(map[], [], seq(threads, _ => Idle), true) }

  /** A run of any number of threads under any schedule. */
  function Run(s: State, moves: seq<Move>): State {
    if moves == [] then s
    else
      var before := Run(s, moves[..|moves| - 1]);
      var m := moves[|moves| - 1];
      Step(before, m.thread, m.choice)
  }
}
