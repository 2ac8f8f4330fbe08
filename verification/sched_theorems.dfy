/** What the scheduler promises in every state any schedule can reach. */
module SchedulerTheorems {
  import opened Scheduler
  import opened SchedulerProof

  /** Thread i owns queue q: it took q from the global list, or is creating it. */
  predicate Owns(s: State, i: Thread, q: Id) { i < |s.procs| && LoadOf(s.procs[i], q).owns > 0 }

  /** Thread i is in the middle of a batch of q, its callback included. */
  predicate Dispatching(s: State, i: Thread, q: Id) {
    i < |s.procs| && (s.procs[i].Batch? || s.procs[i].Measuring? || s.procs[i].Calling?) && s.procs[i].q == q
  }

  lemma Twice(global: seq<Id>, i: nat, j: nat)
    requires i < j < |global| && global[i] == global[j]
    ensures Listed(global, global[i]) >= 2
  {
    if i == 0 {
      assert global[j] == global[1..][j - 1];
      ListedIn(global[1..], global[0]);
    } else {
      Twice(global[1..], i - 1, j - 1);
    }
  }

  /** Single ownership: a queue is on the global list at most once, and then no thread owns it; no two threads
      own it. Hence no two threads ever run the same service's callback. */
  lemma SingleOwner(threads: nat, moves: seq<Move>, q: Id)
    ensures var s := Run(Init(threads), moves);
            && (forall i, j :: 0 <= i < j < |s.global| ==> s.global[i] != s.global[j])
            && (q in s.global ==> forall i: Thread :: !Owns(s, i, q))
            && (forall i: Thread, j: Thread :: Owns(s, i, q) && Owns(s, j, q) ==> i == j)
            && (forall i: Thread, j: Thread :: Dispatching(s, i, q) && Dispatching(s, j, q) ==> i == j)
  {
    hide Run, Inv, LoadOf, Total, Listed;
    RunKeeps(threads, moves);
    var s := Run(Init(threads), moves);
    forall i, j | 0 <= i < j < |s.global| ensures s.global[i] != s.global[j] {
      if s.global[i] == s.global[j] {
        Twice(s.global, i, j);
        ListedKnown(s, s.global[i]);
      }
    }
    forall i: Thread | Owns(s, i, q) ensures q !in s.global { OwnerKnows(s, i, q); }
    forall i: Thread, j: Thread | Owns(s, i, q) && Owns(s, j, q) ensures i == j {
      if i < j { Alone(s, i, j, q); } else if j < i { Alone(s, j, i, q); }
    }
    forall i: Thread | Dispatching(s, i, q) ensures Owns(s, i, q) { DispatcherOwns(s, i, q); }
  }

  lemma DispatcherOwns(s: State, i: Thread, q: Id)
    requires Dispatching(s, i, q)
    ensures Owns(s, i, q)
  {
  }

  lemma Alone(s: State, i: Thread, j: Thread, q: Id)
    requires Inv(s) && i < j && Owns(s, i, q)
    ensures !Owns(s, j, q)
  {
    hide Inv, LoadOf, Total, Listed;
    if Owns(s, j, q) {
      OwnerKnows(s, i, q);
      OwnerKnows(s, j, q);
      PairOfTotal(s.procs, i, j, q);
    }
  }

  /** No assertion of the source ever fails: a queue pushed on the global list is in no list, a queue is marked
      for release once, and no thread touches a freed queue or a context it holds no reference to. */
  lemma AssertionsHold(threads: nat, moves: seq<Move>)
    ensures Run(Init(threads), moves).ok
  {
    hide Run;
    RunKeeps(threads, moves);
  }

  /** No message is lost: a queue with messages is on the global list or owned by a thread, so it will be looked
      at again; and what was pushed is what was taken, dispatched first and dropped later, followed by what
      waits, in push order. Every drop is reported once, in order, a last one possibly about to be. */
  lemma NoLostMessages(threads: nat, moves: seq<Move>, q: Id)
    ensures var s := Run(Init(threads), moves);
            q in s.services ==>
              var v := s.services[q];
              && v.pushed == Bodies(v.fates) + v.messages
              && (v.messages != [] ==> q in s.global || exists i: Thread :: Owns(s, i, q))
              && DropsLast(v.fates)
              && (v.registered ==> v.refs > 0 && !v.release && forall k :: 0 <= k < |v.fates| ==> v.fates[k].Dispatched?)
              && v.replies <= Drops(v.fates) && |Drops(v.fates)| <= |v.replies| + 1
              && ((forall i: Thread :: !Owns(s, i, q)) ==> v.replies == Drops(v.fates))
  {
    hide Run, LoadOf, Total, Listed;
    RunKeeps(threads, moves);
    var s := Run(Init(threads), moves);
    if q in s.services {
      assert ServiceInv(s, q);
      TotalPositive(s.procs, q);
      ListedIn(s.global, q);
      if Total(s.procs, q).owns > 0 { var i := SomeOwner(s, q); }
      if Total(s.procs, q).replies != 0 {
        var i := Replier(s.procs, q);
        assert Owns(s, i, q);
      }
    }
  }

  lemma SomeOwner(s: State, q: Id) returns (i: Thread)
    requires Total(s.procs, q).owns > 0
    ensures Owns(s, i, q)
  {
    i := OwnerIn(s.procs, q);
  }

  lemma OwnerIn(procs: seq<Proc>, q: Id) returns (i: nat)
    requires Total(procs, q).owns > 0
    ensures i < |procs| && LoadOf(procs[i], q).owns > 0
  {
    hide LoadOf;
    var n := |procs| - 1;
    if LoadOf(procs[n], q).owns > 0 { i := n; } else { i := OwnerIn(procs[..n], q); }
  }

  /** The callback runs with the message just taken from its own queue, and its context is alive. */
  lemma CallbackMessage(threads: nat, moves: seq<Move>, i: Thread)
    ensures var s := Run(Init(threads), moves);
            i < |s.procs| && s.procs[i].Calling? ==>
              var q := s.procs[i].q;
              Alive(s, q) && s.services[q].refs > 0 && LastDispatched(s, q, s.procs[i].m)
  {
    hide Run, Inv;
    RunKeeps(threads, moves);
    var s := Run(Init(threads), moves);
    if i < |s.procs| && s.procs[i].Calling? {
      HolderKnows(s, i, s.procs[i].q);
      ProcInInv(s, i);
    }
  }

  /** At rest, when no thread is in the middle of anything and the global list is empty, every message pushed has
      been dispatched, or dropped and reported; the queue of a service is freed exactly when its context is gone,
      and only the table refers to a context. */
  lemma AtRest(threads: nat, moves: seq<Move>, q: Id)
    ensures var s := Run(Init(threads), moves);
            s.global == [] && (forall i :: 0 <= i < |s.procs| ==> s.procs[i] == Idle) && q in s.services ==>
              var v := s.services[q];
              && v.messages == [] && v.pushed == Bodies(v.fates) && v.replies == Drops(v.fates)
              && v.refs == (if v.registered then 1 else 0)
              && (v.freed <==> !v.registered)
  {
    hide Run, LoadOf;
    RunKeeps(threads, moves);
    var s := Run(Init(threads), moves);
    if s.global == [] && (forall i :: 0 <= i < |s.procs| ==> s.procs[i] == Idle) && q in s.services {
      assert ServiceInv(s, q);
      AllIdle(s.procs, q);
    }
  }

  lemma {:induction false} AllIdle(procs: seq<Proc>, q: Id)
    requires forall i :: 0 <= i < |procs| ==> procs[i] == Idle
    ensures Total(procs, q) == Load(0, 0, 0, 0)
  {
    assert procs == Init(|procs|).procs;
    IdleTotal(|procs|, q);
  }

  /** Nothing of q's history is forgotten or rewritten from s to t. */
  predicate Grows(s: State, t: State, q: Id) {
    q in s.services ==>
      && q in t.services
      && s.services[q].pushed <= t.services[q].pushed
      && s.services[q].fates <= t.services[q].fates
      && s.services[q].replies <= t.services[q].replies
      && (s.services[q].freed ==> t.services[q].freed)
  }

  lemma PutGrows(s: State, x: Id, w: Service, q: Id)
    requires x in s.services ==>
      && s.services[x].pushed <= w.pushed && s.services[x].fates <= w.fates && s.services[x].replies <= w.replies
      && (s.services[x].freed ==> w.freed)
    ensures Grows(s, Put(s, x, w), q)
  {
  }

  lemma StartGrows(s: State, i: Thread, c: Choice, q: Id)
    requires i < |s.procs|
    ensures Grows(s, Start(s, i, c), q)
  {
  }

  lemma ContextGrows(s: State, i: Thread, x: Id, a: After, q: Id)
    requires i < |s.procs|
    ensures Grows(s, LetGo(s, i, x, a), q) && Grows(s, MarkRelease(s, i, x, a), q)
  {
    hide Resume;
  }

  lemma EnqueueGrows(s: State, x: Id, m: Message, q: Id)
    ensures Grows(s, Enqueue(s, x, m), q)
  {
  }

  lemma PopGrows(s: State, i: Thread, x: Id, more: nat, first: bool, q: Id)
    requires i < |s.procs|
    ensures Grows(s, PopOne(s, i, x, more, first), q)
  {
  }

  lemma DropGrows(s: State, i: Thread, x: Id, q: Id)
    requires i < |s.procs|
    ensures Grows(s, DropOne(s, i, x), q) && Grows(s, ReleaseQueue(s, i, x), q)
  {
  }

  lemma SameServices(s: State, t: State, q: Id)
    requires t.services == s.services
    ensures Grows(s, t, q)
  {
  }

  /** Looking for a service, replying, and giving up on a new one. */
  lemma OtherGrows(s: State, i: Thread, c: Choice, q: Id)
    requires i < |s.procs| && (s.procs[i].Held? || s.procs[i].Replying? || s.procs[i].Undoing?)
    ensures Grows(s, Step(s, i, c), q)
  {
    hide BatchSize, Grows;
    var x := s.procs[i].q;
    if q in s.services && x in s.services {
      var v := s.services[x];
      PutGrows(s, x, v.(refs := v.refs + 1), q);
      PutGrows(s, x, v.(registered := false), q);
      if s.procs[i].Replying? { PutGrows(s, x, v.(replies := v.replies + [s.procs[i].m]), q); }
    }
    var t := Step(s, i, c);
    if t.services == s.services { SameServices(s, t, q); }
    else { SameServices(Put(s, x, t.services[x]), t, q); GrowsOn(s, Put(s, x, t.services[x]), t, q); }
  }

  lemma GrowsOn(s: State, t: State, u: State, q: Id)
    requires Grows(s, t, q) && Grows(t, u, q)
    ensures Grows(s, u, q)
  {
  }

  /** History only grows, whatever step is taken. */
  lemma HistoryGrows(s: State, i: Thread, c: Choice, q: Id)
    ensures Grows(s, Step(s, i, c), q)
  {
    hide BatchSize, Start, LetGo, MarkRelease, Enqueue, PopOne, DropOne, ReleaseQueue, Grows, Grab, Registered;
    if i < |s.procs| {
      match s.procs[i]
      case Idle => StartGrows(s, i, c, q);
      case LettingGo(x, a) => ContextGrows(s, i, x, a, q);
      case Marking(x, a) => ContextGrows(s, i, x, a, q);
      case Sending(x, m) =>
        EnqueueGrows(s, x, m, q);
        SameServices(Enqueue(s, x, m), Step(s, i, c), q);
        GrowsOn(s, Enqueue(s, x, m), Step(s, i, c), q);
      case Batch(x, more, first) => PopGrows(s, i, x, more, first, q);
      case Dropping(x) => DropGrows(s, i, x, q);
      case Unowned(x) => DropGrows(s, i, x, q);
      case Holding(x) => if c.Send? { EnqueueGrows(s, x, c.m, q); } else { SameServices(s, Step(s, i, c), q); }
      case Held(_) => OtherGrows(s, i, c, q);
      case Replying(_, _) => OtherGrows(s, i, c, q);
      case Undoing(_) => OtherGrows(s, i, c, q);
      case _ => SameServices(s, Step(s, i, c), q);
    } else {
      SameServices(s, s, q);
    }
  }
}
