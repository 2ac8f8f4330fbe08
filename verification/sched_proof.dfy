/** What every run of the scheduler keeps. */
module SchedulerProof {
  import opened Scheduler

  // ----- counting -----

  /** What a thread holds of service q: its queue, a reference to its context, the duty to mark it, the duty
      to reply. */
  datatype Load = Load(owns: int, refs: int, marks: int, replies: int)

  function One(a: Id, b: Id): int { if a == b then 1 else 0 }

  /** The queue a thread owns while it releases a context. */
  function OwnsAfter(a: After, q: Id): int {
    match a
    case Rest => 0
    case Keep(x) => One(x, q)
    case Launch(x) => One(x, q)
    case Undo(x) => One(x, q)
    case Discard(x) => One(x, q)
  }

  function LoadOf(p: Proc, q: Id): Load {
    match p
    case Idle => Load(0, 0, 0, 0)
    case Held(x) => Load(One(x, q), 0, 0, 0)
    case Unowned(x) => Load(One(x, q), 0, 0, 0)
    case Dropping(x) => Load(One(x, q), 0, 0, 0)
    case Replying(x, _) => Load(One(x, q), 0, 0, One(x, q))
    case Batch(x, _, _) => Load(One(x, q), One(x, q), 0, 0)
    case Measuring(x, _) => Load(One(x, q), One(x, q), 0, 0)
    case Calling(x, _, _) => Load(One(x, q), One(x, q), 0, 0)
    case Finished(x) => Load(One(x, q), One(x, q), 0, 0)
    case Returning(x, next) => Load(One(x, q) + One(next, q), One(x, q), 0, 0)
    case LettingGo(x, a) => Load(OwnsAfter(a, q), One(x, q), 0, 0)
    case Marking(x, a) => Load(OwnsAfter(a, q), 0, One(x, q), 0)
    case Sending(x, _) => Load(0, One(x, q), 0, 0)
    case Holding(x) => Load(0, One(x, q), 0, 0)
    case Creating(x) => Load(One(x, q), One(x, q), 0, 0)
    case Pushing(x) => Load(One(x, q), 0, 0, 0)
    case Undoing(x) => Load(One(x, q), 0, 0, 0)
  }

  function Plus(a: Load, b: Load): Load {
    Load(a.owns + b.owns, a.refs + b.refs, a.marks + b.marks, a.replies + b.replies)
  }

  function Total(procs: seq<Proc>, q: Id): Load {
    if procs == [] then Load(0, 0, 0, 0) else Plus(Total(procs[..|procs| - 1], q), LoadOf(procs[|procs| - 1], q))
  }

  function Listed(global: seq<Id>, q: Id): nat {
    if global == [] then 0 else One(global[0], q) + Listed(global[1..], q)
  }

  predicate Covers(a: Load, b: Load) {
    a.owns >= b.owns && a.refs >= b.refs && a.marks >= b.marks && a.replies >= b.replies
  }

  /** A thread holds no more than all threads do. */
  lemma PartOfTotal(procs: seq<Proc>, i: nat, q: Id)
    requires i < |procs|
    ensures Covers(Total(procs, q), LoadOf(procs[i], q)) && Covers(LoadOf(procs[i], q), Load(0, 0, 0, 0))
  {
    TotalPositive(procs[..|procs| - 1], q);
    if i < |procs| - 1 { PartOfTotal(procs[..|procs| - 1], i, q); }
  }

  lemma TotalPositive(procs: seq<Proc>, q: Id)
    ensures Covers(Total(procs, q), Load(0, 0, 0, 0))
  {
    if procs != [] { TotalPositive(procs[..|procs| - 1], q); }
  }

  /** Two threads together hold no more than all threads do. */
  lemma PairOfTotal(procs: seq<Proc>, i: nat, j: nat, q: Id)
    requires i < j < |procs|
    ensures Covers(Total(procs, q), Plus(LoadOf(procs[i], q), LoadOf(procs[j], q)))
  {
    hide LoadOf;
    var n := |procs| - 1;
    if j < n {
      PairOfTotal(procs[..n], i, j, q);
      PartOfTotal(procs, n, q);
    } else {
      PartOfTotal(procs[..n], i, q);
    }
  }

  lemma TotalUpdate(procs: seq<Proc>, i: nat, p: Proc, q: Id)
    requires i < |procs|
    ensures Plus(Total(procs[i := p], q), LoadOf(procs[i], q)) == Plus(Total(procs, q), LoadOf(p, q))
  {
    hide LoadOf;
    var n := |procs| - 1;
    if i < n {
      TotalUpdate(procs[..n], i, p, q);
      assert procs[i := p][..n] == procs[..n][i := p];
    } else {
      assert procs[i := p][..n] == procs[..n];
    }
  }

  lemma ListedPush(global: seq<Id>, x: Id, q: Id)
    ensures Listed(global + [x], q) == Listed(global, q) + One(x, q)
  {
    if global == [] {
      assert global + [x] == [x];
    } else {
      assert (global + [x])[1..] == global[1..] + [x];
      ListedPush(global[1..], x, q);
    }
  }

  lemma ListedIn(global: seq<Id>, q: Id)
    ensures q in global <==> Listed(global, q) > 0
  {
  }

  // ----- histories -----

  function Bodies(fates: seq<Fate>): (r: seq<Message>)
    ensures |r| == |fates|
  {
    seq(|fates|, k requires 0 <= k < |fates| => fates[k].m)
  }

  /** The messages dropped, in order. */
  function Drops(fates: seq<Fate>): seq<Message> {
    if fates == [] then []
    else
      var before := Drops(fates[..|fates| - 1]);
      var f := fates[|fates| - 1];
      if f.Dropped? then before + [f.m] else before
  }

  /** Once a message is dropped, so are all later ones. */
  ghost predicate DropsLast(fates: seq<Fate>) {
    forall i, j :: 0 <= i < j < |fates| && fates[i].Dropped? ==> fates[j].Dropped?
  }

  lemma BodiesAppend(fates: seq<Fate>, f: Fate)
    ensures Bodies(fates + [f]) == Bodies(fates) + [f.m]
  {
  }

  lemma DropsAppend(fates: seq<Fate>, f: Fate)
    ensures Drops(fates + [f]) == Drops(fates) + if f.Dropped? then [f.m] else []
  {
    assert (fates + [f])[..|fates|] == fates;
  }

  // ----- the invariant -----

  /** The queue has exactly one owner (the global list or a thread) while `in_global` or `release` is set and
      it is not freed, and none otherwise. */
  predicate Owned(v: Service, listed: int, t: Load) {
    listed + t.owns == if !v.freed && (v.inGlobal || v.release) then 1 else 0
  }

  /** The count is the table's reference and the threads'; when it has dropped to 0, the queue is marked, or one
      thread is about to mark it. */
  predicate Counted(v: Service, t: Load) {
    && v.refs == (if v.registered then 1 else 0) + t.refs
    && t.marks + (if v.release then 1 else 0) == (if v.refs == 0 then 1 else 0)
  }

  /** Messages are taken in the order they were pushed, and none is left where nobody will look. */
  ghost predicate Tracked(v: Service) {
    && v.pushed == Bodies(v.fates) + v.messages
    && (!v.inGlobal && !v.release ==> v.messages == [])
    && (v.freed ==> v.release && v.messages == [])
    && DropsLast(v.fates)
    && (!v.release ==> forall k :: 0 <= k < |v.fates| ==> v.fates[k].Dispatched?)
  }

  /** Every drop is answered once, in order, except the one whose reply is due. */
  predicate Answered(replies: seq<Message>, drops: seq<Message>, due: int) {
    if due == 0 then replies == drops
    else due == 1 && drops != [] && replies == drops[..|drops| - 1]
  }

  /** What holds of a service, listed so often, of which the threads hold t in all. */
  ghost predicate Sound(v: Service, listed: int, t: Load) {
    Owned(v, listed, t) && Counted(v, t) && Tracked(v) && Answered(v.replies, Drops(v.fates), t.replies)
  }

  ghost predicate ServiceInv(s: State, q: Id)
    requires q in s.services
  {
    Sound(s.services[q], Listed(s.global, q), Total(s.procs, q))
  }

  /** m is the last message taken from q, for dispatch. */
  predicate LastDispatched(s: State, q: Id, m: Message) {
    && q in s.services && s.services[q].fates != []
    && s.services[q].fates[|s.services[q].fates| - 1] == Dispatched(m)
  }

  /** What a thread in the middle of a step knows. */
  ghost predicate ProcInv(s: State, p: Proc) {
    match p
    case Dropping(q) => Alive(s, q) && s.services[q].release
    case Replying(q, m) =>
      Alive(s, q) && s.services[q].release && Drops(s.services[q].fates) != []
      && m == Drops(s.services[q].fates)[|Drops(s.services[q].fates)| - 1]
    case Measuring(q, m) => LastDispatched(s, q, m)
    case Calling(q, m, _) => LastDispatched(s, q, m)
    case _ => true
  }

  /** Nothing is asked of p itself. */
  predicate Free(p: Proc) { !p.Dropping? && !p.Replying? && !p.Measuring? && !p.Calling? }

  ghost predicate Inv(s: State) {
    && s.ok
    && (forall q :: q in s.services ==> ServiceInv(s, q))
    && (forall q :: q !in s.services ==> Listed(s.global, q) == 0 && Total(s.procs, q) == Load(0, 0, 0, 0))
    && (forall i :: 0 <= i < |s.procs| ==> ProcInv(s, s.procs[i]))
  }

  // ----- each step keeps it -----

  /** The threads' load after one of them has changed its own from `before` to `after`. */
  function Shift(t: Load, before: Load, after: Load): Load {
    Load(t.owns - before.owns + after.owns, t.refs - before.refs + after.refs,
         t.marks - before.marks + after.marks, t.replies - before.replies + after.replies)
  }

  /** A change that no dropping thread can notice. */
  predicate Quiet(v: Service, w: Service) {
    w.freed == v.freed && w.fates == v.fates && (v.release ==> w.release)
  }

  /** Nothing held or listed of services other than q changes. */
  ghost predicate Elsewhere(s: State, i: Thread, q: Id, p: Proc, global: seq<Id>)
    requires i < |s.procs|
  {
    forall x :: x != q ==>
      && Listed(global, x) + LoadOf(p, x).owns == Listed(s.global, x) + LoadOf(s.procs[i], x).owns
      && LoadOf(p, x).refs == LoadOf(s.procs[i], x).refs
      && LoadOf(p, x).marks == LoadOf(s.procs[i], x).marks
      && LoadOf(p, x).replies == LoadOf(s.procs[i], x).replies
  }

  /** The state after thread i has become p, service q has become v, and the global list `global`. */
  function After1(s: State, i: Thread, p: Proc, q: Id, v: Service, global: seq<Id>): State
    requires i < |s.procs|
  {
    State(s.services[q := v], global, s.procs[i := p], s.ok)
  }

  lemma SoundElsewhere(v: Service, listed: int, t: Load, listed1: int, t1: Load)
    requires Sound(v, listed, t)
    requires listed + t.owns == listed1 + t1.owns && t.refs == t1.refs && t.marks == t1.marks && t.replies == t1.replies
    ensures Sound(v, listed1, t1)
  {
    hide Tracked;
  }

  /** The invariant is local: after a step of thread i on service q, only q and the thread have to be looked at. */
  lemma Local(s: State, i: Thread, p: Proc, q: Id, v: Service, global: seq<Id>)
    requires Inv(s) && i < |s.procs| && Elsewhere(s, i, q, p, global)
    requires q !in s.services || Quiet(s.services[q], v) || LoadOf(s.procs[i], q).owns >= 1
    requires Sound(v, Listed(global, q), Shift(Total(s.procs, q), LoadOf(s.procs[i], q), LoadOf(p, q)))
    requires ProcInv(After1(s, i, p, q, v, global), p)
    ensures Inv(After1(s, i, p, q, v, global))
  {
    hide LoadOf, ProcInv, Listed, Quiet, Sound, Total;
    var t := After1(s, i, p, q, v, global);
    forall x ensures Total(t.procs, x) == Shift(Total(s.procs, x), LoadOf(s.procs[i], x), LoadOf(p, x)) {
      TotalUpdate(s.procs, i, p, x);
    }
    forall x | x in t.services ensures ServiceInv(t, x) {
      if x != q {
        assert ServiceInv(s, x);
        SoundElsewhere(s.services[x], Listed(s.global, x), Total(s.procs, x), Listed(t.global, x), Total(t.procs, x));
      }
    }
    forall x | x !in t.services ensures Listed(t.global, x) == 0 && Total(t.procs, x) == Load(0, 0, 0, 0) {
      TotalPositive(t.procs, x);
    }
    forall j | 0 <= j < |t.procs| ensures ProcInv(t, t.procs[j]) {
      if j != i { OthersKept(s, i, p, q, v, global, j); }
    }
  }

  /** The other threads are not disturbed by a step on q: it is new, or the change is quiet, or thread i owns it. */
  lemma OthersKept(s: State, i: Thread, p: Proc, q: Id, v: Service, global: seq<Id>, j: nat)
    requires Inv(s) && i < |s.procs| && j < |s.procs| && i != j
    requires q !in s.services || Quiet(s.services[q], v) || LoadOf(s.procs[i], q).owns >= 1
    ensures ProcInv(After1(s, i, p, q, v, global), s.procs[j])
  {
    hide Sound;
    assert ProcInv(s, s.procs[j]);
    if q in s.services && LoadOf(s.procs[i], q).owns >= 1 && LoadOf(s.procs[j], q).owns >= 1 {
      OwnerKnows(s, i, q);
      if i < j { PairOfTotal(s.procs, i, j, q); } else { PairOfTotal(s.procs, j, i, q); }
    }
  }

  // ----- what a thread can rely on -----

  /** The owner of a queue. */
  lemma OwnerKnows(s: State, i: Thread, q: Id)
    requires Inv(s) && i < |s.procs| && LoadOf(s.procs[i], q).owns >= 1
    ensures Alive(s, q) && ServiceInv(s, q) && (s.services[q].inGlobal || s.services[q].release)
    ensures Listed(s.global, q) == 0 && q !in s.global && Total(s.procs, q).owns == LoadOf(s.procs[i], q).owns == 1
  {
    hide LoadOf, Tracked, Answered, ProcInv;
    PartOfTotal(s.procs, i, q);
    ListedIn(s.global, q);
    if q in s.services { assert ServiceInv(s, q); }
  }

  /** The holder of a reference. */
  lemma HolderKnows(s: State, i: Thread, q: Id)
    requires Inv(s) && i < |s.procs| && LoadOf(s.procs[i], q).refs >= 1
    ensures Alive(s, q) && ServiceInv(s, q) && s.services[q].refs >= 1 && !s.services[q].release
    ensures Total(s.procs, q).marks == 0
  {
    hide LoadOf, Answered, ProcInv;
    PartOfTotal(s.procs, i, q);
    TotalPositive(s.procs, q);
    if q in s.services { assert ServiceInv(s, q); }
  }

  /** The thread about to mark a queue. */
  lemma MarkerKnows(s: State, i: Thread, q: Id)
    requires Inv(s) && i < |s.procs| && LoadOf(s.procs[i], q).marks >= 1
    ensures Alive(s, q) && ServiceInv(s, q) && s.services[q].refs == 0 && !s.services[q].release
    ensures !s.services[q].registered && Total(s.procs, q).refs == 0 && Total(s.procs, q).marks == 1
  {
    hide LoadOf, Answered, ProcInv;
    PartOfTotal(s.procs, i, q);
    TotalPositive(s.procs, q);
    if q in s.services { assert ServiceInv(s, q); }
  }

  lemma ListedKnown(s: State, q: Id)
    requires Inv(s) && q in s.global
    ensures Alive(s, q) && ServiceInv(s, q) && Listed(s.global, q) == 1 && Total(s.procs, q).owns == 0
    ensures s.services[q].inGlobal || s.services[q].release
  {
    hide Tracked, Answered, ProcInv;
    ListedIn(s.global, q);
    TotalPositive(s.procs, q);
    if q in s.services { assert ServiceInv(s, q); }
  }

  // ----- the steps, thread state by thread state -----

  lemma WorkKeeps(s: State, i: Thread)
    requires Inv(s) && i < |s.procs| && s.procs[i].Idle?
    ensures Inv(Start(s, i, Work))
  {
    hide Tracked, Answered, Total, Inv;
    if s.global != [] {
      var q := s.global[0];
      ListedKnown(s, q);
      var v := s.services[q];
      TouchNothing(s, i, q, Held(q), s.global[1..]);
    }
  }

  /** A thread that takes over q from the list, or changes only its own state: no service is written. */
  lemma TouchNothing(s: State, i: Thread, q: Id, p: Proc, global: seq<Id>)
    requires Inv(s) && i < |s.procs| && q in s.services && Elsewhere(s, i, q, p, global)
    requires var t := Shift(Total(s.procs, q), LoadOf(s.procs[i], q), LoadOf(p, q));
             && Listed(global, q) + t.owns == Listed(s.global, q) + Total(s.procs, q).owns
             && t.refs == Total(s.procs, q).refs && t.marks == Total(s.procs, q).marks && t.replies == Total(s.procs, q).replies
    requires ProcInv(s, p)
    ensures Inv(At(s.(global := global), i, p))
  {
    hide LoadOf, Sound, Total, Elsewhere, ProcInv, Listed;
    var v := s.services[q];
    assert ServiceInv(s, q);
    SoundElsewhere(v, Listed(s.global, q), Total(s.procs, q), Listed(global, q), Shift(Total(s.procs, q), LoadOf(s.procs[i], q), LoadOf(p, q)));
    var t := After1(s, i, p, q, v, global);
    assert t.services == s.services;
    SameProcInv(s, t, p);
    Local(s, i, p, q, v, global);
  }

  lemma SameProcInv(s: State, t: State, p: Proc)
    requires t.services == s.services && ProcInv(s, p)
    ensures ProcInv(t, p)
  {
  }

  /** A thread that changes only its own state, and holds what it held. */
  lemma MoveKeeps(s: State, i: Thread, q: Id, p: Proc)
    requires Inv(s) && i < |s.procs| && q in s.services
    requires forall x :: LoadOf(p, x) == LoadOf(s.procs[i], x)
    requires ProcInv(s, p)
    ensures Inv(At(s, i, p))
  {
    hide LoadOf, Total, Inv, ProcInv, Listed;
    TouchNothing(s, i, q, p, s.global);
  }

  /** From a to b, so many queues and so many references more are held. */
  predicate Changes(a: Load, b: Load, owns: int, refs: int) {
    b.owns == a.owns + owns && b.refs == a.refs + refs && b.marks == a.marks && b.replies == a.replies
  }

  /** p holds one reference to q more than thread i does now. */
  ghost predicate OneMoreRef(s: State, i: Thread, q: Id, p: Proc)
    requires i < |s.procs|
  {
    && (forall x :: Changes(LoadOf(s.procs[i], x), LoadOf(p, x), 0, One(q, x)))
    && Free(p)
  }

  lemma InInv(s: State, q: Id)
    requires Inv(s) && q in s.services
    ensures ServiceInv(s, q)
  {
  }

  lemma ProcInInv(s: State, i: Thread)
    requires Inv(s) && i < |s.procs|
    ensures ProcInv(s, s.procs[i])
  {
  }

  lemma GrabTracked(v: Service)
    requires Tracked(v)
    ensures Tracked(v.(refs := v.refs + 1)) && Tracked(v.(registered := false))
  {
  }

  /** A new reference, taken through the handle table. */
  lemma GrabKeeps(s: State, i: Thread, q: Id, p: Proc)
    requires Inv(s) && i < |s.procs| && Registered(s, q) && OneMoreRef(s, i, q, p)
    ensures Inv(At(Grab(s, q), i, p))
  {
    hide LoadOf, Total, Answered, Inv, Listed, Tracked;
    assert ServiceInv(s, q) by { InInv(s, q); }
    GrabTracked(s.services[q]);
    TotalPositive(s.procs, q);
    Local(s, i, p, q, s.services[q].(refs := s.services[q].refs + 1), s.global);
  }

  /** Taking a service out of the table passes the table's reference to the thread. */
  lemma RetireKeeps(s: State, i: Thread, q: Id, p: Proc)
    requires Inv(s) && i < |s.procs| && Registered(s, q) && OneMoreRef(s, i, q, p)
    ensures Inv(At(Put(s, q, s.services[q].(registered := false)), i, p))
  {
    hide LoadOf, Total, Answered, Inv, Listed, Tracked;
    assert ServiceInv(s, q) by { InInv(s, q); }
    GrabTracked(s.services[q]);
    Local(s, i, p, q, s.services[q].(registered := false), s.global);
  }

  lemma CreateKeeps(s: State, i: Thread, q: Id)
    requires Inv(s) && i < |s.procs| && s.procs[i].Idle?
    ensures Inv(Start(s, i, Create(q)))
  {
    hide Total;
    if q !in s.services {
      assert Total(s.procs, q) == Load(0, 0, 0, 0);
      Local(s, i, Creating(q), q, Service(true, 2, [], true, false, false, [], [], []), s.global);
    }
  }

  lemma LetGoKeeps(s: State, i: Thread, q: Id, a: After)
    requires Inv(s) && i < |s.procs| && s.procs[i] == LettingGo(q, a)
    ensures Inv(LetGo(s, i, q, a))
  {
    hide Total, Answered, Inv;
    HolderKnows(s, i, q);
    PartOfTotal(s.procs, i, q);
    var v := s.services[q];
    var p := if v.refs == 1 then Marking(q, a) else Resume(a);
    assert s.ok by { OkInInv(s); }
    assert LetGo(s, i, q, a) == After1(s, i, p, q, v.(refs := v.refs - 1), s.global);
    ResumeLoad(a);
    Local(s, i, p, q, v.(refs := v.refs - 1), s.global);
  }

  lemma OkInInv(s: State)
    requires Inv(s)
    ensures s.ok
  {
  }

  lemma ResumeLoad(a: After)
    ensures forall x :: LoadOf(Resume(a), x) == Load(OwnsAfter(a, x), 0, 0, 0)
    ensures Free(Resume(a))
  {
  }

  /** The list after an owner has pushed q. */
  lemma PushCounts(global: seq<Id>, q: Id)
    ensures forall x :: Listed(global + [q], x) == Listed(global, x) + One(q, x)
  {
    forall x ensures Listed(global + [q], x) == Listed(global, x) + One(q, x) { ListedPush(global, q, x); }
  }

  lemma MarkKeeps(s: State, i: Thread, q: Id, a: After)
    requires Inv(s) && i < |s.procs| && s.procs[i] == Marking(q, a)
    ensures Inv(MarkRelease(s, i, q, a))
  {
    hide Total, Answered, Inv, Listed, Resume;
    MarkerKnows(s, i, q);
    OkInInv(s);
    ListedIn(s.global, q);
    TotalPositive(s.procs, q);
    PushCounts(s.global, q);
    ResumeLoad(a);
    var v := s.services[q];
    var global := if v.inGlobal then s.global else s.global + [q];
    assert MarkRelease(s, i, q, a) == After1(s, i, Resume(a), q, v.(release := true), global);
    Local(s, i, Resume(a), q, v.(release := true), global);
  }

  /** An owner puts its queue on the global list. */
  lemma PushKeeps(s: State, i: Thread, q: Id, p: Proc)
    requires Inv(s) && i < |s.procs| && LoadOf(s.procs[i], q).owns >= 1
    requires forall x :: Changes(LoadOf(s.procs[i], x), LoadOf(p, x), -One(q, x), 0)
    requires Free(p)
    ensures Inv(At(GlobalPush(s, q), i, p))
  {
    hide Total, Inv, Listed, LoadOf;
    OwnerKnows(s, i, q);
    OkInInv(s);
    PushCounts(s.global, q);
    assert At(GlobalPush(s, q), i, p) == At(s.(global := s.global + [q]), i, p);
    TouchNothing(s, i, q, p, s.global + [q]);
  }

  lemma NextKeeps(s: State, i: Thread, q: Id)
    requires Inv(s) && i < |s.procs| && s.procs[i] == Finished(q) && s.global != []
    ensures Inv(At(s.(global := s.global[1..]), i, Returning(q, s.global[0])))
  {
    hide Total, Inv, Sound;
    ListedKnown(s, s.global[0]);
    TouchNothing(s, i, s.global[0], Returning(q, s.global[0]), s.global[1..]);
  }

  lemma EnqueueKeeps(s: State, i: Thread, q: Id, m: Message, p: Proc)
    requires Inv(s) && i < |s.procs| && LoadOf(s.procs[i], q).refs >= 1
    requires forall x :: LoadOf(p, x) == LoadOf(s.procs[i], x)
    requires Free(p)
    ensures Inv(At(Enqueue(s, q, m), i, p))
  {
    hide Total, Inv, Listed, LoadOf, Answered;
    HolderKnows(s, i, q);
    OkInInv(s);
    TotalPositive(s.procs, q);
    ListedIn(s.global, q);
    PushCounts(s.global, q);
    var v := s.services[q];
    var w := v.(messages := v.messages + [m], pushed := v.pushed + [m], inGlobal := true);
    var global := if v.inGlobal then s.global else s.global + [q];
    assert At(Enqueue(s, q, m), i, p) == After1(s, i, p, q, w, global);
    Local(s, i, p, q, w, global);
  }

  /** Taking the first message keeps the queue's history. */
  lemma TakeTracked(v: Service, f: Fate)
    requires Tracked(v) && v.messages != [] && f.m == v.messages[0] && !v.freed && (f.Dropped? <==> v.release)
    ensures Tracked(v.(messages := v.messages[1..], fates := v.fates + [f]))
    ensures Drops(v.fates + [f]) == Drops(v.fates) + if f.Dropped? then [f.m] else []
  {
    BodiesAppend(v.fates, f);
    DropsAppend(v.fates, f);
    assert v.pushed == Bodies(v.fates) + [f.m] + v.messages[1..];
  }

  lemma DropKeeps(s: State, i: Thread, q: Id)
    requires Inv(s) && i < |s.procs| && s.procs[i] == Dropping(q)
    ensures Inv(DropOne(s, i, q))
  {
    hide Total, Listed, Tracked;
    OwnerKnows(s, i, q);
    assert ProcInv(s, s.procs[i]);
    NoRepliesDue(s, i, q);
    var v := s.services[q];
    if v.messages == [] {
      var w := v.(inGlobal := false, freed := true);
      assert Tracked(w) by { FreedTracked(v); }
      Local(s, i, Idle, q, w, s.global);
    } else {
      var m := v.messages[0];
      TakeTracked(v, Dropped(m));
      Local(s, i, Replying(q, m), q, v.(messages := v.messages[1..], fates := v.fates + [Dropped(m)]), s.global);
    }
  }

  lemma FreedTracked(v: Service)
    requires Tracked(v) && v.messages == [] && v.release
    ensures Tracked(v.(inGlobal := false, freed := true))
  {
  }

  /** While one thread owns q without owing a reply, no reply is due. */
  lemma NoRepliesDue(s: State, i: Thread, q: Id)
    requires Inv(s) && i < |s.procs| && LoadOf(s.procs[i], q).owns >= 1 && LoadOf(s.procs[i], q).replies == 0
    ensures Total(s.procs, q).replies == 0
  {
    hide LoadOf, Inv, Total;
    OwnerKnows(s, i, q);
    if Total(s.procs, q).replies != 0 {
      var j := Replier(s.procs, q);
      if i < j { PairOfTotal(s.procs, i, j, q); } else { PairOfTotal(s.procs, j, i, q); }
    }
  }

  lemma Replier(procs: seq<Proc>, q: Id) returns (j: nat)
    requires Total(procs, q).replies != 0
    ensures j < |procs| && LoadOf(procs[j], q).replies == 1 && LoadOf(procs[j], q).owns == 1
  {
    var n := |procs| - 1;
    if LoadOf(procs[n], q).replies != 0 { j := n; } else { j := Replier(procs[..n], q); }
  }

  lemma ReplyKeeps(s: State, i: Thread, q: Id, m: Message, c: Choice)
    requires Inv(s) && i < |s.procs| && s.procs[i] == Replying(q, m)
    ensures Inv(Step(s, i, c))
  {
    hide Total, Listed;
    OwnerKnows(s, i, q);
    PartOfTotal(s.procs, i, q);
    assert ProcInv(s, s.procs[i]);
    var v := s.services[q];
    Local(s, i, Dropping(q), q, v.(replies := v.replies + [m]), s.global);
  }

  lemma PopKeeps(s: State, i: Thread, q: Id, more: nat, first: bool)
    requires Inv(s) && i < |s.procs| && s.procs[i] == Batch(q, more, first)
    ensures Inv(PopOne(s, i, q, more, first))
  {
    hide Total, Listed, Inv, Tracked;
    OwnerKnows(s, i, q);
    HolderKnows(s, i, q);
    var v := s.services[q];
    if v.messages == [] {
      assert Tracked(v.(inGlobal := false)) by { EmptyTracked(v); }
      Local(s, i, LettingGo(q, Rest), q, v.(inGlobal := false), s.global);
    } else {
      var f := Fate.Dispatched(v.messages[0]);
      TakeTracked(v, f);
      Local(s, i, if first then Measuring(q, f.m) else Calling(q, f.m, more), q,
            v.(messages := v.messages[1..], fates := v.fates + [f]), s.global);
    }
  }

  lemma EmptyTracked(v: Service)
    requires Tracked(v) && v.messages == []
    ensures Tracked(v.(inGlobal := false))
  {
  }

  lemma HeldKeeps(s: State, i: Thread, q: Id)
    requires Inv(s) && i < |s.procs| && s.procs[i] == Held(q)
    ensures Inv(Step(s, i, Go))
  {
    hide Inv, Grab, Registered;
    OwnerKnows(s, i, q);
    if Registered(s, q) { GrabKeeps(s, i, q, Batch(q, 0, true)); } else { MoveKeeps(s, i, q, Unowned(q)); }
  }

  lemma UnownedKeeps(s: State, i: Thread, q: Id)
    requires Inv(s) && i < |s.procs| && s.procs[i] == Unowned(q)
    ensures Inv(ReleaseQueue(s, i, q))
  {
    hide Inv, GlobalPush;
    OwnerKnows(s, i, q);
    if s.services[q].release { MoveKeeps(s, i, q, Dropping(q)); } else { PushKeeps(s, i, q, Idle); }
  }

  /** Inside a batch the owner of q only changes its own state. */
  lemma BatchKeeps(s: State, i: Thread, c: Choice)
    requires Inv(s) && i < |s.procs| && (s.procs[i].Measuring? || s.procs[i].Calling? || s.procs[i].Creating?)
    ensures Inv(Step(s, i, c))
  {
    hide Inv;
    var q := s.procs[i].q;
    OwnerKnows(s, i, q);
    assert ProcInv(s, s.procs[i]) by { ProcInInv(s, i); }
    if Step(s, i, c) != s { MoveKeeps(s, i, q, Step(s, i, c).procs[i]); }
  }

  lemma FinishedKeeps(s: State, i: Thread, q: Id, c: Choice)
    requires Inv(s) && i < |s.procs| && s.procs[i] == Finished(q)
    ensures Inv(Step(s, i, c))
  {
    hide Inv;
    OwnerKnows(s, i, q);
    if s.global == [] { MoveKeeps(s, i, q, LettingGo(q, Keep(q))); } else { NextKeeps(s, i, q); }
  }

  lemma UndoingKeeps(s: State, i: Thread, q: Id, c: Choice)
    requires Inv(s) && i < |s.procs| && s.procs[i] == Undoing(q)
    ensures Inv(Step(s, i, c))
  {
    hide Inv, Registered;
    OwnerKnows(s, i, q);
    if Registered(s, q) { RetireKeeps(s, i, q, LettingGo(q, Discard(q))); } else { MoveKeeps(s, i, q, Unowned(q)); }
  }

  lemma HoldingKeeps(s: State, i: Thread, q: Id, c: Choice)
    requires Inv(s) && i < |s.procs| && s.procs[i] == Holding(q)
    ensures Inv(Step(s, i, c))
  {
    hide Inv, Enqueue;
    HolderKnows(s, i, q);
    if c.Send? {
      EnqueueKeeps(s, i, q, c.m, Holding(q));
      EnqueueProcs(s, q, c.m);
      assert s.procs[i := Holding(q)] == s.procs;
    } else {
      MoveKeeps(s, i, q, LettingGo(q, Rest));
    }
  }

  lemma EnqueueProcs(s: State, q: Id, m: Message)
    ensures Enqueue(s, q, m).procs == s.procs
  {
  }

  lemma StartKeeps(s: State, i: Thread, c: Choice)
    requires Inv(s) && i < |s.procs| && s.procs[i].Idle?
    ensures Inv(Start(s, i, c))
  {
    hide Inv, Grab, Registered;
    match c
    case Work => WorkKeeps(s, i);
    case Send(q, m) => if Registered(s, q) { GrabKeeps(s, i, q, Sending(q, m)); }
    case Hold(q) => if Registered(s, q) { GrabKeeps(s, i, q, Holding(q)); }
    case Create(q) => CreateKeeps(s, i, q);
    case Retire(q) => if Registered(s, q) { RetireKeeps(s, i, q, LettingGo(q, Rest)); }
    case _ =>
  }

  /** Every step of every thread keeps the invariant. */
  lemma StepKeeps(s: State, i: Thread, c: Choice)
    requires Inv(s)
    ensures Inv(Step(s, i, c))
  {
    hide Inv, Start, LetGo, MarkRelease, ReleaseQueue, DropOne, PopOne, GlobalPush, Enqueue, Grab, Registered, Alive;
    if i < |s.procs| {
      match s.procs[i]
      case Idle => StartKeeps(s, i, c);
      case Held(q) => HeldKeeps(s, i, q);
      case Unowned(q) => UnownedKeeps(s, i, q);
      case Dropping(q) => DropKeeps(s, i, q);
      case Replying(q, m) => ReplyKeeps(s, i, q, m, c);
      case Batch(q, more, first) => PopKeeps(s, i, q, more, first);
      case Finished(q) => FinishedKeeps(s, i, q, c);
      case Returning(q, next) => PushKeeps(s, i, q, LettingGo(q, Keep(next)));
      case LettingGo(q, a) => LetGoKeeps(s, i, q, a);
      case Marking(q, a) => MarkKeeps(s, i, q, a);
      case Sending(q, m) => EnqueueKeeps(s, i, q, m, LettingGo(q, Rest));
      case Holding(q) => HoldingKeeps(s, i, q, c);
      case Pushing(q) => PushKeeps(s, i, q, Idle);
      case Undoing(q) => UndoingKeeps(s, i, q, c);
      case _ => BatchKeeps(s, i, c);
    }
  }

  lemma InitInv(threads: nat)
    ensures Inv(Init(threads))
  {
    hide LoadOf, Total;
    forall q ensures Total(Init(threads).procs, q) == Load(0, 0, 0, 0) { IdleTotal(threads, q); }
  }

  lemma {:induction false} IdleTotal(threads: nat, q: Id)
    ensures Total(Init(threads).procs, q) == Load(0, 0, 0, 0)
  {
    if threads > 0 {
      IdleTotal(threads - 1, q);
      assert Init(threads).procs[..threads - 1] == Init(threads - 1).procs;
    }
  }

  /** Every reachable state keeps the invariant. */
  lemma {:induction false} RunKeeps(threads: nat, moves: seq<Move>)
    ensures Inv(Run(Init(threads), moves))
    decreases |moves|
  {
    hide Inv, Step;
    if moves == [] {
      InitInv(threads);
    } else {
      var n := |moves| - 1;
      RunKeeps(threads, moves[..n]);
      StepKeeps(Run(Init(threads), moves[..n]), moves[n].thread, moves[n].choice);
    }
  }
}
