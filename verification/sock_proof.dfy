/** What every interleaving of workers and socket thread keeps. */
module SocketProof {
  import opened Wrappers
  import opened SocketWrites

  // ----- packages, bytes and counts -----

  /** The packages of sender k, low or high, in order. */
  function Mine(list: seq<Package>, k: nat, low: bool): seq<Package> {
    if list == [] then []
    else
      var before := Mine(list[..|list| - 1], k, low);
      var p := list[|list| - 1];
      if p.sender == k && p.low == low then before + [p] else before
  }

  lemma MineConcat(x: seq<Package>, y: seq<Package>, k: nat, low: bool)
    ensures Mine(x + y, k, low) == Mine(x, k, low) + Mine(y, k, low)
  {
    if y == [] {
      assert x + y == x;
    } else {
      assert (x + y)[..|x + y| - 1] == x + y[..|y| - 1];
      MineConcat(x, y[..|y| - 1], k, low);
    }
  }

  function Pkgs(list: seq<Item>): (r: seq<Package>)
    ensures |r| == |list| && forall i :: 0 <= i < |list| ==> r[i] == list[i].p
  {
    seq(|list|, i requires 0 <= i < |list| => list[i].p)
  }

  function DirectPkgs(d: Option<Item>): seq<Package> { if d.Some? then [d.value.p] else [] }

  function Pending(v: Server): seq<Package> { if v.Append? then [v.p] else [] }

  function PipePkgs(pipe: seq<Request>): seq<Package> {
    if pipe == [] then [] else RequestPkgs(pipe[0]) + PipePkgs(pipe[1..])
  }

  function RequestPkgs(r: Request): seq<Package> { if r.Data? then [r.p] else [] }

  lemma PipeAppend(pipe: seq<Request>, r: Request)
    ensures PipePkgs(pipe + [r]) == PipePkgs(pipe) + RequestPkgs(r)
  {
    if pipe == [] {
      assert pipe + [r] == [r];
    } else {
      assert (pipe + [r])[1..] == pipe[1..] + [r];
      PipeAppend(pipe[1..], r);
    }
  }

  /** The package a worker still has in hand. */
  function InHand(w: Worker): seq<Package> {
    match w
    case Ready => []
    case Done => []
    case Ask => []
    case AskPost => []
    case _ => [w.p]
  }

  function Bytes(list: seq<Package>): seq<Byte> {
    if list == [] then [] else Bytes(list[..|list| - 1]) + list[|list| - 1].data
  }

  lemma BytesAppend(list: seq<Package>, p: Package)
    ensures Bytes(list + [p]) == Bytes(list) + p.data
  {
    assert (list + [p])[..|list|] == list;
  }

  /** The part of a list's head that is written. */
  function HeadPart(list: seq<Item>): seq<Byte> {
    if list == [] then [] else list[0].p.data[..list[0].off]
  }

  function DirectPart(d: Option<Item>): seq<Byte> {
    if d.Some? then d.value.p.data[..d.value.off] else []
  }

  function Unsent(list: seq<Item>): int {
    if list == [] then 0 else Rest(list[0]) + Unsent(list[1..])
  }

  lemma UnsentAppend(list: seq<Item>, it: Item)
    ensures Unsent(list + [it]) == Unsent(list) + Rest(it)
  {
    if list == [] {
      assert list + [it] == [it];
    } else {
      assert (list + [it])[1..] == list[1..] + [it];
      UnsentAppend(list[1..], it);
    }
  }

  function Posting(workers: seq<Worker>): nat {
    if workers == [] then 0
    else Posting(workers[..|workers| - 1]) + if workers[|workers| - 1].Post? then 1 else 0
  }

  function One(b: bool): nat { if b then 1 else 0 }

  lemma PostingUpdate(workers: seq<Worker>, i: nat, w: Worker)
    requires i < |workers|
    ensures Posting(workers[i := w]) + One(workers[i].Post?) == Posting(workers) + One(w.Post?)
  {
    var n := |workers| - 1;
    if i < n {
      PostingUpdate(workers[..n], i, w);
      assert workers[i := w][..n] == workers[..n][i := w];
    } else {
      assert workers[i := w][..n] == workers[..n];
    }
  }

  // ----- what holds in every state -----

  predicate AllFresh(list: seq<Item>) { forall i :: 0 <= i < |list| ==> list[i].off == 0 }

  predicate TailFresh(list: seq<Item>) { forall i :: 1 <= i < |list| ==> list[i].off == 0 }

  /** The socket thread is inside send_buffer's lists. */
  predicate Draining(v: Server) { v.SendHigh? || v.SendLow? || v.Raise? || v.Finish? }

  /** At most one package is partly written, and it is the next to go on the wire. */
  ghost predicate Whole(s: State) {
    && TailFresh(s.high) && TailFresh(s.low)
    && (s.low != [] && s.low[0].off > 0 ==> s.server.Raise?)
    && (s.direct.Some? ==> AllFresh(s.high))
    && (Draining(s.server) ==> s.direct == None)
    && (s.server.SendLow? || s.server.Raise? || s.server.Finish? ==> s.high == [])
    && (s.server.Raise? ==> s.low != [])
    && (s.server.Finish? ==> s.low == [])
  }

  ghost predicate OnWire(s: State) {
    s.wire == Bytes(s.finished) + (DirectPart(s.direct) + (HeadPart(s.high) + HeadPart(s.low)))
  }

  predicate HoldsLock(w: Worker) {
    match w
    case LookHigh(_, locked) => locked
    case LookLow(_, locked) => locked
    case LookDirect(_, locked) => locked
    case LookSending(_, locked) => locked
    case Write(_) => true
    case Back(_) => true
    case Done => true
    case Ask => true
    case _ => false
  }

  predicate ServerLocked(v: Server) { Draining(v) || v.Merge? || v.Unlock? }

  /** The lock has the owner it says. */
  ghost predicate Locking(s: State) {
    && (forall i :: 0 <= i < |s.workers| ==> (HoldsLock(s.workers[i]) <==> s.lock == ByWorker(i)))
    && (ServerLocked(s.server) <==> s.lock == BySocket)
    && (s.lock.ByWorker? ==> s.lock.i < |s.workers|)
  }

  /** What a worker has seen under the lock, or before it took the lock, still holds. */
  predicate SawHigh(w: Worker) {
    ((w.LookLow? || w.LookDirect? || w.LookSending?) && w.locked) || w.Write?
  }

  predicate SawDirect(w: Worker) { (w.LookSending? && w.locked) || w.Write? }

  predicate SawSending(w: Worker) { w.TryLock? || (w.LookHigh? && w.locked) || SawHigh(w) }

  /** A package that may be written directly. */
  predicate Direct(w: Worker) {
    w.LookHigh? || w.LookLow? || w.LookDirect? || w.LookSending? || w.TryLock? || w.Write?
  }

  predicate Nothing(list: seq<Package>, k: nat) { Mine(list, k, false) == [] && Mine(list, k, true) == [] }

  ghost predicate WorkerKnows(s: State, i: nat)
    requires i < |s.workers|
  {
    var w := s.workers[i];
    && (SawHigh(w) ==> AllFresh(s.high) && Mine(Pkgs(s.high), i, false) == [])
    && (SawDirect(w) ==> s.direct == None)
    && (SawSending(w) ==> Nothing(Pending(s.server), i) && Nothing(PipePkgs(s.pipe), i))
    && (InHand(w) != [] ==> InHand(w)[0].sender == i)
    && (Direct(w) ==> !w.p.low)
  }

  ghost predicate Knowing(s: State) {
    forall i :: 0 <= i < |s.workers| ==> WorkerKnows(s, i)
  }

  /** `sending` counts the data requests sent or about to be, up to the end of their handling. */
  predicate Counted(s: State) {
    s.sending == |PipePkgs(s.pipe)| + One(s.server.Append? || s.server.Release?) + Posting(s.workers)
  }

  /** wb_size is what the lists have left to write. */
  predicate Sized(s: State) { s.wbSize == Unsent(s.high) + Unsent(s.low) }

  /** Only low packages are on the low list, and only high ones are written directly. */
  ghost predicate Sorted(s: State) {
    && (forall i :: 0 <= i < |s.low| ==> s.low[i].p.low)
    && (s.direct.Some? ==> !s.direct.value.p.low)
  }

  predicate Asking(w: Worker) { w.Ask? || w.AskPost? }

  /** Whatever is unsent will be: the write event is on, or somebody is about to ask for it. */
  ghost predicate Awake(s: State) {
    && (s.high != [] || s.low != [] ==> s.writing)
    && (ServerLocked(s.server) && !s.server.Unlock? ==> s.writing)
    && (s.direct.Some? ==>
          s.writing || EnableWrite in s.pipe || exists i :: 0 <= i < |s.workers| && Asking(s.workers[i]))
  }

  /** A low package whose bytes are apart from its pointer upsets the first assertion of send_buffer_. */
  predicate Plain(p: Package) { !(p.low && p.apart) }

  ghost predicate AllPlain(list: seq<Package>) { forall i :: 0 <= i < |list| ==> Plain(list[i]) }

  ghost predicate PlainState(s: State) {
    && s.ok && AllPlain(Pkgs(s.low)) && AllPlain(Pending(s.server)) && AllPlain(PipePkgs(s.pipe))
    && (forall i :: 0 <= i < |s.workers| ==> AllPlain(InHand(s.workers[i])))
  }

  ghost predicate Sane(s: State) { AllPlain(s.submitted) ==> PlainState(s) }

  type Packages = seq<Package>

  function Chain(a: Packages, b: Packages, c: Packages, d: Packages, e: Packages, f: Packages, g: Packages): Packages {
    a + (b + (c + (d + (e + (f + g)))))
  }

  /** A sender's packages of one priority on their way: written, kept from a direct write, listed, being listed,
      in the pipe, in hand. */
  function Stream(s: State, k: nat, low: bool): seq<Package> {
    Chain(Mine(s.finished, k, low), Mine(DirectPkgs(s.direct), k, low), Mine(Pkgs(s.high), k, low),
          Mine(Pkgs(s.low), k, low), Mine(Pending(s.server), k, low), Mine(PipePkgs(s.pipe), k, low),
          if k < |s.workers| then Mine(InHand(s.workers[k]), k, low) else [])
  }

  ghost predicate Ordered(s: State) {
    forall k: nat, low: bool :: Stream(s, k, low) == Mine(s.submitted, k, low)
  }

  ghost predicate Inv(s: State) {
    Whole(s) && OnWire(s) && Locking(s) && Knowing(s) && Counted(s) && Sized(s) && Sorted(s) && Awake(s)
    && Sane(s) && Ordered(s)
  }

  // ----- what one step of a worker changes -----

  /** From w to v the lock is untouched, taken, or given back. */
  predicate LockMove(i: nat, w: Worker, v: Worker, before: Lock, after: Lock) {
    || (before == after && HoldsLock(w) == HoldsLock(v))
    || (before == Free && after == ByWorker(i) && !HoldsLock(w) && HoldsLock(v))
    || (after == Free && HoldsLock(w) && !HoldsLock(v))
  }

  /** What the worker holds of a package, and what it has sent. */
  predicate HandMove(s: State, t: State, w: Worker, v: Worker, i: nat) {
    if w.Ready? && v != Ready then
      && InHand(v) != [] && v.p.sender == i && t.submitted == s.submitted + [v.p] && t.pipe == s.pipe
      && (v.p.low ==> v.Count?)
    else
      && t.submitted == s.submitted
      && (if w.Post? then t.pipe == s.pipe + [Data(w.p)] && v == Ready
          else if w.AskPost? then t.pipe == s.pipe + [EnableWrite] && v == Ready
          else t.pipe == s.pipe && (w.Write? || InHand(v) == InHand(w)))
  }

  predicate SightMove(s: State, w: Worker, v: Worker) {
    && (SawHigh(v) ==> SawHigh(w) || (w.LookHigh? && w.locked && s.high == []))
    && (SawDirect(v) ==> SawDirect(w) || s.direct == None)
    && (SawSending(v) ==> SawSending(w) || s.sending == 0)
    && (Direct(v) ==> Direct(w) || w.Ready?)
    && (Asking(v) ==> w.Write? || Asking(w))
    && (Asking(w) ==> Asking(v) || w.AskPost?)
  }

  predicate CountMove(s: State, t: State, w: Worker, v: Worker) {
    if w.Post? then t.sending == s.sending && v == Ready else t.sending == s.sending + One(v.Post?)
  }

  predicate SharedMove(s: State, t: State) {
    t.high == s.high && t.low == s.low && t.wbSize == s.wbSize && t.writing == s.writing && t.server == s.server && t.ok == s.ok
  }

  predicate WriteMove(s: State, t: State, w: Worker, v: Worker) {
    if w.Write? then
      exists n: nat :: n <= |w.p.data| && t.wire == s.wire + w.p.data[..n] &&
        (if n == |w.p.data| then t.direct == s.direct && t.finished == s.finished + [w.p] && v == Done
         else t.direct == Some(Buffer(w.p, n)) && t.finished == s.finished && v == Ask)
    else t.wire == s.wire && t.direct == s.direct && t.finished == s.finished
  }

  lemma FrameEffect(s: State, i: nat, w: Worker, c: Choice)
    ensures var (t, v) := WorkerMove(s, i, w, c); SharedMove(s, t)
  {
  }

  lemma LockEffect(s: State, i: nat, w: Worker, c: Choice)
    requires HoldsLock(w) ==> s.lock == ByWorker(i)
    ensures var (t, v) := WorkerMove(s, i, w, c); LockMove(i, w, v, s.lock, t.lock)
  {
  }

  lemma HandEffect(s: State, i: nat, w: Worker, c: Choice)
    ensures var (t, v) := WorkerMove(s, i, w, c); HandMove(s, t, w, v, i)
  {
  }

  lemma SightEffect(s: State, i: nat, w: Worker, c: Choice)
    ensures var (t, v) := WorkerMove(s, i, w, c); SightMove(s, w, v)
  {
  }

  lemma CountEffect(s: State, i: nat, w: Worker, c: Choice)
    ensures var (t, v) := WorkerMove(s, i, w, c); CountMove(s, t, w, v)
  {
  }

  lemma WriteEffect(s: State, i: nat, w: Worker, c: Choice)
    ensures var (t, v) := WorkerMove(s, i, w, c); WriteMove(s, t, w, v)
  {
    if w.Write? {
      var n := Written(c, |w.p.data|);
      assert WorkerMove(s, i, w, c) == WriteDirect(s, w.p, n);
    }
  }

  /** A step of worker i, as its effects. */
  lemma WorkerEffect(s: State, i: nat, c: Choice)
    requires i < |s.workers| && (HoldsLock(s.workers[i]) ==> s.lock == ByWorker(i))
    ensures var t, w := WorkerStep(s, i, c), s.workers[i];
            && |t.workers| == |s.workers| && t.workers == s.workers[i := t.workers[i]] && SharedMove(s, t)
            && LockMove(i, w, t.workers[i], s.lock, t.lock) && CountMove(s, t, w, t.workers[i])
            && HandMove(s, t, w, t.workers[i], i) && SightMove(s, w, t.workers[i]) && WriteMove(s, t, w, t.workers[i])
  {
    hide WorkerMove, LockMove, HoldsLock;
    var w := s.workers[i];
    FrameEffect(s, i, w, c);
    LockEffect(s, i, w, c);
    HandEffect(s, i, w, c);
    SightEffect(s, i, w, c);
    CountEffect(s, i, w, c);
    WriteEffect(s, i, w, c);
  }

  // ----- every step of a worker keeps the invariant -----

  lemma WorkerLocking(s: State, i: nat, c: Choice)
    requires Locking(s) && i < |s.workers|
    ensures Locking(WorkerStep(s, i, c))
  {
    hide WorkerStep, HandMove, SightMove, WriteMove, HoldsLock;
    WorkerEffect(s, i, c);
  }

  /** A worker under the lock keeps the socket thread out of send_buffer. */
  lemma LockedOut(s: State, i: nat)
    requires Locking(s) && i < |s.workers| && HoldsLock(s.workers[i])
    ensures !ServerLocked(s.server) && s.lock == ByWorker(i)
    ensures forall j :: 0 <= j < |s.workers| && j != i ==> !HoldsLock(s.workers[j])
  {
    hide HoldsLock;
  }

  lemma WorkerWhole(s: State, i: nat, c: Choice)
    requires Inv(s) && i < |s.workers|
    ensures Whole(WorkerStep(s, i, c)) && Sorted(WorkerStep(s, i, c)) && Sized(WorkerStep(s, i, c))
  {
    hide WorkerStep, HandMove, SightMove, LockMove, OnWire, Ordered, Counted, Sane, Awake, Mine, Pkgs, PipePkgs, InHand, Nothing;
    WorkerEffect(s, i, c);
    assert WorkerKnows(s, i);
    if s.workers[i].Write? { LockedOut(s, i); }
  }

  lemma WorkerCounted(s: State, i: nat, c: Choice)
    requires Locking(s) && Counted(s) && i < |s.workers|
    ensures Counted(WorkerStep(s, i, c))
  {
    hide WorkerStep, SightMove, LockMove, Locking, InHand, WriteMove;
    var t, w := WorkerStep(s, i, c), s.workers[i];
    assert HoldsLock(w) ==> s.lock == ByWorker(i) by { LockOf(s, i); }
    WorkerEffect(s, i, c);
    PostingUpdate(s.workers, i, t.workers[i]);
    if w.Post? { PipeAppend(s.pipe, Data(w.p)); }
    if w.AskPost? { PipeAppend(s.pipe, EnableWrite); }
  }

  lemma LockOf(s: State, i: nat)
    requires Locking(s) && i < |s.workers|
    ensures HoldsLock(s.workers[i]) ==> s.lock == ByWorker(i)
  {
  }

  lemma WorkerAwake(s: State, i: nat, c: Choice)
    requires Locking(s) && Awake(s) && i < |s.workers|
    ensures Awake(WorkerStep(s, i, c))
  {
    hide WorkerStep, LockMove, Locking, InHand, HoldsLock;
    var t, w := WorkerStep(s, i, c), s.workers[i];
    LockOf(s, i);
    WorkerEffect(s, i, c);
    if t.direct.Some? && !s.writing {
      if s.direct.Some? && EnableWrite !in s.pipe {
        var j :| 0 <= j < |s.workers| && Asking(s.workers[j]);
        if j != i { assert Asking(t.workers[j]); }
        else if Asking(t.workers[i]) { }
        else { assert t.pipe[|s.pipe|] == EnableWrite; }
      } else if s.direct.None? {
        assert Asking(t.workers[i]);
      }
    }
  }

  lemma WorkerOnWire(s: State, i: nat, c: Choice)
    requires Inv(s) && i < |s.workers|
    ensures OnWire(WorkerStep(s, i, c))
  {
    hide WorkerStep, HandMove, SightMove, LockMove, Ordered, Counted, Sane, Awake, Sorted, Sized, Mine, Pkgs, PipePkgs, InHand, Nothing, Bytes;
    WorkerEffect(s, i, c);
    assert WorkerKnows(s, i);
    if s.workers[i].Write? {
      LockedOut(s, i);
      BytesAppend(s.finished, s.workers[i].p);
    }
  }

  lemma MineOne(p: Package, k: nat, low: bool)
    ensures Mine([p], k, low) == if p.sender == k && p.low == low then [p] else []
    ensures Mine([], k, low) == []
  {
    assert [p][..0] == [];
  }

  lemma MineAppend(list: seq<Package>, p: Package, k: nat, low: bool)
    ensures Mine(list + [p], k, low) == Mine(list, k, low) + if p.sender == k && p.low == low then [p] else []
  {
    assert (list + [p])[..|list|] == list;
  }

  /** Among low packages there are no high ones. */
  lemma NoHigh(list: seq<Package>, k: nat)
    requires forall i :: 0 <= i < |list| ==> list[i].low
    ensures Mine(list, k, false) == []
  {
  }

  /** A worker that has read `sending` as 0 knows that nothing is under way. */
  lemma NothingSent(s: State, k: nat)
    requires Counted(s) && s.sending == 0
    ensures Nothing(Pending(s.server), k) && Nothing(PipePkgs(s.pipe), k)
  {
    assert PipePkgs(s.pipe) == [];
  }

  /** After a request of sender i, the pipe holds nothing more of other senders. */
  lemma PipeOf(s: State, t: State, i: nat, w: Worker, v: Worker, k: nat)
    requires HandMove(s, t, w, v, i) && (InHand(w) != [] ==> InHand(w)[0].sender == i)
    requires k != i || !w.Post?
    ensures Mine(PipePkgs(t.pipe), k, false) == Mine(PipePkgs(s.pipe), k, false)
    ensures Mine(PipePkgs(t.pipe), k, true) == Mine(PipePkgs(s.pipe), k, true)
  {
    if t.pipe != s.pipe {
      var r := t.pipe[|s.pipe|];
      PipeAppend(s.pipe, r);
      if r.Data? {
        MineAppend(PipePkgs(s.pipe), r.p, k, false);
        MineAppend(PipePkgs(s.pipe), r.p, k, true);
      } else {
        assert PipePkgs(s.pipe) + [] == PipePkgs(s.pipe);
      }
    }
  }

  lemma OtherKnows(s: State, i: nat, c: Choice, j: nat)
    requires Locking(s) && Knowing(s) && i < |s.workers| && j < |s.workers| && i != j
    ensures |WorkerStep(s, i, c).workers| == |s.workers| && WorkerKnows(WorkerStep(s, i, c), j)
  {
    hide WorkerStep, SightMove, LockMove, Mine, Pkgs, PipePkgs, Locking;
    var t, w := WorkerStep(s, i, c), s.workers[i];
    LockOf(s, i);
    WorkerEffect(s, i, c);
    assert WorkerKnows(s, i) && WorkerKnows(s, j);
    PipeOf(s, t, i, w, t.workers[i], j);
    if w.Write? { LockedOut(s, i); assert !SawDirect(s.workers[j]); }
  }

  lemma SelfKnows(s: State, i: nat, c: Choice)
    requires Locking(s) && Knowing(s) && Counted(s) && i < |s.workers|
    ensures |WorkerStep(s, i, c).workers| == |s.workers| && WorkerKnows(WorkerStep(s, i, c), i)
  {
    hide WorkerStep, LockMove, Mine, Pkgs, PipePkgs, Locking, Counted;
    var t, w := WorkerStep(s, i, c), s.workers[i];
    LockOf(s, i);
    WorkerEffect(s, i, c);
    assert WorkerKnows(s, i);
    if !w.Post? { PipeOf(s, t, i, w, t.workers[i], i); }
    if s.sending == 0 { NothingSent(s, i); }
    if s.high == [] { assert Pkgs(s.high) == []; NoHigh(Pkgs(s.high), i); }
  }

  lemma WorkerKnowing(s: State, i: nat, c: Choice)
    requires Locking(s) && Knowing(s) && Counted(s) && i < |s.workers|
    ensures Knowing(WorkerStep(s, i, c))
  {
    hide WorkerStep, WorkerKnows, Counted, Locking;
    SelfKnows(s, i, c);
    forall j | 0 <= j < |s.workers| ensures WorkerKnows(WorkerStep(s, i, c), j) {
      if j != i { OtherKnows(s, i, c, j); }
    }
  }

  lemma WorkerSane(s: State, i: nat, c: Choice)
    requires Locking(s) && Sane(s) && i < |s.workers|
    ensures Sane(WorkerStep(s, i, c))
  {
    hide WorkerStep, SightMove, LockMove, Locking;
    var t, w := WorkerStep(s, i, c), s.workers[i];
    LockOf(s, i);
    WorkerEffect(s, i, c);
    if AllPlain(t.submitted) {
      assert AllPlain(s.submitted) by {
        forall k | 0 <= k < |s.submitted| ensures Plain(s.submitted[k]) { assert t.submitted[k] == s.submitted[k]; }
      }
      if w.Ready? && t.workers[i] != Ready { assert t.submitted[|s.submitted|] == t.workers[i].p; }
      if w.Post? { PipeAppend(s.pipe, Data(w.p)); assert Plain(InHand(w)[0]); }
      if w.AskPost? { PipeAppend(s.pipe, EnableWrite); }
    }
  }

  // ----- moving along the stream -----

  lemma ChainSubmit(a: Packages, b: Packages, c: Packages, d: Packages, e: Packages, f: Packages, x: Packages)
    ensures Chain(a, b, c, d, e, f, x) == Chain(a, b, c, d, e, f, []) + x
  {
  }

  lemma ChainPost(a: Packages, b: Packages, c: Packages, d: Packages, e: Packages, f: Packages, x: Packages)
    ensures Chain(a, b, c, d, e, f + x, []) == Chain(a, b, c, d, e, f, x)
  {
    assert (f + x) + [] == f + x;
  }

  /** A direct write jumps the queue; none of the sender's own high packages is in it. */
  lemma ChainDirect(a: Packages, c: Packages, d: Packages, e: Packages, f: Packages, x: Packages)
    requires x == [] || (c == [] && d == [] && e == [] && f == [])
    ensures Chain(a + x, [], c, d, e, f, []) == Chain(a, [], c, d, e, f, x)
    ensures Chain(a, x, c, d, e, f, []) == Chain(a, [], c, d, e, f, x)
  {
    if x == [] { assert a + x == a; }
  }

  /** A step of worker i moves its own package along the stream, and nothing else. */
  lemma WorkerOrdered(s: State, i: nat, c: Choice, k: nat, low: bool)
    requires Inv(s) && i < |s.workers|
    ensures Stream(WorkerStep(s, i, c), k, low) == Mine(WorkerStep(s, i, c).submitted, k, low)
  {
    hide WorkerStep, WriteMove, SightMove, LockMove, CountMove, Whole, OnWire, Counted, Sized, Awake, Sane, Mine, Pkgs, PipePkgs, Locking, Chain;
    var t, w := WorkerStep(s, i, c), s.workers[i];
    LockOf(s, i);
    WorkerEffect(s, i, c);
    assert WorkerKnows(s, i) && Stream(s, k, low) == Mine(s.submitted, k, low);
    if w.Write? {
      WriteOrdered(s, t, i, k, low);
    } else {
      assert t.finished == s.finished && t.direct == s.direct by { NoWrite(s, t, w, t.workers[i]); }
      if w.Post? { PostOrdered(s, t, i, k, low); }
      else if w.AskPost? { PipeOf(s, t, i, w, t.workers[i], k); }
      else if w.Ready? && t.workers[i] != Ready { SubmitOrdered(s, t, i, k, low); }
      else { assert t.pipe == s.pipe && InHand(t.workers[i]) == InHand(w); }
    }
  }

  lemma NoWrite(s: State, t: State, w: Worker, v: Worker)
    requires WriteMove(s, t, w, v) && !w.Write?
    ensures t.finished == s.finished && t.direct == s.direct
  {
  }

  /** What a step of worker i leaves alone. */
  predicate Around(s: State, t: State, i: nat) {
    && i < |s.workers| && |t.workers| == |s.workers| && t.workers == s.workers[i := t.workers[i]]
    && t.high == s.high && t.low == s.low && t.server == s.server
  }

  lemma SubmitOrdered(s: State, t: State, i: nat, k: nat, low: bool)
    requires Around(s, t, i) && t.finished == s.finished && t.direct == s.direct && t.pipe == s.pipe
    requires s.workers[i].Ready? && InHand(t.workers[i]) != [] && t.workers[i].p.sender == i
    requires t.submitted == s.submitted + [t.workers[i].p] && Stream(s, k, low) == Mine(s.submitted, k, low)
    ensures Stream(t, k, low) == Mine(t.submitted, k, low)
  {
    hide Mine, Pkgs, PipePkgs, Chain;
    var p := t.workers[i].p;
    MineAppend(s.submitted, p, k, low);
    MineOne(p, k, low);
    if k == i {
      ChainSubmit(Mine(s.finished, k, low), Mine(DirectPkgs(s.direct), k, low), Mine(Pkgs(s.high), k, low),
                  Mine(Pkgs(s.low), k, low), Mine(Pending(s.server), k, low), Mine(PipePkgs(s.pipe), k, low), Mine([p], k, low));
    } else {
      assert Mine(s.submitted, k, low) + [] == Mine(s.submitted, k, low);
    }
  }

  lemma PostOrdered(s: State, t: State, i: nat, k: nat, low: bool)
    requires Around(s, t, i) && t.finished == s.finished && t.direct == s.direct && t.submitted == s.submitted
    requires s.workers[i].Post? && s.workers[i].p.sender == i && t.workers[i] == Ready
    requires t.pipe == s.pipe + [Data(s.workers[i].p)] && Stream(s, k, low) == Mine(s.submitted, k, low)
    ensures Stream(t, k, low) == Mine(t.submitted, k, low)
  {
    hide Mine, Pkgs, PipePkgs, Chain;
    var p := s.workers[i].p;
    PipeAppend(s.pipe, Data(p));
    MineAppend(PipePkgs(s.pipe), p, k, low);
    MineOne(p, k, low);
    if k == i {
      ChainPost(Mine(s.finished, k, low), Mine(DirectPkgs(s.direct), k, low), Mine(Pkgs(s.high), k, low),
                Mine(Pkgs(s.low), k, low), Mine(Pending(s.server), k, low), Mine(PipePkgs(s.pipe), k, low), Mine([p], k, low));
    } else {
      assert Mine(PipePkgs(s.pipe), k, low) + [] == Mine(PipePkgs(s.pipe), k, low);
    }
  }

  lemma WriteOrdered(s: State, t: State, i: nat, k: nat, low: bool)
    requires Around(s, t, i) && s.workers[i].Write? && WorkerKnows(s, i) && Sorted(s)
    requires WriteMove(s, t, s.workers[i], t.workers[i]) && HandMove(s, t, s.workers[i], t.workers[i], i)
    requires Stream(s, k, low) == Mine(s.submitted, k, low)
    ensures Stream(t, k, low) == Mine(t.submitted, k, low)
  {
    hide Mine, Pkgs, PipePkgs, Chain;
    var p := s.workers[i].p;
    assert p.sender == i && !p.low by { assert InHand(s.workers[i]) == [p]; }
    MineAppend(s.finished, p, k, low);
    MineOne(p, k, low);
    var x := Mine([p], k, low);
    NoHigh(Pkgs(s.low), k);
    if k != i { assert Mine(s.finished, k, low) + [] == Mine(s.finished, k, low); }
    ChainDirect(Mine(s.finished, k, low), Mine(Pkgs(s.high), k, low), Mine(Pkgs(s.low), k, low),
                Mine(Pending(s.server), k, low), Mine(PipePkgs(s.pipe), k, low), x);
  }

  lemma WorkerKeeps(s: State, i: nat, c: Choice)
    requires Inv(s) && i < |s.workers|
    ensures Inv(WorkerStep(s, i, c))
  {
    hide WorkerStep, Whole, OnWire, Locking, Knowing, Counted, Sized, Sorted, Awake, Sane, Stream, Mine;
    WorkerLocking(s, i, c);
    WorkerWhole(s, i, c);
    WorkerCounted(s, i, c);
    WorkerAwake(s, i, c);
    WorkerOnWire(s, i, c);
    WorkerKnowing(s, i, c);
    WorkerSane(s, i, c);
    forall k: nat, low: bool ensures Stream(WorkerStep(s, i, c), k, low) == Mine(WorkerStep(s, i, c).submitted, k, low) {
      WorkerOrdered(s, i, c, k, low);
    }
  }

  // ----- every step of the socket thread keeps the invariant -----

  /** The parts of the invariant about the socket thread's own data. */
  ghost predicate Easy(s: State) { Locking(s) && Whole(s) && Sorted(s) && Sized(s) && Counted(s) && Awake(s) }

  lemma CommandEasy(s: State)
    requires Inv(s) && s.server.Poll?
    ensures Easy(TakeCommand(s))
  {
    hide Written, HoldsLock, Sane, Ordered, OnWire, Knowing, Posting, Bytes, Mine;
  }

  lemma EventEasy(s: State)
    requires Inv(s) && s.server.Poll? && s.writing && s.lock == Free
    ensures Easy(s.(lock := BySocket, server := Merge))
  {
    hide Written, HoldsLock, Sane, Ordered, OnWire, Knowing, Posting, Bytes, Mine;
  }

  lemma AppendSized(s: State)
    requires Sized(s) && s.server.Append?
    ensures Sized(AppendPackage(s, s.server.p))
  {
    UnsentAppend(s.high, Buffer(s.server.p, 0));
    UnsentAppend(s.low, Buffer(s.server.p, 0));
    assert s.high == [] ==> s.high + [Buffer(s.server.p, 0)] == [Buffer(s.server.p, 0)];
  }

  lemma AppendEasy(s: State)
    requires Inv(s) && s.server.Append?
    ensures Easy(AppendPackage(s, s.server.p))
  {
    hide Written, HoldsLock, Sane, Ordered, OnWire, Knowing, Posting, Bytes, Mine, PipePkgs, Unsent, Sized;
    AppendSized(s);
  }

  lemma ReleaseEasy(s: State)
    requires Inv(s) && s.server.Release?
    ensures s.sending > 0
    ensures Easy(s.(sending := s.sending - 1, server := Poll))
  {
    hide Written, HoldsLock, Sane, Ordered, OnWire, Knowing, Posting, Bytes, Mine;
  }

  lemma MergeEasy(s: State)
    requires Inv(s) && s.server.Merge?
    ensures Easy(MergeDirect(s))
  {
    hide Written, HoldsLock, Sane, Ordered, OnWire, Knowing, Posting, Bytes, Mine;
    if s.direct.Some? { assert ([s.direct.value] + s.high)[1..] == s.high; }
  }

  lemma HighEasy(s: State, c: Choice)
    requires Inv(s) && s.server.SendHigh?
    ensures Easy(SendFromHigh(s, c))
  {
    hide Written, HoldsLock, Sane, Ordered, OnWire, Knowing, Posting, Bytes, Mine;
  }

  lemma LowEasy(s: State, c: Choice)
    requires Inv(s) && s.server.SendLow?
    ensures Easy(SendFromLow(s, c))
  {
    hide Written, HoldsLock, Sane, Ordered, OnWire, Knowing, Posting, Bytes, Mine;
  }

  lemma RaiseEasy(s: State)
    requires Inv(s) && s.server.Raise?
    ensures Easy(RaiseHead(s))
  {
    hide Written, HoldsLock, Sane, Ordered, OnWire, Knowing, Posting, Bytes, Mine;
    assert [s.low[0]][1..] == [];
  }

  lemma FinishEasy(s: State)
    requires Inv(s) && s.server.Finish?
    ensures Easy(s.(writing := false, server := Unlock))
  {
    hide Written, HoldsLock, Sane, Ordered, OnWire, Knowing, Posting, Bytes, Mine;
  }

  lemma UnlockEasy(s: State)
    requires Inv(s) && s.server.Unlock?
    ensures Easy(s.(lock := Free, server := Poll))
  {
    hide Written, HoldsLock, Sane, Ordered, OnWire, Knowing, Posting, Bytes, Mine;
  }

  /** send_buffer moves bytes from the lists to the wire in order. */
  lemma MergeOnWire(s: State)
    requires OnWire(s) && Whole(s) && s.server.Merge?
    ensures OnWire(MergeDirect(s))
  {
    hide Bytes, HeadPart, Uncomplete;
    if s.direct.Some? {
      HeadIs([s.direct.value] + s.high);
      assert HeadPart(s.high) == [] by { HeadIs(s.high); if s.high != [] { FreshHead(s.high); } }
    }
  }

  /** More bytes of the package at the head: it is still the head, or it is finished. */
  lemma WireGrows(b: seq<Byte>, data: seq<Byte>, off: nat, n: nat)
    requires off + n <= |data|
    ensures var wire := b + ([] + (data[..off] + [])) + data[off..off + n];
            && wire == b + ([] + (data[..off + n] + []))
            && (off + n == |data| ==> wire == (b + data) + ([] + ([] + [])))
    ensures var wire := b + ([] + ([] + data[..off])) + data[off..off + n];
            && wire == b + ([] + ([] + data[..off + n]))
            && (off + n == |data| ==> wire == (b + data) + ([] + ([] + [])))
  {
    assert data[..off + n] == data[..off] + data[off..off + n];
  }

  lemma FreshHead(list: seq<Item>)
    requires list != [] && list[0].off == 0
    ensures HeadPart(list) == []
  {
  }

  lemma OnWireIs(s: State, h: seq<Byte>)
    requires s.direct == None && HeadPart(s.high) == h && HeadPart(s.low) == []
    ensures OnWire(s) <==> s.wire == Bytes(s.finished) + ([] + (h + []))
  {
  }

  /** One write from the high list, as its effects. */
  lemma HighEffect(s: State, c: Choice) returns (n: nat)
    requires s.server.SendHigh? && s.high != []
    ensures var t, it := SendFromHigh(s, c), s.high[0];
            && it.off + n <= |it.p.data| && t.direct == s.direct && t.low == s.low
            && t.wire == s.wire + it.p.data[it.off..it.off + n]
            && (if it.off + n < |it.p.data| then t.high == s.high[0 := Buffer(it.p, it.off + n)] && t.finished == s.finished
                else t.high == s.high[1..] && t.finished == s.finished + [it.p])
  {
    hide Written;
    n := Written(c, |s.high[0].p.data| - s.high[0].off);
  }

  lemma WholeHigh(s: State)
    requires Whole(s) && s.server.SendHigh?
    ensures s.direct == None && HeadPart(s.low) == [] && TailFresh(s.high)
  {
    HeadIs(s.low);
    if s.low != [] { FreshHead(s.low); }
  }

  lemma HighOnWire(s: State, c: Choice)
    requires OnWire(s) && Whole(s) && s.server.SendHigh?
    ensures OnWire(SendFromHigh(s, c))
  {
    hide Bytes, HeadPart, TailFresh, OnWire, Whole, SendFromHigh;
    WholeHigh(s);
    HeadIs(s.high);
    OnWireIs(s, HeadPart(s.high));
    var t := SendFromHigh(s, c);
    if s.high == [] {
      SendEmpty(s, c);
      OnWireSame(s, t);
    } else {
      var it := s.high[0];
      var n := HighEffect(s, c);
      BytesAppend(s.finished, it.p);
      WireGrows(Bytes(s.finished), it.p.data, it.off, n);
      if it.off + n < |it.p.data| {
        HeadIs(t.high);
        OnWireIs(t, it.p.data[..it.off + n]);
      } else {
        NextFresh(s.high);
        OnWireIs(t, []);
      }
    }
  }

  lemma SendEmpty(s: State, c: Choice)
    requires s.server.SendHigh? && s.high == []
    ensures var t := SendFromHigh(s, c);
            t.wire == s.wire && t.finished == s.finished && t.direct == s.direct && t.high == s.high && t.low == s.low
  {
  }

  lemma NextFresh(list: seq<Item>)
    requires list != [] && TailFresh(list)
    ensures HeadPart(list[1..]) == []
  {
    if |list| > 1 { assert list[1..][0].off == 0; }
  }

  lemma HeadIs(list: seq<Item>)
    ensures HeadPart([]) == [] && (list != [] ==> HeadPart(list) == list[0].p.data[..list[0].off])
  {
  }

  lemma LowOnWire(s: State, c: Choice)
    requires OnWire(s) && Whole(s) && s.server.SendLow?
    ensures OnWire(SendFromLow(s, c))
  {
    hide Bytes, Written;
    if s.low != [] {
      var it := s.low[0];
      var n := Written(c, |it.p.data| - it.off);
      BytesAppend(s.finished, it.p);
      assert |s.low| > 1 ==> HeadPart(s.low[1..]) == [] by { if |s.low| > 1 { FreshHead(s.low[1..]); } }
      hide HeadPart;
      HeadIs(s.low);
      if it.off + n < |it.p.data| { HeadIs(s.low[0 := Buffer(it.p, it.off + n)]); }
      WireGrows(Bytes(s.finished), it.p.data, it.off, n);
    }
  }

  lemma RaiseOnWire(s: State)
    requires OnWire(s) && Whole(s) && s.server.Raise?
    ensures OnWire(RaiseHead(s))
  {
    hide Bytes;
    if |s.low| > 1 { assert s.low[1].off == 0; }
  }

  lemma AppendOnWire(s: State)
    requires OnWire(s) && s.server.Append?
    ensures OnWire(AppendPackage(s, s.server.p))
  {
    hide Bytes;
  }

  /** What workers know survives a step of the socket thread. */
  lemma ServerKnowing(s: State, t: State)
    requires Knowing(s) && Locking(s) && t.workers == s.workers
    requires s.lock == BySocket || (t.direct == s.direct && (t.high == s.high || (s.server.Append? && t.high == s.high + [Buffer(s.server.p, 0)])))
    requires forall k, low :: Mine(Pending(s.server), k, low) == [] && Mine(PipePkgs(s.pipe), k, low) == []
               ==> Mine(Pending(t.server), k, low) == [] && Mine(PipePkgs(t.pipe), k, low) == []
    ensures Knowing(t)
  {
    hide Mine, PipePkgs, Pkgs;
    forall i | 0 <= i < |s.workers| ensures WorkerKnows(t, i) {
      assert WorkerKnows(s, i);
      var w := s.workers[i];
      if SawHigh(w) {
        assert HoldsLock(w);
        if t.high != s.high {
          assert Pkgs(t.high) == Pkgs(s.high) + [s.server.p];
          MineConcat(Pkgs(s.high), [s.server.p], i, false);
        }
      }
    }
  }

  lemma CommandPending(s: State, k: nat, low: bool)
    requires s.pipe != [] && s.server.Poll?
    ensures Mine(PipePkgs(s.pipe), k, low) == Mine(Pending(TakeCommand(s).server), k, low) + Mine(PipePkgs(s.pipe[1..]), k, low)
  {
    MineConcat(RequestPkgs(s.pipe[0]), PipePkgs(s.pipe[1..]), k, low);
  }

  // ----- the stream, on the socket thread's side -----

  /** The head of a list, seen from a sender. */
  lemma MineHead(list: seq<Item>, k: nat, low: bool)
    requires list != []
    ensures Mine(Pkgs(list), k, low) == Mine([list[0].p], k, low) + Mine(Pkgs(list[1..]), k, low)
  {
    assert Pkgs(list) == [list[0].p] + Pkgs(list[1..]);
    MineConcat([list[0].p], Pkgs(list[1..]), k, low);
  }

  lemma MineLast(list: seq<Item>, it: Item, k: nat, low: bool)
    ensures Mine(Pkgs(list + [it]), k, low) == Mine(Pkgs(list), k, low) + Mine([it.p], k, low)
  {
    assert Pkgs(list + [it]) == Pkgs(list) + [it.p];
    MineConcat(Pkgs(list), [it.p], k, low);
  }

  /** Taking a request from the pipe. */
  lemma ChainTake(a: Packages, b: Packages, c: Packages, d: Packages, x: Packages, f: Packages, g: Packages)
    ensures Chain(a, b, c, d, x, f, g) == Chain(a, b, c, d, [], x + f, g)
  {
  }

  /** Adding to the high list, before the low list, or to the low list. */
  lemma ChainAppend(a: Packages, b: Packages, c: Packages, d: Packages, x: Packages, f: Packages, g: Packages)
    ensures d == [] || x == [] ==> Chain(a, b, c + x, d, [], f, g) == Chain(a, b, c, d, x, f, g)
    ensures Chain(a, b, c, d + x, [], f, g) == Chain(a, b, c, d, x, f, g)
  {
    if x == [] { assert c + x == c; }
  }

  /** The head of the stream is finished, or put before the high list; the head of the low list is raised. */
  lemma ChainHead(a: Packages, x: Packages, c: Packages, d: Packages, e: Packages, f: Packages, g: Packages)
    ensures Chain(a, [], x + c, d, e, f, g) == Chain(a, x, c, d, e, f, g)
    ensures Chain(a + x, [], c, d, e, f, g) == Chain(a, [], x + c, d, e, f, g)
    ensures Chain(a + x, [], [], d, e, f, g) == Chain(a, [], [], x + d, e, f, g)
    ensures Chain(a, c, x, d, e, f, g) == Chain(a, c, [], x + d, e, f, g)
  {
  }

  /** What is left alone when the socket thread moves packages. */
  predicate Beside(s: State, t: State) {
    t.workers == s.workers && t.submitted == s.submitted
  }

  function Hand(s: State, k: nat, low: bool): Packages {
    if k < |s.workers| then Mine(InHand(s.workers[k]), k, low) else []
  }

  lemma CommandOrdered(s: State, k: nat, low: bool)
    requires s.server.Poll?
    ensures Stream(TakeCommand(s), k, low) == Stream(s, k, low)
  {
    hide Mine, Pkgs, PipePkgs, Chain;
    if s.pipe != [] {
      var t := TakeCommand(s);
      CommandPending(s, k, low);
      MineOne(Package(0, false, false, []), k, low);
      ChainTake(Mine(s.finished, k, low), Mine(DirectPkgs(s.direct), k, low), Mine(Pkgs(s.high), k, low), Mine(Pkgs(s.low), k, low),
                Mine(Pending(t.server), k, low), Mine(PipePkgs(t.pipe), k, low), Hand(s, k, low));
    }
  }

  lemma AppendOrdered(s: State, k: nat, low: bool)
    requires s.server.Append? && Sorted(s)
    ensures Stream(AppendPackage(s, s.server.p), k, low) == Stream(s, k, low)
  {
    hide Mine, Pkgs, PipePkgs, Chain;
    var p := s.server.p;
    var x := Mine([p], k, low);
    MineOne(p, k, low);
    MineLast(s.high, Buffer(p, 0), k, low);
    MineLast(s.low, Buffer(p, 0), k, low);
    NoHigh(Pkgs(s.low), k);
    if s.high == [] && s.low == [] {
      assert s.high + [Buffer(p, 0)] == [Buffer(p, 0)];
      assert Pkgs(s.low) == [];
    }
    ChainAppend(Mine(s.finished, k, low), Mine(DirectPkgs(s.direct), k, low), Mine(Pkgs(s.high), k, low), Mine(Pkgs(s.low), k, low),
                x, Mine(PipePkgs(s.pipe), k, low), Hand(s, k, low));
  }

  lemma MergeOrdered(s: State, k: nat, low: bool)
    requires s.server.Merge?
    ensures Stream(MergeDirect(s), k, low) == Stream(s, k, low)
  {
    hide Mine, Pkgs, PipePkgs, Chain, Uncomplete;
    if s.direct.Some? {
      MineOne(s.direct.value.p, k, low);
      MineHead([s.direct.value] + s.high, k, low);
      assert ([s.direct.value] + s.high)[1..] == s.high;
      ChainHead(Mine(s.finished, k, low), Mine([s.direct.value.p], k, low), Mine(Pkgs(s.high), k, low), Mine(Pkgs(s.low), k, low),
                Mine(Pending(s.server), k, low), Mine(PipePkgs(s.pipe), k, low), Hand(s, k, low));
    }
  }

  lemma HighOrdered(s: State, c: Choice, k: nat, low: bool)
    requires s.direct == None && s.server.SendHigh?
    ensures Stream(SendFromHigh(s, c), k, low) == Stream(s, k, low)
  {
    hide Mine, PipePkgs, Chain, Written;
    MineOne(Package(0, false, false, []), k, low);
    if s.high != [] {
      var it, t := s.high[0], SendFromHigh(s, c);
      MineHead(s.high, k, low);
      MineConcat(s.finished, [it.p], k, low);
      if t.finished == s.finished { assert Pkgs(t.high) == Pkgs(s.high); }
      ChainHead(Mine(s.finished, k, low), Mine([it.p], k, low), Mine(Pkgs(s.high[1..]), k, low), Mine(Pkgs(s.low), k, low),
                Mine(Pending(s.server), k, low), Mine(PipePkgs(s.pipe), k, low), Hand(s, k, low));
    }
  }

  lemma LowOrdered(s: State, c: Choice, k: nat, low: bool)
    requires s.direct == None && s.server.SendLow? && s.high == []
    ensures Stream(SendFromLow(s, c), k, low) == Stream(s, k, low)
  {
    hide Mine, PipePkgs, Chain, Written;
    MineOne(Package(0, false, false, []), k, low);
    if s.low != [] {
      var it, t := s.low[0], SendFromLow(s, c);
      MineHead(s.low, k, low);
      MineConcat(s.finished, [it.p], k, low);
      assert Pkgs(s.high) == [];
      if t.finished == s.finished { assert Pkgs(t.low) == Pkgs(s.low); }
      ChainHead(Mine(s.finished, k, low), Mine([it.p], k, low), [], Mine(Pkgs(s.low[1..]), k, low),
                Mine(Pending(s.server), k, low), Mine(PipePkgs(s.pipe), k, low), Hand(s, k, low));
    }
  }

  lemma RaiseOrdered(s: State, k: nat, low: bool)
    requires s.server.Raise? && s.high == []
    ensures Stream(RaiseHead(s), k, low) == Stream(s, k, low)
  {
    hide Mine, PipePkgs, Chain;
    if Uncomplete(s.low) {
      MineHead(s.low, k, low);
      MineOne(s.low[0].p, k, low);
      assert Pkgs(s.high) == [] && Pkgs([s.low[0]]) == [s.low[0].p];
      ChainHead(Mine(s.finished, k, low), Mine([s.low[0].p], k, low), Mine(DirectPkgs(s.direct), k, low), Mine(Pkgs(s.low[1..]), k, low),
                Mine(Pending(s.server), k, low), Mine(PipePkgs(s.pipe), k, low), Hand(s, k, low));
    }
  }

  /** No step of the socket thread reorders a stream. */
  lemma ServerOrdered(s: State, c: Choice, k: nat, low: bool)
    requires Whole(s) && Sorted(s)
    ensures Stream(ServerStep(s, c), k, low) == Stream(s, k, low)
    ensures ServerStep(s, c).submitted == s.submitted && ServerStep(s, c).workers == s.workers
  {
    hide Mine, Pkgs, PipePkgs, Chain, Written, TakeCommand, AppendPackage, MergeDirect, SendFromHigh, SendFromLow, RaiseHead;
    BesideSteps(s, c);
    match s.server
    case Poll => if c.Command? { CommandOrdered(s, k, low); }
    case Append(p) => AppendOrdered(s, k, low);
    case Merge => MergeOrdered(s, k, low);
    case SendHigh => HighOrdered(s, c, k, low);
    case SendLow => LowOrdered(s, c, k, low);
    case Raise => RaiseOrdered(s, k, low);
    case _ =>
  }

  /** What draining leaves alone. */
  predicate Calm(s: State, t: State) { Beside(s, t) && t.pipe == s.pipe && !t.server.Append? }

  lemma HighCalm(s: State, c: Choice)
    requires s.server.SendHigh?
    ensures Calm(s, SendFromHigh(s, c))
  {
    hide Written;
  }

  lemma LowCalm(s: State, c: Choice)
    requires s.server.SendLow?
    ensures Calm(s, SendFromLow(s, c))
  {
    hide Written;
  }

  lemma MergeCalm(s: State)
    ensures Calm(s, MergeDirect(s)) && Calm(s, RaiseHead(s))
  {
    hide Uncomplete;
  }

  lemma DrainCalm(s: State, c: Choice)
    requires ServerLocked(s.server)
    ensures Calm(s, ServerStep(s, c))
  {
    hide MergeDirect, SendFromHigh, SendFromLow, RaiseHead;
    MergeCalm(s);
    if s.server.SendHigh? { HighCalm(s, c); }
    if s.server.SendLow? { LowCalm(s, c); }
  }

  lemma BesideSteps(s: State, c: Choice)
    ensures Beside(s, ServerStep(s, c))
  {
    hide MergeDirect, SendFromHigh, SendFromLow, RaiseHead;
    if ServerLocked(s.server) { DrainCalm(s, c); }
  }

  // ----- assertions -----

  lemma MergeSane(s: State)
    requires Whole(s) && Sorted(s) && Sane(s) && s.server.Merge?
    ensures Sane(MergeDirect(s))
  {
    if s.low != [] { assert Pkgs(s.low)[0] == s.low[0].p; }
  }

  lemma CommandSane(s: State)
    requires Sane(s) && s.server.Poll?
    ensures Sane(TakeCommand(s))
  {
    if s.pipe != [] && AllPlain(s.submitted) {
      assert PipePkgs(s.pipe) == RequestPkgs(s.pipe[0]) + PipePkgs(s.pipe[1..]);
      var n := |RequestPkgs(s.pipe[0])|;
      forall i | 0 <= i < |PipePkgs(s.pipe[1..])| ensures Plain(PipePkgs(s.pipe[1..])[i]) { assert Plain(PipePkgs(s.pipe)[n + i]); }
      forall i | 0 <= i < n ensures Plain(RequestPkgs(s.pipe[0])[i]) { assert Plain(PipePkgs(s.pipe)[i]); }
    }
  }

  lemma AppendSane(s: State)
    requires Sane(s) && s.server.Append?
    ensures Sane(AppendPackage(s, s.server.p))
  {
    if AllPlain(s.submitted) {
      assert Plain(Pending(s.server)[0]);
    }
  }

  lemma HighSane(s: State, c: Choice)
    requires Sane(s) && s.server.SendHigh?
    ensures Sane(SendFromHigh(s, c))
  {
    hide Written;
  }

  lemma LowSane(s: State, c: Choice)
    requires Sane(s) && s.server.SendLow?
    ensures Sane(SendFromLow(s, c))
  {
    hide Written;
    assert s.low != [] ==> forall i :: 0 <= i < |s.low| - 1 ==> Pkgs(s.low[1..])[i] == Pkgs(s.low)[i + 1];
  }

  lemma RaiseSane(s: State)
    requires Sane(s) && s.server.Raise? && s.high == []
    ensures Sane(RaiseHead(s))
  {
    assert s.low != [] ==> forall i :: 0 <= i < |s.low| - 1 ==> Pkgs(s.low[1..])[i] == Pkgs(s.low)[i + 1];
  }

  lemma OtherSane(s: State, t: State)
    requires Sane(s) && t.submitted == s.submitted && t.ok == s.ok && t.low == s.low && t.pipe == s.pipe && t.workers == s.workers
    requires Pending(t.server) == []
    ensures Sane(t)
  {
  }

  // ----- all together -----

  ghost predicate AllButOrder(s: State) { Easy(s) && OnWire(s) && Knowing(s) && Sane(s) }

  lemma SamePending(s: State, t: State)
    requires t.pipe == s.pipe && (t.server == s.server || !t.server.Append?)
    ensures forall k, low :: Mine(Pending(s.server), k, low) == [] && Mine(PipePkgs(s.pipe), k, low) == []
               ==> Mine(Pending(t.server), k, low) == [] && Mine(PipePkgs(t.pipe), k, low) == []
  {
    hide PipePkgs;
  }

  lemma CommandKnowing(s: State)
    requires Knowing(s) && Locking(s) && s.server.Poll?
    ensures Knowing(TakeCommand(s))
  {
    hide Mine, PipePkgs, Knowing;
    var t := TakeCommand(s);
    forall k, low | Mine(PipePkgs(s.pipe), k, low) == [] ensures Mine(Pending(t.server), k, low) == [] && Mine(PipePkgs(t.pipe), k, low) == [] {
      if s.pipe != [] { CommandPending(s, k, low); }
      MineOne(Package(0, false, false, []), k, low);
    }
    ServerKnowing(s, t);
  }

  lemma OnWireSame(s: State, t: State)
    requires OnWire(s) && t.wire == s.wire && t.finished == s.finished && t.direct == s.direct && t.high == s.high && t.low == s.low
    ensures OnWire(t)
  {
  }

  lemma CommandKeeps(s: State)
    requires Inv(s) && s.server.Poll?
    ensures AllButOrder(TakeCommand(s))
  {
    hide Easy, Knowing, Sane, OnWire, Ordered;
    CommandEasy(s);
    CommandKnowing(s);
    CommandSane(s);
    OnWireSame(s, TakeCommand(s));
  }

  lemma EventKeeps(s: State)
    requires Inv(s) && s.server.Poll? && s.writing && s.lock == Free
    ensures AllButOrder(s.(lock := BySocket, server := Merge))
  {
    var t := s.(lock := BySocket, server := Merge);
    EventEasy(s);
    SamePending(s, t);
    ServerKnowing(s, t);
    OtherSane(s, t);
    hide Easy, Knowing, Sane, OnWire;
    OnWireSame(s, t);
  }

  lemma AppendKeeps(s: State)
    requires Inv(s) && s.server.Append?
    ensures AllButOrder(AppendPackage(s, s.server.p))
  {
    hide Knowing, Sane, OnWire;
    var t := AppendPackage(s, s.server.p);
    AppendEasy(s);
    SamePending(s, t);
    assert s.high == [] ==> s.high + [Buffer(s.server.p, 0)] == [Buffer(s.server.p, 0)];
    ServerKnowing(s, t);
    AppendSane(s);
    AppendOnWire(s);
  }

  lemma ReleaseKeeps(s: State)
    requires Inv(s) && s.server.Release?
    ensures s.sending > 0 && AllButOrder(s.(sending := s.sending - 1, server := Poll))
  {
    hide Easy, Knowing, Sane, OnWire;
    ReleaseEasy(s);
    var t := s.(sending := s.sending - 1, server := Poll);
    SamePending(s, t);
    ServerKnowing(s, t);
    OtherSane(s, t);
    OnWireSame(s, t);
  }

  /** Inside send_buffer the socket thread holds the lock, so workers know nothing that could change. */
  lemma DrainKnowing(s: State, t: State)
    requires Inv(s) && ServerLocked(s.server) && t.workers == s.workers && t.pipe == s.pipe && !t.server.Append?
    ensures Knowing(t)
  {
    hide Knowing, Whole, OnWire, Counted, Sized, Sorted, Awake, Sane, Ordered;
    SamePending(s, t);
    ServerKnowing(s, t);
  }

  lemma DrainKeeps(s: State, c: Choice)
    requires Inv(s) && ServerLocked(s.server)
    ensures AllButOrder(ServerStep(s, c))
  {
    hide Easy, Knowing, Sane, OnWire, Written, MergeDirect, SendFromHigh, SendFromLow, RaiseHead, Ordered, Sized, Counted, Awake;
    DrainCalm(s, c);
    DrainKnowing(s, ServerStep(s, c));
    match s.server
    case Merge => MergeEasy(s); MergeSane(s); MergeOnWire(s);
    case SendHigh => HighEasy(s, c); HighSane(s, c); HighOnWire(s, c);
    case SendLow => LowEasy(s, c); LowSane(s, c); LowOnWire(s, c);
    case Raise => RaiseEasy(s); RaiseSane(s); RaiseOnWire(s);
    case Finish =>
      var t := s.(writing := false, server := Unlock);
      FinishEasy(s);
      FinishAssertion(s);
      OtherSane(s, t);
      OnWireSame(s, t);
    case Unlock =>
      var t := s.(lock := Free, server := Poll);
      UnlockEasy(s);
      OtherSane(s, t);
      OnWireSame(s, t);
  }

  /** The second assertion of send_buffer_: both lists empty, and wb_size 0. */
  lemma FinishAssertion(s: State)
    requires Inv(s) && s.server.Finish?
    ensures s.high == [] && s.low == [] && s.wbSize == 0
  {
    hide OnWire, Knowing, Counted, Awake, Sane, Ordered, Locking, Sorted;
  }

  lemma ServerKeeps(s: State, c: Choice)
    requires Inv(s)
    ensures Inv(ServerStep(s, c))
  {
    hide Whole, OnWire, Locking, Knowing, Counted, Sized, Sorted, Awake, Sane, Stream, Mine,
      TakeCommand, AppendPackage, MergeDirect, SendFromHigh, SendFromLow, RaiseHead;
    assert AllButOrder(ServerStep(s, c)) by {
      match s.server
      case Poll =>
        if c.Command? { CommandKeeps(s); }
        else if c.Event? && s.writing && s.lock == Free { EventKeeps(s); }
      case Append(p) => AppendKeeps(s);
      case Release => ReleaseKeeps(s);
      case _ => DrainKeeps(s, c);
    }
    forall k: nat, low: bool ensures Stream(ServerStep(s, c), k, low) == Mine(ServerStep(s, c).submitted, k, low) {
      ServerOrdered(s, c, k, low);
    }
  }

  lemma InitInv(workers: nat)
    ensures Inv(Init(workers))
  {
    assert Posting(Init(workers).workers) == 0 by { NoPosting(Init(workers).workers); }
    forall k: nat, low: bool ensures Stream(Init(workers), k, low) == Mine(Init(workers).submitted, k, low) {
      MineOne(Package(0, false, false, []), k, low);
    }
  }

  lemma {:induction false} NoPosting(workers: seq<Worker>)
    requires forall i :: 0 <= i < |workers| ==> !workers[i].Post?
    ensures Posting(workers) == 0
  {
    if workers != [] { NoPosting(workers[..|workers| - 1]); }
  }

  lemma StepKeeps(s: State, m: Move)
    requires Inv(s)
    ensures Inv(Step(s, m))
  {
    hide Inv, WorkerStep, ServerStep;
    match m
    case OfWorker(i, c) => if i < |s.workers| { WorkerKeeps(s, i, c); }
    case OfServer(c) => ServerKeeps(s, c);
  }

  /** Every reachable state keeps the invariant. */
  lemma {:induction false} RunKeeps(workers: nat, moves: seq<Move>)
    ensures Inv(Run(Init(workers), moves))
    decreases |moves|
  {
    hide Inv, Step;
    if moves == [] {
      InitInv(workers);
    } else {
      RunKeeps(workers, moves[..|moves| - 1]);
      StepKeeps(Run(Init(workers), moves[..|moves| - 1]), moves[|moves| - 1]);
    }
  }
}
