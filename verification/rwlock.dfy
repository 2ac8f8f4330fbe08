/** The spin lock of rwlock.h: any number of threads take its loads, its compare-and-swap and its counter
    updates in any order. */
module ReadWriteLock {
  /** Where a thread is. */
  datatype Place =
    | Idle
    | Await         // rwlock_rlock, about to look at `write`
    | Enter         // it saw `write` clear and is about to count itself in `read`
    | Entered       // it is counted and about to look at `write` again
    | BackOff       // it saw `write` set and is about to uncount itself
    | Reading
    | Claim         // rwlock_wlock, about to compare and swap
    | Drain         // it set `write` and waits for `read` to be 0
    | Writing

  datatype State = State(write: int, read: int, threads: seq<Place>)

  /** A step: the thread that takes it, and what it goes for if it is idle. */
  datatype Move = Move(thread: nat, toRead: bool)

  predicate Counted(p: Place) { p.Entered? || p.BackOff? || p.Reading? }

  predicate Holds(p: Place) { p.Drain? || p.Writing? }

  function Init(n: nat): State { State(0, 0, seq(n, _ => Idle)) }

  /** What a thread at p does to the two counters, and where it is then. */
  function Act(write: int, read: int, p: Place, toRead: bool): (int, int, Place) {
    match p
    case Idle => (write, read, if toRead then Await else Claim)
    case Await => (write, read, if write != 0 then Await else Enter)
    case Enter => (write, read + 1, Entered)
    case Entered => (write, read, if write != 0 then BackOff else Reading)
    case BackOff => (write, read - 1, Await)
    case Reading => (write, read - 1, Idle)
    case Claim => if write == 0 then (1, read, Drain) else (write, read, Claim)
    case Drain => (write, read, if read != 0 then Drain else Writing)
    case Writing => (0, read, Idle)
  }

  function Step(s: State, m: Move): State {
    if m.thread >= |s.threads| then s
    else
      var (w, r, p) := Act(s.write, s.read, s.threads[m.thread], m.toRead);
      State(w, r, s.threads[m.thread := p])
  }

  function Run(n: nat, moves: seq<Move>): State {
    if moves == [] then Init(n) else Step(Run(n, moves[..|moves| - 1]), moves[|moves| - 1])
  }

  // ----- the invariant -----

  function One(b: bool): int { if b then 1 else 0 }

  function Readers(ps: seq<Place>): nat {
    if ps == [] then 0 else Readers(ps[..|ps| - 1]) + One(Counted(ps[|ps| - 1]))
  }

  lemma {:induction false} ReadersPut(ps: seq<Place>, i: nat, p: Place)
    requires i < |ps|
    ensures Readers(ps[i := p]) == Readers(ps) - One(Counted(ps[i])) + One(Counted(p))
  {
    var n := |ps| - 1;
    if i == n {
      assert ps[i := p][..n] == ps[..n];
    } else {
      assert ps[i := p][..n] == ps[..n][i := p];
      ReadersPut(ps[..n], i, p);
    }
  }

  lemma {:induction false} ReadersHas(ps: seq<Place>, i: nat)
    requires i < |ps| && Counted(ps[i])
    ensures Readers(ps) > 0
  {
    if i < |ps| - 1 { ReadersHas(ps[..|ps| - 1], i); }
  }

  lemma {:induction false} ReadersNone(ps: seq<Place>)
    requires Readers(ps) > 0
    ensures exists i :: 0 <= i < |ps| && Counted(ps[i])
  {
    var n := |ps| - 1;
    if !Counted(ps[n]) {
      ReadersNone(ps[..n]);
      var i :| 0 <= i < n && Counted(ps[..n][i]);
      assert Counted(ps[i]);
    }
  }

  /** `write` is set exactly while one thread holds it. */
  ghost predicate OneHolder(s: State) {
    && (s.write == 0 || s.write == 1)
    && (s.write == 0 ==> forall i :: 0 <= i < |s.threads| ==> !Holds(s.threads[i]))
    && (s.write == 1 ==> exists i :: 0 <= i < |s.threads| && Holds(s.threads[i])
                                     && forall j :: 0 <= j < |s.threads| && Holds(s.threads[j]) ==> j == i)
  }

  ghost predicate Apart(s: State) {
    forall i, j :: 0 <= i < |s.threads| && 0 <= j < |s.threads| && s.threads[i].Writing? ==> !s.threads[j].Reading?
  }

  ghost predicate Inv(s: State) { s.read == Readers(s.threads) && OneHolder(s) && Apart(s) }

  lemma KeepsHolder(s: State, m: Move)
    requires OneHolder(s)
    ensures OneHolder(Step(s, m))
  {
    if m.thread < |s.threads| {
      var i, t := m.thread, Step(s, m);
      if t.write == 1 {
        var h :| 0 <= h < |s.threads| && (Holds(s.threads[h]) || (s.write == 0 && h == i));
        assert Holds(t.threads[h]);
        assert forall j :: 0 <= j < |s.threads| && Holds(t.threads[j]) ==> j == h;
      }
    }
  }

  lemma KeepsApart(s: State, m: Move)
    requires Inv(s)
    ensures Apart(Step(s, m))
  {
    if m.thread < |s.threads| && s.threads[m.thread].Drain? && s.read == 0 {
      forall j | 0 <= j < |s.threads| ensures !Counted(s.threads[j]) {
        if Counted(s.threads[j]) { ReadersHas(s.threads, j); }
      }
    }
  }

  lemma StepKeeps(s: State, m: Move)
    requires Inv(s)
    ensures Inv(Step(s, m))
  {
    KeepsHolder(s, m);
    KeepsApart(s, m);
    if m.thread < |s.threads| {
      ReadersPut(s.threads, m.thread, Step(s, m).threads[m.thread]);
    }
  }

  lemma {:induction false} RunKeeps(n: nat, moves: seq<Move>)
    ensures Inv(Run(n, moves)) && |Run(n, moves).threads| == n
  {
    if moves == [] {
      InitReaders(n);
    } else {
      RunKeeps(n, moves[..|moves| - 1]);
      StepKeeps(Run(n, moves[..|moves| - 1]), moves[|moves| - 1]);
    }
  }

  lemma {:induction false} InitReaders(n: nat)
    ensures Readers(Init(n).threads) == 0
  {
    if n > 0 {
      InitReaders(n - 1);
      assert Init(n).threads[..n - 1] == Init(n - 1).threads;
    }
  }

  // ----- what it is for -----

  /** While one thread writes, no other writes or reads. */
  lemma Exclusion(n: nat, moves: seq<Move>, i: nat, j: nat)
    requires i < n && j < n && i != j
    ensures var ps := Run(n, moves).threads; |ps| == n && (ps[i].Writing? ==> !ps[j].Writing? && !ps[j].Reading?)
  {
    RunKeeps(n, moves);
    var ps := Run(n, moves).threads;
    assert ps[i].Writing? ==> Holds(ps[i]);
  }

  /** As long as some thread is not idle, some thread can move on: nobody waits for ever because all wait. */
  lemma SomeoneMoves(n: nat, moves: seq<Move>)
    requires exists i :: 0 <= i < n && |Run(n, moves).threads| == n && !Run(n, moves).threads[i].Idle?
    ensures exists m: Move :: m.thread < n && !Run(n, moves).threads[m.thread].Idle?
              && Step(Run(n, moves), m) != Run(n, moves)
  {
    hide Readers, Run;
    RunKeeps(n, moves);
    var s := Run(n, moves);
    var i :| 0 <= i < n && !s.threads[i].Idle?;
    if s.write == 1 {
      i :| 0 <= i < n && Holds(s.threads[i]);
      if s.threads[i].Drain? && s.read != 0 {
        ReadersNone(s.threads);
        i :| 0 <= i < n && Counted(s.threads[i]);
      }
    }
    var m := Move(i, true);
    assert Step(s, m).threads[i] != s.threads[i];
  }

  /** `read` need not be 0 while a thread writes: a reader that saw `write` clear just before counts itself, and
      backs off only then. */
  lemma LateReader() returns (moves: seq<Move>)
    ensures var s := Run(2, moves); s.threads == [Writing, Entered] && s.read == 1
  {
    var w, r := Move(0, false), Move(1, true);
    var m1, m2, m3, m4, m5 := [r], [r, r], [r, r, w], [r, r, w, w], [r, r, w, w, w];
    moves := [r, r, w, w, w, r];
    assert m1[..0] == [] && m2[..1] == m1 && m3[..2] == m2 && m4[..3] == m3 && m5[..4] == m4 && moves[..5] == m5;
    assert Run(2, m1) == State(0, 0, [Idle, Await]);
    assert Run(2, m2) == State(0, 0, [Idle, Enter]);
    assert Run(2, m3) == State(0, 0, [Claim, Enter]);
    assert Run(2, m4) == State(1, 0, [Drain, Enter]);
    assert Run(2, m5) == State(1, 0, [Writing, Enter]);
  }
}
