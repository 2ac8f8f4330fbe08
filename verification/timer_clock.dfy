/** The timer of skynet_timer.c as it runs, proved to behave like a flat list of (tick, event) pairs. */
module TimerClock {
  import opened Wrappers
  import opened TimerWheel

  /** A call of timer_add by another thread. */
  datatype Request = Request(event: Event, delay: int) {
    predicate Valid() { 0 < delay < HALF }
  }

  predicate ValidRequests(rs: seq<Request>) { forall k :: 0 <= k < |rs| ==> rs[k].Valid() }

  /** The timers requests stand for, made while the clock reads `clock`. */
  function NewTimers(rs: seq<Request>, clock: nat): (ts: seq<Timer>)
    requires ValidRequests(rs)
    ensures |ts| == |rs| && forall k :: 0 <= k < |rs| ==> ts[k] == Timer(clock + rs[k].delay, rs[k].event)
  {
    seq(|rs|, k requires 0 <= k < |rs| => Timer(clock + rs[k].delay, rs[k].event))
  }

  // ----- the flat list over a run -----

  /** The specification: a clock and the timers that have not fired. */
  datatype Flat = Flat(clock: nat, pending: seq<Timer>)

  datatype Firing = Firing(tick: int, event: Event)

  /** Nothing is overdue, and nothing lies more than half a turn ahead. */
  ghost predicate Settled(f: Flat) { Within(f.pending, f.clock) && NoneDue(f.pending, f.clock) }

  predicate ValidRun(arrivals: seq<seq<Request>>) { forall k :: 0 <= k < |arrivals| ==> ValidRequests(arrivals[k]) }

  /** One tick: what is due fires in the order it was added; then come the requests made meanwhile. */
  function Tick(f: Flat, arrivals: seq<Request>): Flat
    requires ValidRequests(arrivals)
  {
    Flat(f.clock + 1, Without(f.pending, f.clock + 1) + NewTimers(arrivals, f.clock + 1))
  }

  function Ticks(f: Flat, arrivals: seq<seq<Request>>): Flat
    requires ValidRun(arrivals)
  {
    if arrivals == [] then f
    else Tick(Ticks(f, arrivals[..|arrivals| - 1]), arrivals[|arrivals| - 1])
  }

  function At(tick: int, events: seq<Event>): (r: seq<Firing>)
    ensures |r| == |events| && forall k :: 0 <= k < |r| ==> r[k] == Firing(tick, events[k])
  {
    seq(|events|, k requires 0 <= k < |events| => Firing(tick, events[k]))
  }

  /** Everything fired over a run of ticks. */
  function Log(f: Flat, arrivals: seq<seq<Request>>): seq<Firing>
    requires ValidRun(arrivals)
  {
    if arrivals == [] then []
    else
      var g := Ticks(f, arrivals[..|arrivals| - 1]);
      Log(f, arrivals[..|arrivals| - 1]) + At(g.clock + 1, DueAt(g.pending, g.clock + 1))
  }

  /** Every timer ever asked for, in order. */
  function History(f: Flat, arrivals: seq<seq<Request>>): seq<Timer>
    requires ValidRun(arrivals)
  {
    if arrivals == [] then f.pending
    else History(f, arrivals[..|arrivals| - 1]) + NewTimers(arrivals[|arrivals| - 1], f.clock + |arrivals|)
  }

  /** The messages of a log, in the order they are sent. */
  function Sent(log: seq<Firing>): (r: seq<Event>)
    ensures |r| == |log| && forall k :: 0 <= k < |log| ==> r[k] == log[k].event
  {
    seq(|log|, k requires 0 <= k < |log| => log[k].event)
  }

  function FiredAt(log: seq<Firing>, T: int): seq<Event> {
    if log == [] then []
    else
      var before := FiredAt(log[..|log| - 1], T);
      var n := log[|log| - 1];
      if n.tick == T then before + [n.event] else before
  }

  lemma FiredConcat(x: seq<Firing>, y: seq<Firing>, T: int)
    ensures FiredAt(x + y, T) == FiredAt(x, T) + FiredAt(y, T)
  {
    if y == [] {
      assert x + y == x;
    } else {
      assert (x + y)[..|x + y| - 1] == x + y[..|y| - 1];
      FiredConcat(x, y[..|y| - 1], T);
    }
  }

  lemma FiredTogether(events: seq<Event>, tick: int, T: int)
    ensures FiredAt(At(tick, events), T) == if T == tick then events else []
  {
    if events != [] {
      var l := events[..|events| - 1];
      FiredTogether(l, tick, T);
      assert At(tick, events)[..|events| - 1] == At(tick, l);
      assert events == l + [events[|events| - 1]];
    }
  }

  lemma DueConcat(x: seq<Timer>, y: seq<Timer>, T: int)
    ensures DueAt(x + y, T) == DueAt(x, T) + DueAt(y, T)
  {
    if y == [] {
      assert x + y == x;
    } else {
      assert (x + y)[..|x + y| - 1] == x + y[..|y| - 1];
      DueConcat(x, y[..|y| - 1], T);
    }
  }

  /** Every tick leaves all pending timers within half the range of the clock ahead of it. */
  lemma TickSettled(f: Flat, arrivals: seq<Request>)
    requires Settled(f) && ValidRequests(arrivals)
    ensures Settled(Tick(f, arrivals))
  {
    var g := Tick(f, arrivals);
    forall k | 0 <= k < |g.pending| ensures g.clock < g.pending[k].due < g.clock + HALF {
      if k < |Without(f.pending, f.clock + 1)| { assert Without(f.pending, f.clock + 1)[k] in f.pending; }
    }
  }

  /** The promise of the timer. Over any run, at each tick T exactly the timers asked for T fire, each once and
      in the order they were asked for; at the end exactly the later ones are pending. */
  lemma {:induction false} EachFiresOnce(f: Flat, arrivals: seq<seq<Request>>, T: int)
    requires Settled(f) && ValidRun(arrivals)
    ensures var g := Ticks(f, arrivals);
            && Settled(g) && g.clock == f.clock + |arrivals|
            && FiredAt(Log(f, arrivals), T) == (if f.clock < T <= g.clock then DueAt(History(f, arrivals), T) else [])
            && DueAt(g.pending, T) == (if g.clock < T then DueAt(History(f, arrivals), T) else [])
            && (T <= f.clock ==> DueAt(History(f, arrivals), T) == [])
    decreases |arrivals|
  {
    hide DueAt, Without, FiredAt;
    if arrivals == [] {
      if T <= f.clock { NothingDue(f.pending, T); }
      FiredTogether([], 0, T);
      assert At(0, []) == [];
    } else {
      var n := |arrivals| - 1;
      var init, last := arrivals[..n], arrivals[n];
      var g := Ticks(f, init);
      EachFiresOnce(f, init, T);
      TickSettled(g, last);
      var now := g.clock + 1;
      var added := NewTimers(last, now);
      FiredConcat(Log(f, init), At(now, DueAt(g.pending, now)), T);
      FiredTogether(DueAt(g.pending, now), now, T);
      DueConcat(History(f, init), added, T);
      DueConcat(Without(g.pending, now), added, T);
      WithoutDue(g.pending, now, T);
      if T <= now { NothingDue(added, T); }
    }
  }

  // ----- the wheel -----

  class Timers {
    /** near[TIME_NEAR], t[4][TIME_LEVEL]: the lists of nodes, in link order. */
    const near: array<seq<Node>>
    const t: array2<seq<Node>>
    /** The tick counter, which wraps around. */
    var time: Word

    /** The ticks since the start, and the flat list. */
    ghost var clock: nat
    ghost var pending: seq<Timer>

    ghost predicate Shape() {
      near.Length == NEAR && t.Length0 == 4 && t.Length1 == LEVEL
    }

    /** All slots in one row. */
    ghost function Row(): (r: Slots)
      requires Shape()
      reads near, t
      ensures |r| == SLOTS
      ensures forall k :: 0 <= k < NEAR ==> r[k] == near[k]
      ensures forall i, j :: 0 <= i < 4 && 0 <= j < LEVEL ==> r[SlotOf(i, j)] == t[i, j]
    {
      seq(SLOTS, k requires 0 <= k < SLOTS reads near, t => if k < NEAR then near[k] else t[(k - NEAR) / LEVEL, (k - NEAR) % LEVEL])
    }

    /** The wheel, with `rest` still to be put back, holds the flat list, every node in its place. */
    ghost predicate Holding(rest: seq<Node>)
      reads this, near, t
    {
      Shape() && time == clock % WORD && Placed(Row(), time) && Holds(Row(), clock, rest, pending)
    }

    ghost predicate Valid()
      reads this, near, t
    {
      Holding([]) && Within(pending, clock)
    }

    ghost function Abstract(): Flat
      reads this
    {
      Flat(clock, pending)
    }

    constructor ()
      ensures Valid() && Abstract() == Flat(0, []) && fresh(near) && fresh(t)
    {
      near := new seq<Node>[NEAR](_ => []);
      t := new seq<Node>[4, LEVEL]((_, _) => []);
      time, clock, pending := 0, 0, [];
      new;
      hide PlaceOf;
      assert forall k :: 0 <= k < SLOTS ==> Row()[k] == [];
    }

    /** add_node */
    method AddNode(node: Node)
      requires Shape()
      modifies near, t
      ensures var k := PlaceOf(node.expire, time); Row() == old(Row())[k := old(Row())[k] + [node]]
    {
      var e := node.expire;
      if e / NEAR == time / NEAR {
        near[e % NEAR] := near[e % NEAR] + [node];
      } else {
        var i := 0;
        var mask := NEAR * LEVEL;
        while i < 3
          invariant 0 <= i <= 3 && mask == Span(i)
          invariant forall j :: 0 <= j < i ==> e / Span(j) != time / Span(j)
        {
          if e / mask == time / mask { break; }
          mask := mask * LEVEL;
          i := i + 1;
        }
        assert LevelOf(e, time) == i && mask / LEVEL == Unit(i);
        var idx := e / (mask / LEVEL) % LEVEL;
        t[i, idx] := t[i, idx] + [node];
      }
    }

    /** timer_add */
    method TimerAdd(event: Event, delay: int)
      requires Valid() && 0 < delay < HALF
      modifies this`pending, near, t
      ensures Valid() && pending == old(pending) + [Timer(clock + delay, event)]
    {
      hide PlaceOf, Placed, Holds;
      var node := Node((delay + time) % WORD, event);
      AddNew(Row(), clock, Timer(clock + delay, event), pending);
      SumModWord(delay, clock);
      AddNode(node);
      pending := pending + [Timer(clock + delay, event)];
    }

    /** skynet_timeout: without a delay the answer is sent at once. */
    method Timeout(handle: int, delay: int, session: int) returns (sent: seq<Event>)
      requires Valid() && -HALF <= delay < HALF
      modifies this`pending, near, t
      ensures Valid()
      ensures delay <= 0 ==> sent == [Event(handle, session)] && pending == old(pending)
      ensures delay > 0 ==> sent == [] && pending == old(pending) + [Timer(clock + delay, Event(handle, session))]
    {
      sent := [];
      if delay <= 0 {
        sent := [Event(handle, session)];
      } else {
        TimerAdd(Event(handle, session), delay);
      }
    }

    /** move_list, on the list of a slot of the wheel at its new time. */
    method MoveList(level: nat, idx: nat)
      requires level < 4 && idx < LEVEL && Shape() && time == clock % WORD
      requires var k := SlotOf(level, idx);
               Placed(Row()[k := []], time) && Holds(Row()[k := []], clock, Row()[k], pending)
      modifies near, t
      ensures Holding([])
    {
      hide PlaceOf, Placed, Holds;
      var current := t[level, idx];
      ghost var row := Row()[SlotOf(level, idx) := []];
      t[level, idx] := [];
      assert Row() == row;
      while current != []
        invariant Holding(current)
        decreases |current|
      {
        assert current == [current[0]] + current[1..];
        AddBack(Row(), clock, current[0], current[1..], pending);
        AddNode(current[0]);
        current := current[1..];
      }
    }

    /** timer_shift */
    method Shift()
      requires Valid() && NoneDue(pending, clock)
      modifies this`time, this`clock, near, t
      ensures Valid() && clock == old(clock) + 1
    {
      hide PlaceOf, Placed, Holds, MovedSlot;
      ghost var row := Row();
      ShiftKeeps(Row(), clock, pending);
      time := (time + 1) % WORD;
      clock := clock + 1;
      if time == 0 {
        MovedLevel(0, 3);
        MoveList(3, 0);
      } else {
        Cascade();
      }
    }

    /** The carry: the first digit of the new time that is not zero, if all below it are, names the slot to move. */
    method Cascade()
      requires Shape() && time == clock % WORD && time != 0
      requires Placed(Emptied(Row(), time), time) && Holds(Emptied(Row(), time), clock, Lifted(Row(), time), pending)
      modifies near, t
      ensures Holding([])
    {
      hide PlaceOf, Placed, Holds, MovedSlot;
      var mask, shifted, i := NEAR, time / NEAR, 0;
      while time % mask == 0
        invariant 0 <= i <= 3 && mask == Unit(i) && shifted == time / mask
        invariant forall j :: 0 <= j < i ==> time / Unit(j) % LEVEL == 0
        invariant i > 0 ==> time % NEAR == 0
        invariant Row() == old(Row())
        decreases 4 - i
      {
        var idx := shifted % LEVEL;
        MovedLevel(time, i);
        if idx != 0 {
          MoveList(i, idx);
          return;
        }
        NextLevel(time, i);
        mask, shifted, i := mask * LEVEL, shifted / LEVEL, i + 1;
      }
      NoMove(time, i);
    }

    /** timer_execute. Between clearing the list and taking the lock again other threads may add timers. */
    method Execute(arrivals: seq<Request>) returns (sent: seq<Event>, late: seq<Request>)
      requires Valid() && ValidRequests(arrivals)
      modifies this`pending, near, t
      ensures Valid() && NoneDue(pending, clock)
      ensures sent == DueAt(old(pending), clock)
      ensures late == if sent == [] then arrivals else []
      ensures pending == if sent == [] then old(pending) else Without(old(pending), clock) + NewTimers(arrivals, clock)
    {
      hide PlaceOf, Placed, Holds, Without, DueAt;
      sent, late := [], arrivals;
      var idx := time % NEAR;
      NearIndex(clock);
      ExecuteKeeps(Row(), clock, pending);
      if near[idx] == [] { EmptySlot(Row(), clock, pending); }
      while near[idx] != []
        invariant Valid()
        invariant near[idx] == [] ==> NoneDue(pending, clock)
        invariant sent == [] ==> late == arrivals && pending == old(pending) && (near[idx] == [] ==> DueAt(pending, clock) == [])
        invariant sent != [] ==>
                    && near[idx] == [] && late == [] && sent == DueAt(old(pending), clock)
                    && pending == Without(old(pending), clock) + NewTimers(arrivals, clock)
        decreases |near[idx]|
      {
        ExecuteKeeps(Row(), clock, pending);
        AllExpiring(near[idx], time);
        ghost var row := Row()[idx := []];
        var current := near[idx];
        near[idx] := [];
        assert Row() == row;
        WithinWithout(pending, clock);
        pending := Without(pending, clock);
        var events := DispatchList(current);
        sent := sent + events;
        AddAll(late);
        late := [];
        LaterOnly(Row(), clock, pending);
      }
    }

    /** dispatch_list: one message per node, in order. */
    method DispatchList(list: seq<Node>) returns (sent: seq<Event>)
      requires list != []
      ensures sent == Events(list) && sent != []
    {
      var current := list;
      sent := [];
      while true
        invariant current != [] && sent + Events(current) == Events(list)
        decreases |current|
      {
        sent := sent + [current[0].event];
        current := current[1..];
        if current == [] { break; }
      }
    }

    /** The requests of other threads, one after the other. */
    method AddAll(rs: seq<Request>)
      requires Valid() && ValidRequests(rs)
      modifies this`pending, near, t
      ensures Valid() && pending == old(pending) + NewTimers(rs, clock)
    {
      hide PlaceOf, Placed, Holds;
      for k := 0 to |rs|
        invariant Valid() && pending == old(pending) + NewTimers(rs, clock)[..k]
      {
        TimerAdd(rs[k].event, rs[k].delay);
      }
    }

    /** timer_update: one tick of the flat list. */
    method Update(arrivals: seq<Request>) returns (sent: seq<Event>)
      requires Valid() && NoneDue(pending, clock) && ValidRequests(arrivals)
      modifies this, near, t
      ensures Valid() && Abstract() == Tick(old(Abstract()), arrivals) && NoneDue(pending, clock)
      ensures sent == DueAt(old(pending), clock)
    {
      hide PlaceOf, Placed, Holds, Without, DueAt;
      ghost var p0 := pending;
      NothingDue(pending, clock);
      var rare, none := Execute([]);
      Shift();
      var late;
      sent, late := Execute(arrivals);
      if sent == [] { WithoutNone(p0, clock); }
      AddAll(late);
      sent := rare + sent;
    }

    /** skynet_updatetime's loop over the ticks that passed. */
    method UpdateTicks(arrivals: seq<seq<Request>>) returns (sent: seq<Event>, ghost log: seq<Firing>)
      requires Valid() && NoneDue(pending, clock) && ValidRun(arrivals)
      modifies this, near, t
      ensures Valid() && NoneDue(pending, clock) && Abstract() == Ticks(old(Abstract()), arrivals)
      ensures log == Log(old(Abstract()), arrivals) && sent == Sent(log)
    {
      hide PlaceOf, Placed, Holds, Without, DueAt, Tick, Within, NoneDue;
      sent, log := [], [];
      for i := 0 to |arrivals|
        invariant Valid() && NoneDue(pending, clock) && Abstract() == Ticks(old(Abstract()), arrivals[..i])
        invariant log == Log(old(Abstract()), arrivals[..i]) && sent == Sent(log)
      {
        assert arrivals[..i + 1][..i] == arrivals[..i];
        var events := Update(arrivals[i]);
        TickClock(Ticks(old(Abstract()), arrivals[..i]), arrivals[i]);
        sent, log := sent + events, log + At(clock, events);
      }
      assert arrivals[..|arrivals|] == arrivals;
    }
  }

  lemma TickClock(f: Flat, arrivals: seq<Request>)
    requires ValidRequests(arrivals)
    ensures Tick(f, arrivals).clock == f.clock + 1
  {
  }

  lemma SumModWord(delay: int, clock: nat)
    ensures (delay + clock % WORD) % WORD == (clock + delay) % WORD
  {
  }

  lemma WithinWithout(pending: seq<Timer>, clock: nat)
    requires Within(pending, clock)
    ensures Within(Without(pending, clock), clock) && NoneDue(Without(pending, clock), clock)
  {
    var r := Without(pending, clock);
    forall k | 0 <= k < |r| ensures clock <= r[k].due < clock + HALF { assert r[k] in pending; }
  }

  lemma WithoutNone(pending: seq<Timer>, T: int)
    requires DueAt(pending, T) == []
    ensures Without(pending, T) == pending
  {
    if pending != [] {
      WithoutNone(pending[..|pending| - 1], T);
      assert pending == pending[..|pending| - 1] + [pending[|pending| - 1]];
    }
  }

  /** An empty slot under the clock: nothing is due. */
  lemma EmptySlot(w: Slots, clock: nat, pending: seq<Timer>)
    requires Placed(w, clock % WORD) && Holds(w, clock, [], pending) && w[clock % NEAR] == []
    ensures DueAt(pending, clock) == [] && NoneDue(pending, clock)
  {
    hide PlaceOf, Holds, Without;
    ExecuteKeeps(w, clock, pending);
    NothingExpires(clock % WORD);
    forall k | 0 <= k < |pending| ensures pending[k].due != clock {
      if pending[k].due == clock { DueSeen(pending, clock, k); }
    }
  }

  lemma NothingExpires(e: Word)
    ensures Expiring([], e) == []
  {
  }

  lemma DueSeen(pending: seq<Timer>, T: int, k: nat)
    requires k < |pending| && pending[k].due == T
    ensures DueAt(pending, T) != []
  {
    if k < |pending| - 1 { DueSeen(pending[..|pending| - 1], T, k); }
  }

  /** When nothing is due the slot under the clock is empty. */
  lemma LaterOnly(w: Slots, clock: nat, pending: seq<Timer>)
    requires Placed(w, clock % WORD) && Holds(w, clock, [], pending) && NoneDue(pending, clock)
    ensures w[clock % NEAR] == []
  {
    hide PlaceOf, Holds, Without;
    ExecuteKeeps(w, clock, pending);
    NothingDue(pending, clock);
    NoNodes(w[clock % NEAR], clock % WORD);
  }

  // ----- the loop of timer_shift -----

  /** With all digits below level i zero, the slot of level i is the one moved, if its digit is not zero. */
  lemma MovedLevel(ct: Word, i: nat)
    requires i <= 3 && ct % NEAR == 0 && forall j :: 0 <= j < i ==> ct / Unit(j) % LEVEL == 0
    ensures ct / Unit(i) % LEVEL != 0 ==> MovedSlot(ct) == Some(SlotOf(i, ct / Unit(i) % LEVEL))
    ensures i == 3 && ct != 0 ==> ct / Unit(3) % LEVEL != 0
    ensures ct == 0 ==> MovedSlot(ct) == Some(SlotOf(3, 0))
  {
    hide DigitsOf;
    Quotients(DigitsOf(ct));
    assert i > 0 ==> ct / Unit(0) % LEVEL == 0;
    assert i > 1 ==> ct / Unit(1) % LEVEL == 0;
    assert i > 2 ==> ct / Unit(2) % LEVEL == 0;
  }

  lemma NextLevel(ct: Word, i: nat)
    requires i <= 2 && ct % NEAR == 0 && forall j :: 0 <= j <= i ==> ct / Unit(j) % LEVEL == 0
    ensures Unit(i) * LEVEL == Unit(i + 1) && ct / Unit(i) / LEVEL == ct / Unit(i + 1) && ct % Unit(i + 1) == 0
  {
    hide DigitsOf;
    Quotients(DigitsOf(ct));
    assert ct / Unit(0) % LEVEL == 0;
    assert i > 0 ==> ct / Unit(1) % LEVEL == 0;
    assert i > 1 ==> ct / Unit(2) % LEVEL == 0;
  }

  lemma NoMove(ct: Word, i: nat)
    requires i <= 3 && ct % Unit(i) != 0 && (i > 0 ==> ct % NEAR == 0) && forall j :: 0 <= j < i ==> ct / Unit(j) % LEVEL == 0
    ensures MovedSlot(ct) == None
  {
    if i > 0 { NextLevel(ct, i - 1); }
  }
}
