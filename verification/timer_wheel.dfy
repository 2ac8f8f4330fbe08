/** The hierarchical timing wheel of skynet_timer.c and the flat list of pending timers it stands for. */
module TimerWheel {
  import opened Wrappers

  const WORD: int := 0x1_0000_0000
  const HALF: int := 0x8000_0000
  const NEAR: int := 256
  const LEVEL: int := 64
  const SLOTS: int := 512

  type Word = x: int | 0 <= x < WORD

  datatype Event = Event(handle: int, session: int)

  /** A node of the wheel, and the timer it stands for: due at an absolute tick. */
  datatype Node = Node(expire: Word, event: Event)
  datatype Timer = Timer(due: nat, event: Event)

  /** mask: the span of level i, above which an expiry at that level agrees with the clock. */
  function Span(i: nat): (m: int)
    requires i <= 3
    ensures m > 0
  {
    if i == 0 then 0x4000 else if i == 1 then 0x10_0000 else if i == 2 then 0x400_0000 else WORD
  }

  /** The ticks of one slot of level i. */
  function Unit(i: nat): (m: int)
    requires i <= 3
    ensures m > 0
  {
    if i == 0 then NEAR else Span(i - 1)
  }

  /** Slots in one row: near[0..255], then t[0], t[1], t[2], t[3]. */
  function SlotOf(level: nat, idx: int): int { NEAR + LEVEL * level + idx }

  function LevelOf(e: Word, now: Word): (i: nat)
    ensures i <= 3
  {
    if e / Span(0) == now / Span(0) then 0
    else if e / Span(1) == now / Span(1) then 1
    else if e / Span(2) == now / Span(2) then 2
    else 3
  }

  /** Where add_node puts a node that expires at e. */
  function PlaceOf(e: Word, now: Word): (k: int)
    ensures 0 <= k < SLOTS
  {
    if e / NEAR == now / NEAR then e % NEAR
    else
      var i := LevelOf(e, now);
      SlotOf(i, (e / Unit(i)) % LEVEL)
  }

  /** The comparisons of add_node, which set the low bits, are comparisons of quotients. */
  lemma MaskIsQuotient(x: bv32, y: bv32)
    ensures (x | 0xFF == y | 0xFF) == (x >> 8 == y >> 8)
    ensures (x | 0x3FFF == y | 0x3FFF) == (x >> 14 == y >> 14)
    ensures (x | 0xF_FFFF == y | 0xF_FFFF) == (x >> 20 == y >> 20)
    ensures (x | 0x3FF_FFFF == y | 0x3FF_FFFF) == (x >> 26 == y >> 26)
  {
  }

  /** The slot timer_shift empties when the clock becomes ct. */
  function MovedSlot(ct: Word): (m: Option<int>)
    ensures m.Some? ==> NEAR <= m.value < SLOTS
  {
    if ct == 0 then Some(SlotOf(3, 0))
    else if ct % NEAR != 0 then None
    else if ct / NEAR % LEVEL != 0 then Some(SlotOf(0, ct / NEAR % LEVEL))
    else if ct / Span(0) % LEVEL != 0 then Some(SlotOf(1, ct / Span(0) % LEVEL))
    else if ct / Span(1) % LEVEL != 0 then Some(SlotOf(2, ct / Span(1) % LEVEL))
    else Some(SlotOf(3, ct / Span(2) % LEVEL))
  }

  function Next(now: Word): (n: Word)
    ensures n == if now + 1 == WORD then 0 else now + 1
  {
    (now + 1) % WORD
  }

  /** e comes after now, less than half a turn away. */
  predicate Ahead(e: Word, now: Word) { 0 < (e - now) % WORD < HALF }

  // ----- digits -----

  /** A tick count in the wheel's mixed radix, lowest digit first. */
  datatype Digits = Digits(low: int, d0: int, d1: int, d2: int, d3: int) {
    predicate Valid() {
      0 <= low < NEAR && 0 <= d0 < LEVEL && 0 <= d1 < LEVEL && 0 <= d2 < LEVEL && 0 <= d3 < LEVEL
    }

    function Value(): int { low + 0x100 * d0 + 0x4000 * d1 + 0x10_0000 * d2 + 0x400_0000 * d3 }

    function Place(now: Digits): int {
      if d3 != now.d3 then SlotOf(3, d3)
      else if d2 != now.d2 then SlotOf(2, d2)
      else if d1 != now.d1 then SlotOf(1, d1)
      else if d0 != now.d0 then SlotOf(0, d0)
      else low
    }

    /** The next tick, with its carries. */
    function Tick(): Digits {
      if low < NEAR - 1 then this.(low := low + 1)
      else if d0 < LEVEL - 1 then Digits(0, d0 + 1, d1, d2, d3)
      else if d1 < LEVEL - 1 then Digits(0, 0, d1 + 1, d2, d3)
      else if d2 < LEVEL - 1 then Digits(0, 0, 0, d2 + 1, d3)
      else if d3 < LEVEL - 1 then Digits(0, 0, 0, 0, d3 + 1)
      else Digits(0, 0, 0, 0, 0)
    }

    function Moved(): Option<int> {
      if low != 0 then None
      else if d0 != 0 then Some(SlotOf(0, d0))
      else if d1 != 0 then Some(SlotOf(1, d1))
      else if d2 != 0 then Some(SlotOf(2, d2))
      else Some(SlotOf(3, d3))
    }
  }

  function DigitsOf(x: Word): (g: Digits)
    ensures g.Valid() && g.Value() == x
  {
    var q0 := x / NEAR;
    var q1 := q0 / LEVEL;
    var q2 := q1 / LEVEL;
    Digits(x % NEAR, q0 % LEVEL, q1 % LEVEL, q2 % LEVEL, q2 / LEVEL)
  }

  /** The quotients of a tick count, by its digits. */
  lemma Quotients(g: Digits)
    requires g.Valid()
    ensures var x := g.Value();
            && x / 0x100 == g.d0 + 0x40 * g.d1 + 0x1000 * g.d2 + 0x4_0000 * g.d3
            && x / 0x4000 == g.d1 + 0x40 * g.d2 + 0x1000 * g.d3
            && x / 0x10_0000 == g.d2 + 0x40 * g.d3
            && x / 0x400_0000 == g.d3
            && x % NEAR == g.low && x / 0x100 % LEVEL == g.d0 && x / 0x4000 % LEVEL == g.d1
            && x / 0x10_0000 % LEVEL == g.d2 && x / 0x400_0000 % LEVEL == g.d3
  {
  }

  lemma PlaceByDigits(e: Word, now: Word)
    ensures PlaceOf(e, now) == DigitsOf(e).Place(DigitsOf(now))
  {
    hide DigitsOf;
    Quotients(DigitsOf(e));
    Quotients(DigitsOf(now));
  }

  lemma MovedByDigits(ct: Word)
    ensures MovedSlot(ct) == DigitsOf(ct).Moved()
  {
    hide DigitsOf;
    Quotients(DigitsOf(ct));
  }

  lemma SameDigits(g: Digits, h: Digits)
    requires g.Valid() && h.Valid() && g.Value() == h.Value()
    ensures g == h
  {
    Quotients(g);
    Quotients(h);
  }

  lemma TickCounts(g: Digits)
    requires g.Valid()
    ensures g.Tick().Valid() && 0 <= g.Value() < WORD
    ensures g.Tick().Value() == if g.Value() + 1 == WORD then 0 else g.Value() + 1
  {
  }

  lemma NextByDigits(now: Word)
    ensures DigitsOf(Next(now)) == DigitsOf(now).Tick()
  {
    hide DigitsOf, Next, Digits.Tick, Digits.Value, Digits.Valid;
    TickCounts(DigitsOf(now));
    SameDigits(DigitsOf(Next(now)), DigitsOf(now).Tick());
  }

  /** The wheel's key property: a tick changes the place of a live node only if its slot is moved. */
  lemma PlaceStays(e: Word, now: Word)
    requires Ahead(e, now) && MovedSlot(Next(now)) != Some(PlaceOf(e, now))
    ensures PlaceOf(e, Next(now)) == PlaceOf(e, now)
  {
    hide DigitsOf, PlaceOf, MovedSlot, Next, Digits.Tick, Digits.Value, Digits.Valid, Digits.Moved, Digits.Place;
    PlaceByDigits(e, now);
    PlaceByDigits(e, Next(now));
    NextByDigits(now);
    MovedByDigits(Next(now));
    DigitsStay(DigitsOf(e), DigitsOf(now));
  }

  lemma DigitsStay(e: Digits, now: Digits)
    requires e.Valid() && now.Valid() && 0 < (e.Value() - now.Value()) % WORD < HALF
    requires now.Tick().Moved() != Some(e.Place(now))
    ensures e.Place(now.Tick()) == e.Place(now)
  {
  }

  /** A node in a near slot, at the clock's own index, expires now. */
  lemma PlaceNow(e: Word, now: Word)
    ensures PlaceOf(e, now) == now % NEAR <==> e == now
  {
    if e / NEAR != now / NEAR { assert PlaceOf(e, now) >= NEAR; }
  }

  // ----- the wheel and the flat list -----

  type Slots = seq<seq<Node>>

  /** The events of a list that expire at e, in its order. */
  function Expiring(list: seq<Node>, e: Word): seq<Event> {
    if list == [] then []
    else
      var before := Expiring(list[..|list| - 1], e);
      var n := list[|list| - 1];
      if n.expire == e then before + [n.event] else before
  }

  /** The events of the flat list due at tick T, in the order they were added. */
  function DueAt(pending: seq<Timer>, T: int): seq<Event> {
    if pending == [] then []
    else
      var before := DueAt(pending[..|pending| - 1], T);
      var n := pending[|pending| - 1];
      if n.due == T then before + [n.event] else before
  }

  /** The flat list without the timers due at T. */
  function Without(pending: seq<Timer>, T: int): (r: seq<Timer>)
    ensures forall k :: 0 <= k < |r| ==> r[k] in pending && r[k].due != T
  {
    if pending == [] then []
    else
      var before := Without(pending[..|pending| - 1], T);
      var n := pending[|pending| - 1];
      if n.due == T then before else before + [n]
  }

  /** Every node sits where add_node would put it now. */
  ghost predicate Placed(w: Slots, now: Word) {
    |w| == SLOTS && forall k, j :: 0 <= k < SLOTS && 0 <= j < |w[k]| ==> PlaceOf(w[k][j].expire, now) == k
  }

  /** The tick not before clock, and less than a turn away, at which the counter reads e. */
  function TickOf(e: Word, clock: nat): int { clock + (e - clock) % WORD }

  /** The wheel, with the nodes of `rest` still to be put back, holds the flat list: expiry by expiry, in
      insertion order. */
  ghost predicate Holds(w: Slots, clock: nat, rest: seq<Node>, pending: seq<Timer>)
    requires |w| == SLOTS
  {
    forall e: Word :: Expiring(w[PlaceOf(e, clock % WORD)], e) + Expiring(rest, e) == DueAt(pending, TickOf(e, clock))
  }

  /** Timers are due from clock on, less than half a turn away. */
  ghost predicate Within(pending: seq<Timer>, clock: nat) {
    forall k :: 0 <= k < |pending| ==> clock <= pending[k].due < clock + HALF
  }

  ghost predicate NoneDue(pending: seq<Timer>, clock: nat) {
    forall k :: 0 <= k < |pending| ==> pending[k].due != clock
  }

  lemma ExpiringAppend(list: seq<Node>, n: Node, e: Word)
    ensures Expiring(list + [n], e) == Expiring(list, e) + (if n.expire == e then [n.event] else [])
  {
    assert (list + [n])[..|list|] == list;
  }

  lemma ExpiringFirst(n: Node, list: seq<Node>, e: Word)
    ensures Expiring([n] + list, e) == (if n.expire == e then [n.event] else []) + Expiring(list, e)
  {
    if list == [] {
      assert [n] + list == [] + [n];
      ExpiringAppend([], n, e);
    } else {
      var l := list[..|list| - 1];
      ExpiringFirst(n, l, e);
      assert [n] + list == ([n] + l) + [list[|list| - 1]];
      ExpiringAppend([n] + l, list[|list| - 1], e);
    }
  }

  lemma DueAppend(pending: seq<Timer>, t: Timer, T: int)
    ensures DueAt(pending + [t], T) == DueAt(pending, T) + (if t.due == T then [t.event] else [])
  {
    assert (pending + [t])[..|pending|] == pending;
  }

  lemma NotExpiring(list: seq<Node>, e: Word)
    requires forall j :: 0 <= j < |list| ==> list[j].expire != e
    ensures Expiring(list, e) == []
  {
  }

  /** An expiry without events in a list has no node in it. */
  lemma NoNodes(list: seq<Node>, e: Word)
    requires Expiring(list, e) == []
    ensures forall j :: 0 <= j < |list| ==> list[j].expire != e
  {
  }

  lemma NothingDue(pending: seq<Timer>, T: int)
    requires forall k :: 0 <= k < |pending| ==> pending[k].due != T
    ensures DueAt(pending, T) == []
  {
  }

  lemma WithoutDue(pending: seq<Timer>, T: int, other: int)
    ensures DueAt(Without(pending, T), other) == if other == T then [] else DueAt(pending, other)
  {
    if pending != [] {
      WithoutDue(pending[..|pending| - 1], T, other);
      DueAppend(Without(pending[..|pending| - 1], T), pending[|pending| - 1], other);
    }
  }

  /** add_node keeps every node in its place. */
  lemma AddPlaced(w: Slots, now: Word, n: Node)
    requires Placed(w, now)
    ensures var k := PlaceOf(n.expire, now); Placed(w[k := w[k] + [n]], now)
  {
    hide PlaceOf;
  }

  /** add_node on a node of `rest`: the wheel holds the same list. */
  lemma AddBack(w: Slots, clock: nat, n: Node, rest: seq<Node>, pending: seq<Timer>)
    requires Placed(w, clock % WORD) && Holds(w, clock, [n] + rest, pending)
    ensures var k := PlaceOf(n.expire, clock % WORD);
            Placed(w[k := w[k] + [n]], clock % WORD) && Holds(w[k := w[k] + [n]], clock, rest, pending)
  {
    hide PlaceOf, DueAt, TickOf, Expiring;
    var now := clock % WORD;
    AddPlaced(w, now, n);
    var k := PlaceOf(n.expire, now);
    var x := w[k := w[k] + [n]];
    forall e: Word ensures Expiring(x[PlaceOf(e, now)], e) + Expiring(rest, e) == DueAt(pending, TickOf(e, clock)) {
      var p := PlaceOf(e, now);
      assert Expiring(w[p], e) + Expiring([n] + rest, e) == DueAt(pending, TickOf(e, clock));
      ExpiringAppend(w[k], n, e);
      ExpiringFirst(n, rest, e);
      if n.expire == e { EventsAssoc(Expiring(w[k], e), [n.event], Expiring(rest, e)); }
      else { EventsAssoc([], [], Expiring(rest, e)); }
    }
  }

  lemma EventsAssoc(x: seq<Event>, y: seq<Event>, z: seq<Event>)
    ensures (x + y) + z == x + (y + z) && [] + z == z && x + [] == x
  {
  }

  /** A new timer: the node goes to its place and to the end of the flat list. */
  lemma AddNew(w: Slots, clock: nat, t: Timer, pending: seq<Timer>)
    requires Placed(w, clock % WORD) && Holds(w, clock, [], pending) && clock <= t.due < clock + HALF
    ensures var n := Node(t.due % WORD, t.event);
            var k := PlaceOf(n.expire, clock % WORD);
            Placed(w[k := w[k] + [n]], clock % WORD) && Holds(w[k := w[k] + [n]], clock, [], pending + [t])
  {
    hide PlaceOf, DueAt, Expiring;
    var n := Node(t.due % WORD, t.event);
    var k := PlaceOf(n.expire, clock % WORD);
    var x := w[k := w[k] + [n]];
    forall e: Word ensures Expiring(x[PlaceOf(e, clock % WORD)], e) + Expiring([], e) == DueAt(pending + [t], TickOf(e, clock)) {
      ExpiringAppend(w[k], n, e);
      NotExpiring([], e);
      DueAppend(pending, t, TickOf(e, clock));
      TickOfExpire(t.due, clock, e);
      assert Expiring(w[PlaceOf(e, clock % WORD)], e) + Expiring([], e) == DueAt(pending, TickOf(e, clock));
    }
  }

  lemma TickOfExpire(due: nat, clock: nat, e: Word)
    requires clock <= due < clock + HALF
    ensures due == TickOf(e, clock) <==> due % WORD == e
  {
  }

  /** What timer_shift leaves to be put back, and the wheel without it. */
  function Lifted(w: Slots, ct: Word): seq<Node>
    requires |w| == SLOTS
  {
    var m := MovedSlot(ct);
    if m.Some? then w[m.value] else []
  }

  function Emptied(w: Slots, ct: Word): (r: Slots)
    requires |w| == SLOTS
    ensures |r| == SLOTS
  {
    var m := MovedSlot(ct);
    if m.Some? then w[m.value := []] else w
  }

  /** Live expiries keep their tick when the clock advances. */
  lemma TickOfNext(e: Word, clock: nat)
    requires e != clock % WORD
    ensures TickOf(e, clock + 1) == TickOf(e, clock) && (clock + 1) % WORD == Next(clock % WORD)
  {
  }

  lemma LiveAhead(e: Word, clock: nat)
    requires clock < TickOf(e, clock) < clock + HALF
    ensures Ahead(e, clock % WORD)
  {
  }

  /** Every node of the wheel stands for a timer that is due later. */
  lemma NodeAhead(w: Slots, clock: nat, pending: seq<Timer>, k: int, j: int)
    requires Placed(w, clock % WORD) && Holds(w, clock, [], pending) && Within(pending, clock) && NoneDue(pending, clock)
    requires 0 <= k < SLOTS && 0 <= j < |w[k]|
    ensures Ahead(w[k][j].expire, clock % WORD) && w[k][j].expire != clock % WORD
  {
    hide PlaceOf, DueAt, Expiring, Ahead, TickOf;
    var e := w[k][j].expire;
    assert Expiring(w[k], e) + Expiring([], e) == DueAt(pending, TickOf(e, clock));
    if DueAt(pending, TickOf(e, clock)) == [] {
      assert Expiring(w[k], e) == [];
      NoNodes(w[k], e);
      assert false;
    }
    DueExists(pending, TickOf(e, clock));
    LiveAhead(e, clock);
    TickOfSelf(e, clock);
  }

  lemma TickOfSelf(e: Word, clock: nat)
    ensures TickOf(e, clock) == clock <==> e == clock % WORD
  {
  }

  lemma DueExists(pending: seq<Timer>, T: int)
    requires DueAt(pending, T) != []
    ensures exists k :: 0 <= k < |pending| && pending[k].due == T
  {
    if forall k :: 0 <= k < |pending| ==> pending[k].due != T { NothingDue(pending, T); }
  }

  /** The clock tick: what is left in the wheel is at its new place, and nothing is lost. */
  lemma ShiftKeeps(w: Slots, clock: nat, pending: seq<Timer>)
    requires Placed(w, clock % WORD) && Holds(w, clock, [], pending) && Within(pending, clock) && NoneDue(pending, clock)
    ensures var ct := Next(clock % WORD);
            && Placed(Emptied(w, ct), ct)
            && (clock + 1) % WORD == ct
            && Holds(Emptied(w, ct), clock + 1, Lifted(w, ct), pending)
  {
    hide PlaceOf, DueAt, Expiring, Ahead, TickOf, MovedSlot, Next;
    var now := clock % WORD;
    var ct := Next(now);
    var x: Slots := Emptied(w, ct);
    TickOfNext(if now == 0 then 1 else 0, clock);
    forall k, j | 0 <= k < SLOTS && 0 <= j < |x[k]| ensures PlaceOf(x[k][j].expire, ct) == k {
      NodeAhead(w, clock, pending, k, j);
      PlaceStays(x[k][j].expire, now);
    }
    forall e: Word ensures Expiring(x[PlaceOf(e, ct)], e) + Expiring(Lifted(w, ct), e) == DueAt(pending, TickOf(e, clock + 1)) {
      ShiftExpiry(w, clock, pending, e);
    }
  }

  lemma ShiftExpiry(w: Slots, clock: nat, pending: seq<Timer>, e: Word)
    requires Placed(w, clock % WORD) && Holds(w, clock, [], pending) && Within(pending, clock) && NoneDue(pending, clock)
    requires (clock + 1) % WORD == Next(clock % WORD)
    ensures var ct := Next(clock % WORD);
            Expiring(Emptied(w, ct)[PlaceOf(e, ct)], e) + Expiring(Lifted(w, ct), e) == DueAt(pending, TickOf(e, clock + 1))
  {
    hide PlaceOf, DueAt, Expiring, Ahead, TickOf, MovedSlot, Next;
    var now := clock % WORD;
    var ct := Next(now);
    var p, q := PlaceOf(e, now), PlaceOf(e, ct);
    NotExpiring([], e);
    assert Expiring(w[p], e) + Expiring([], e) == DueAt(pending, TickOf(e, clock));
    if exists j :: 0 <= j < |w[p]| && w[p][j].expire == e {
      var j :| 0 <= j < |w[p]| && w[p][j].expire == e;
      NodeAhead(w, clock, pending, p, j);
      TickOfNext(e, clock);
      if MovedSlot(ct) == Some(p) {
        if q != p { Elsewhere(w, now, e, q); }
      } else {
        PlaceStays(e, now);
        if MovedSlot(ct).Some? { Elsewhere(w, now, e, MovedSlot(ct).value); }
      }
    } else {
      NotExpiring(w[p], e);
      if q != p { Elsewhere(w, now, e, q); }
      if MovedSlot(ct).Some? && MovedSlot(ct).value != p { Elsewhere(w, now, e, MovedSlot(ct).value); }
      NotDueNext(pending, clock, e);
    }
  }

  /** A slot that is not e's place holds no node that expires at e. */
  lemma Elsewhere(w: Slots, now: Word, e: Word, k: int)
    requires Placed(w, now) && 0 <= k < SLOTS && k != PlaceOf(e, now)
    ensures Expiring(w[k], e) == []
  {
    hide PlaceOf, Expiring;
    NotExpiring(w[k], e);
  }

  lemma NotDueNext(pending: seq<Timer>, clock: nat, e: Word)
    requires DueAt(pending, TickOf(e, clock)) == [] && Within(pending, clock)
    ensures DueAt(pending, TickOf(e, clock + 1)) == []
  {
    hide DueAt;
    if e == clock % WORD {
      NothingDue(pending, TickOf(e, clock + 1));
    } else {
      TickOfNext(e, clock);
    }
  }

  /** timer_execute: the near slot under the clock holds exactly the timers due now; without it the wheel
      holds the rest. */
  lemma ExecuteKeeps(w: Slots, clock: nat, pending: seq<Timer>)
    requires Placed(w, clock % WORD) && Holds(w, clock, [], pending)
    ensures var k := clock % NEAR;
            && Placed(w[k := []], clock % WORD)
            && Holds(w[k := []], clock, [], Without(pending, clock))
            && Expiring(w[k], clock % WORD) == DueAt(pending, clock)
            && (forall j :: 0 <= j < |w[k]| ==> w[k][j].expire == clock % WORD)
  {
    hide PlaceOf, DueAt, Expiring, TickOf, Without;
    var now := clock % WORD;
    var k := clock % NEAR;
    NearIndex(clock);
    PlaceNow(now, now);
    TickOfSelf(now, clock);
    NotExpiring([], now);
    assert Expiring(w[k], now) + Expiring([], now) == DueAt(pending, TickOf(now, clock));
    forall j | 0 <= j < |w[k]| ensures w[k][j].expire == now { PlaceNow(w[k][j].expire, now); }
    forall e: Word ensures Expiring(w[k := []][PlaceOf(e, now)], e) + Expiring([], e) == DueAt(Without(pending, clock), TickOf(e, clock)) {
      WithoutDue(pending, clock, TickOf(e, clock));
      TickOfSelf(e, clock);
      PlaceNow(e, now);
      NotExpiring([], e);
      assert Expiring(w[PlaceOf(e, now)], e) + Expiring([], e) == DueAt(pending, TickOf(e, clock));
    }
  }

  lemma NearIndex(clock: nat)
    ensures clock % NEAR == clock % WORD % NEAR
  {
  }

  /** Nodes that all expire at e are dispatched as the events of e. */
  function Events(list: seq<Node>): (r: seq<Event>)
    ensures |r| == |list|
  {
    seq(|list|, j requires 0 <= j < |list| => list[j].event)
  }

  lemma AllExpiring(list: seq<Node>, e: Word)
    requires forall j :: 0 <= j < |list| ==> list[j].expire == e
    ensures Expiring(list, e) == Events(list)
  {
    if list != [] {
      AllExpiring(list[..|list| - 1], e);
      assert Events(list) == Events(list[..|list| - 1]) + [list[|list| - 1].event];
    }
  }
}
