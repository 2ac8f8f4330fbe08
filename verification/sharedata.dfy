/** The read-only tables of lua-sharedata.c: a Lua table is copied into an array part and a hash part of
    exactly as many slots as it has other keys, whose collisions are chained through the slots left over. */
module SharedTables {
  import opened Wrappers

  type Word = x: int | 0 <= x < 0x1_0000_0000

  /** An integer key, or a string key by its text. Values stand for themselves. */
  datatype Key = KInt(n: int) | KStr(text: seq<bv8>)
  datatype Entry = Entry(key: Key, value: int)

  /** struct node; `filled` is valuetype != VALUETYPE_NIL. */
  datatype Node = Node(filled: bool, key: Key, hash: Word, next: int, nocolliding: bool, value: int)

  // ----- hashes -----

  /** calchash's loop, from character l1 down in steps. */
  function StringHash(text: seq<bv8>, l1: nat, step: nat, h: bv32): bv32
    requires l1 <= |text| && step > 0
    decreases l1
  {
    if l1 < step then h
    else StringHash(text, l1 - step, step, h ^ ((h << 5) + (h >> 2) + (text[l1 - 1] as bv32)))
  }

  function Hash(k: Key): Word {
    match k
    case KInt(n) => n % 0x1_0000_0000
    case KStr(text) => StringHash(text, |text|, |text| / 32 + 1, (|text| % 0x1_0000_0000) as bv32) as int
  }

  // ----- the source table -----

  predicate Distinct(es: seq<Entry>) { forall i, j :: 0 <= i < j < |es| ==> es[i].key != es[j].key }

  /** Keys of the array part. */
  predicate InArray(k: Key, size: nat) { k.KInt? && 0 < k.n <= size }

  /** The entries for the hash part. */
  function Hashed(es: seq<Entry>, size: nat): (r: seq<Entry>)
    ensures forall e :: e in r <==> e in es && !InArray(e.key, size)
  {
    if es == [] then []
    else
      var before := Hashed(es[..|es| - 1], size);
      var e := es[|es| - 1];
      assert es == es[..|es| - 1] + [e];
      if InArray(e.key, size) then before else before + [e]
  }

  /** What the source table holds under k. */
  ghost predicate Maps(es: seq<Entry>, k: Key, v: Option<int>) {
    match v
    case Some(x) => Entry(k, x) in es
    case None => forall e :: e in es ==> e.key != k
  }

  lemma HashedDistinct(es: seq<Entry>, size: nat)
    requires Distinct(es)
    ensures Distinct(Hashed(es, size))
  {
    if es != [] {
      HashedDistinct(es[..|es| - 1], size);
      forall e | e in es[..|es| - 1] ensures e.key != es[|es| - 1].key {}
    }
  }

  lemma HashedStep(es: seq<Entry>, size: nat, i: nat)
    requires i < |es|
    ensures Hashed(es[..i + 1], size) == Hashed(es[..i], size) + if InArray(es[i].key, size) then [] else [es[i]]
  {
    assert es[..i + 1][..i] == es[..i];
  }

  /** Distinct elements of a set are no more than the set has. */
  lemma FewDistinct<T>(list: seq<T>, s: set<T>)
    requires forall i, j :: 0 <= i < j < |list| ==> list[i] != list[j]
    requires forall x :: x in list ==> x in s
    ensures |list| <= |s|
  {
    if list != [] {
      var x := list[|list| - 1];
      assert list == list[..|list| - 1] + [x];
      FewDistinct(list[..|list| - 1], s - {x});
    }
  }

  // ----- the hash part -----

  function Main(k: Key, m: nat): (s: nat)
    requires m > 0
    ensures s < m
  {
    Hash(k) % m
  }

  /** The slot at place i of the list c holds a key whose main slot is s, and points to the next. */
  ghost predicate Link(nodes: seq<Node>, c: seq<int>, i: int, s: int)
    requires 0 <= i < |c|
  {
    && 0 <= c[i] < |nodes| && nodes[c[i]].filled && Main(nodes[c[i]].key, |nodes|) == s
    && nodes[c[i]].next == (if i + 1 < |c| then c[i + 1] else -1)
    && (nodes[c[i]].nocolliding ==> |c| == 1)
  }

  /** c lists the slots of the keys whose main slot is s: s first, each pointing to the next. */
  ghost predicate ChainOf(nodes: seq<Node>, c: seq<int>, s: int) {
    && (c != [] ==> c[0] == s)
    && (forall i :: 0 <= i < |c| ==> Link(nodes, c, i, s))
    && (forall i, j :: 0 <= i < j < |c| ==> c[i] != c[j])
  }

  /** Every filled slot is on the chain of its key's main slot, and holds the key's hash. */
  ghost predicate Chained(nodes: seq<Node>, chain: seq<seq<int>>) {
    && |chain| == |nodes|
    && (forall s :: 0 <= s < |chain| ==> ChainOf(nodes, chain[s], s))
    && (forall x :: 0 <= x < |nodes| && nodes[x].filled ==>
          nodes[x].hash == Hash(nodes[x].key) && x in chain[Main(nodes[x].key, |nodes|)])
  }

  ghost predicate Holds(nodes: seq<Node>, e: Entry) {
    exists x :: 0 <= x < |nodes| && nodes[x].filled && nodes[x].key == e.key && nodes[x].value == e.value
  }

  /** The filled slots hold entries of es, each key once. */
  ghost predicate Sourced(nodes: seq<Node>, es: seq<Entry>) {
    && (forall x :: 0 <= x < |nodes| && nodes[x].filled ==> Entry(nodes[x].key, nodes[x].value) in es)
    && (forall x, y :: 0 <= x < y < |nodes| && nodes[x].filled && nodes[y].filled ==> nodes[x].key != nodes[y].key)
  }

  predicate AllFilled(nodes: seq<Node>) { forall x :: 0 <= x < |nodes| ==> nodes[x].filled }

  /** While an entry is missing, a slot is free: the assertion of fillcolliding holds. */
  lemma SlotLeft(nodes: seq<Node>, es: seq<Entry>, k: Key)
    requires |nodes| == |es| && Distinct(es) && Sourced(nodes, es)
    requires (exists e :: e in es && e.key == k) && forall x :: 0 <= x < |nodes| && nodes[x].filled ==> nodes[x].key != k
    ensures !AllFilled(nodes)
  {
    if AllFilled(nodes) {
      var keys := seq(|nodes|, x requires 0 <= x < |nodes| => nodes[x].key);
      var all := set e | e in es :: e.key;
      KeyCount(es);
      forall x | x in keys ensures x in all - {k} {
        var i :| 0 <= i < |keys| && keys[i] == x;
        assert Entry(nodes[i].key, nodes[i].value) in es;
      }
      FewDistinct(keys, all - {k});
    }
  }

  lemma KeyCount(es: seq<Entry>)
    ensures |set e | e in es :: e.key| <= |es|
  {
    var all := set e | e in es :: e.key;
    if es == [] {
      assert all == {};
    } else {
      var l := es[..|es| - 1];
      KeyCount(l);
      assert es == l + [es[|es| - 1]];
      assert all == (set e | e in l :: e.key) + {es[|es| - 1].key};
    }
  }

  /** When every entry is stored no slot is left. */
  lemma NoSlotLeft(nodes: seq<Node>, es: seq<Entry>)
    requires |nodes| == |es| && Distinct(es) && forall e :: e in es ==> Holds(nodes, e)
    ensures AllFilled(nodes)
  {
    if !AllFilled(nodes) {
      var y :| 0 <= y < |nodes| && !nodes[y].filled;
      var slots := SlotsOf(nodes, es);
      FewDistinct(slots, Below(|nodes|) - {y});
    }
  }

  function Below(n: nat): (r: set<int>)
    ensures |r| == n && forall x :: x in r <==> 0 <= x < n
  {
    if n == 0 then {} else Below(n - 1) + {n - 1}
  }

  lemma SlotsOf(nodes: seq<Node>, es: seq<Entry>) returns (slots: seq<int>)
    requires Distinct(es) && forall e :: e in es ==> Holds(nodes, e)
    ensures |slots| == |es|
    ensures forall i :: 0 <= i < |es| ==> 0 <= slots[i] < |nodes| && nodes[slots[i]].filled && nodes[slots[i]].key == es[i].key
    ensures forall i, j :: 0 <= i < j < |slots| ==> slots[i] != slots[j]
  {
    if es == [] { slots := []; }
    else {
      var l := es[..|es| - 1];
      assert forall e :: e in l ==> e in es;
      var before := SlotsOf(nodes, l);
      var e := es[|es| - 1];
      assert Holds(nodes, e);
      var x :| 0 <= x < |nodes| && nodes[x].filled && nodes[x].key == e.key && nodes[x].value == e.value;
      slots := before + [x];
    }
  }

  // ----- filling -----

  /** The first pass: only main slots are filled, each with an entry of its own. */
  ghost predicate MainsOnly(nodes: seq<Node>) {
    forall x :: 0 <= x < |nodes| ==>
      && nodes[x].next == -1 && (!nodes[x].filled ==> !nodes[x].nocolliding)
      && (nodes[x].filled ==> nodes[x].nocolliding && nodes[x].hash == Hash(nodes[x].key) && Main(nodes[x].key, |nodes|) == x)
  }

  /** Every entry's main slot is filled. */
  ghost predicate MainsFilled(nodes: seq<Node>, es: seq<Entry>)
    requires es != [] ==> |nodes| > 0
  {
    forall e :: e in es ==> nodes[Main(e.key, |nodes|)].filled
  }

  function FirstChains(nodes: seq<Node>): (chain: seq<seq<int>>)
    ensures |chain| == |nodes| && forall s :: 0 <= s < |nodes| ==> chain[s] == if nodes[s].filled then [s] else []
  {
    seq(|nodes|, s requires 0 <= s < |nodes| => if nodes[s].filled then [s] else [])
  }

  lemma FirstChained(nodes: seq<Node>)
    requires MainsOnly(nodes)
    ensures Chained(nodes, FirstChains(nodes))
  {
  }

  /** A collision: slot n takes the key and is linked behind the main slot s. */
  function Insert(nodes: seq<Node>, s: int, n: int, e: Entry): (r: seq<Node>)
    requires 0 <= s < |nodes| && 0 <= n < |nodes| && s != n
    ensures |r| == |nodes|
  {
    nodes[n := Node(true, e.key, Hash(e.key), nodes[s].next, false, e.value)][s := nodes[s].(next := n, nocolliding := false)]
  }

  /** The chain a new slot is linked into. */
  lemma InsertLink(nodes: seq<Node>, c: seq<int>, s: int, n: int, e: Entry, i: int)
    requires 0 <= s < |nodes| && 0 <= n < |nodes| && nodes[s].filled && !nodes[n].filled && s != n
    requires ChainOf(nodes, c, s) && c != [] && Main(e.key, |nodes|) == s && 0 <= i <= |c|
    ensures Link(Insert(nodes, s, n, e), [s, n] + c[1..], i, s)
  {
    var d := [s, n] + c[1..];
    assert Link(nodes, c, 0, s);
    assert |c| > 1 ==> d[2] == c[1];
    if i > 1 {
      assert Link(nodes, c, i - 1, s) && c[i - 1] != c[0];
      assert d[i] == c[i - 1] && (i < |c| ==> d[i + 1] == c[i]);
    }
  }

  lemma InsertHere(nodes: seq<Node>, c: seq<int>, s: int, n: int, e: Entry)
    requires 0 <= s < |nodes| && 0 <= n < |nodes| && nodes[s].filled && !nodes[n].filled && s != n
    requires ChainOf(nodes, c, s) && c != [] && Main(e.key, |nodes|) == s
    ensures ChainOf(Insert(nodes, s, n, e), [s, n] + c[1..], s)
  {
    var r, d := Insert(nodes, s, n, e), [s, n] + c[1..];
    forall i | 0 <= i < |d| ensures Link(r, d, i, s) { InsertLink(nodes, c, s, n, e, i); }
    forall i | 0 <= i < |c| ensures c[i] != n { assert Link(nodes, c, i, s); }
    DistinctInsert(c, s, n);
  }

  lemma DistinctInsert(c: seq<int>, s: int, n: int)
    requires c != [] && c[0] == s != n && (forall i, j :: 0 <= i < j < |c| ==> c[i] != c[j]) && n !in c
    ensures var d := [s, n] + c[1..]; forall i, j :: 0 <= i < j < |d| ==> d[i] != d[j]
  {
    var d := [s, n] + c[1..];
    assert forall i :: 2 <= i < |d| ==> d[i] == c[i - 1];
  }

  lemma InsertThere(nodes: seq<Node>, c: seq<int>, t: int, s: int, n: int, e: Entry)
    requires 0 <= s < |nodes| && 0 <= n < |nodes| && nodes[s].filled && !nodes[n].filled && s != n
    requires ChainOf(nodes, c, t) && t != s && Main(nodes[s].key, |nodes|) == s
    ensures ChainOf(Insert(nodes, s, n, e), c, t)
  {
    var r := Insert(nodes, s, n, e);
    forall i | 0 <= i < |c| ensures Link(r, c, i, t) {
      assert Link(nodes, c, i, t);
      assert c[i] != s && c[i] != n && r[c[i]] == nodes[c[i]];
    }
  }

  lemma InsertChained(nodes: seq<Node>, chain: seq<seq<int>>, s: int, n: int, e: Entry)
    requires Chained(nodes, chain) && 0 <= s < |nodes| && 0 <= n < |nodes| && nodes[s].filled && !nodes[n].filled
    requires Main(nodes[s].key, |nodes|) == s == Main(e.key, |nodes|)
    ensures Chained(Insert(nodes, s, n, e), chain[s := [s, n] + chain[s][1..]])
  {
    hide Main, ChainOf;
    var r := Insert(nodes, s, n, e);
    var c := chain[s];
    var d := [s, n] + c[1..];
    assert s in c;
    assert c[0] == s by { ChainHead(nodes, c, s); }
    InsertHere(nodes, c, s, n, e);
    forall t | 0 <= t < |chain| && t != s ensures ChainOf(r, chain[t], t) { InsertThere(nodes, chain[t], t, s, n, e); }
    forall x | 0 <= x < |r| && r[x].filled
      ensures r[x].hash == Hash(r[x].key) && x in chain[s := d][Main(r[x].key, |r|)] {
      if x == n { assert d[1] == n; }
      else if x == s { assert d[0] == s; }
      else {
        assert nodes[x].filled && x in chain[Main(nodes[x].key, |nodes|)];
        if Main(nodes[x].key, |nodes|) == s {
          var i :| 0 <= i < |c| && c[i] == x;
          assert d[i + 1] == x;
        }
      }
    }
  }

  lemma ChainHead(nodes: seq<Node>, c: seq<int>, s: int)
    requires ChainOf(nodes, c, s) && c != []
    ensures c[0] == s
  {
  }

  /** Slot s holds a key whose main slot it is. */
  predicate MainHeld(nodes: seq<Node>, s: int)
    requires 0 <= s < |nodes|
  {
    nodes[s].filled && Main(nodes[s].key, |nodes|) == s
  }

  /** What the second pass keeps: mains stay, chains stay, and every other key is of an entry done. */
  ghost predicate Filling(nodes: seq<Node>, chain: seq<seq<int>>, es: seq<Entry>, done: seq<Entry>) {
    && Chained(nodes, chain) && Sourced(nodes, es) && |nodes| == |es|
    && (forall e :: e in es ==> MainHeld(nodes, Main(e.key, |nodes|)))
    && (forall x :: 0 <= x < |nodes| && nodes[x].filled ==>
          Main(nodes[x].key, |nodes|) == x || Entry(nodes[x].key, nodes[x].value) in done)
    && (forall e :: e in done ==> Holds(nodes, e))
  }

  /** An entry not done whose main slot holds another key is in no slot. */
  lemma NotStored(nodes: seq<Node>, chain: seq<seq<int>>, es: seq<Entry>, done: seq<Entry>, e: Entry)
    requires Filling(nodes, chain, es, done) && Distinct(es) && e in es && nodes[Main(e.key, |nodes|)].key != e.key
    requires forall d :: d in done ==> d in es && d.key != e.key
    ensures forall x :: 0 <= x < |nodes| && nodes[x].filled ==> nodes[x].key != e.key
  {
  }

  lemma InsertHolds(nodes: seq<Node>, s: int, n: int, e: Entry, d: Entry)
    requires 0 <= s < |nodes| && 0 <= n < |nodes| && s != n && !nodes[n].filled
    requires d == e || Holds(nodes, d)
    ensures Holds(Insert(nodes, s, n, e), d)
  {
    var r := Insert(nodes, s, n, e);
    if d == e { assert r[n].filled && r[n].key == e.key && r[n].value == e.value; }
    else {
      var x :| 0 <= x < |nodes| && nodes[x].filled && nodes[x].key == d.key && nodes[x].value == d.value;
      assert r[x].filled && r[x].key == d.key && r[x].value == d.value;
    }
  }

  lemma InsertSourced(nodes: seq<Node>, es: seq<Entry>, s: int, n: int, e: Entry)
    requires 0 <= s < |nodes| && 0 <= n < |nodes| && s != n && Sourced(nodes, es) && e in es
    requires forall x :: 0 <= x < |nodes| && nodes[x].filled ==> nodes[x].key != e.key
    ensures Sourced(Insert(nodes, s, n, e), es)
  {
    var r := Insert(nodes, s, n, e);
    forall x | 0 <= x < |r| && x != n ensures r[x].filled == nodes[x].filled && r[x].key == nodes[x].key && r[x].value == nodes[x].value {}
  }

  /** After an insertion every slot still holds a main key, or a key of an entry done. */
  lemma InsertMains(nodes: seq<Node>, es: seq<Entry>, done: seq<Entry>, s: int, n: int, e: Entry)
    requires 0 <= s < |nodes| && 0 <= n < |nodes| && s != n && !nodes[n].filled
    requires forall d :: d in es ==> MainHeld(nodes, Main(d.key, |nodes|))
    requires forall x :: 0 <= x < |nodes| && nodes[x].filled ==>
               Main(nodes[x].key, |nodes|) == x || Entry(nodes[x].key, nodes[x].value) in done
    ensures var r := Insert(nodes, s, n, e);
            && (forall d :: d in es ==> MainHeld(r, Main(d.key, |r|)))
            && (forall x :: 0 <= x < |r| && r[x].filled ==>
                  Main(r[x].key, |r|) == x || Entry(r[x].key, r[x].value) in done + [e])
  {
    var r := Insert(nodes, s, n, e);
    forall x | 0 <= x < |r| && x != n ensures r[x].filled == nodes[x].filled && r[x].key == nodes[x].key && r[x].value == nodes[x].value {}
    forall d | d in es ensures MainHeld(r, Main(d.key, |r|)) { assert MainHeld(nodes, Main(d.key, |nodes|)); }
  }

  lemma InsertFilling(nodes: seq<Node>, chain: seq<seq<int>>, es: seq<Entry>, done: seq<Entry>, n: int, e: Entry)
    requires Filling(nodes, chain, es, done) && Distinct(es) && e in es && nodes[Main(e.key, |nodes|)].key != e.key
    requires forall d :: d in done ==> d in es && d.key != e.key
    requires 0 <= n < |nodes| && !nodes[n].filled
    ensures var s := Main(e.key, |nodes|);
            Filling(Insert(nodes, s, n, e), chain[s := [s, n] + chain[s][1..]], es, done + [e])
  {
    var s := Main(e.key, |nodes|);
    assert MainHeld(nodes, s);
    NotStored(nodes, chain, es, done, e);
    InsertChained(nodes, chain, s, n, e);
    InsertSourced(nodes, es, s, n, e);
    InsertMains(nodes, es, done, s, n, e);
    hide Chained, Sourced, Holds, Insert, MainHeld;
    forall d | d in done + [e] ensures Holds(Insert(nodes, s, n, e), d) { InsertHolds(nodes, s, n, e, d); }
  }

  /** The array part holds what the source does under 1, 2, ... */
  ghost predicate ArrayAgrees(items: seq<Option<int>>, es: seq<Entry>) {
    forall n :: 0 < n <= |items| ==> Maps(es, KInt(n), items[n - 1])
  }

  lemma ArrayStep(items: seq<Option<int>>, es: seq<Entry>, e: Entry)
    requires ArrayAgrees(items, es) && Distinct(es + [e])
    ensures if InArray(e.key, |items|) then ArrayAgrees(items[e.key.n - 1 := Some(e.value)], es + [e])
            else ArrayAgrees(items, es + [e])
  {
    var more := es + [e];
    var after := if InArray(e.key, |items|) then items[e.key.n - 1 := Some(e.value)] else items;
    forall n | 0 < n <= |items| ensures Maps(more, KInt(n), after[n - 1]) {
      assert Maps(es, KInt(n), items[n - 1]);
      assert more[|es|] == e;
      if items[n - 1].Some? {
        var x := Entry(KInt(n), items[n - 1].value);
        var j :| 0 <= j < |es| && es[j] == x;
        assert more[j] == x && x.key != e.key;
      }
    }
  }

  class Table {
    /** The array part, None where the source has nil. */
    const items: array<Option<int>>
    const hash: array<Node>
    /** For each slot, the slots of the keys whose main slot it is. */
    ghost var chain: seq<seq<int>>

    /** The table agrees with the entries of the source table. */
    ghost predicate Valid(es: seq<Entry>)
      reads this, items, hash
    {
      && AllFilled(hash[..]) && Chained(hash[..], chain)
      && Sourced(hash[..], Hashed(es, items.Length))
      && (forall e :: e in Hashed(es, items.Length) ==> Holds(hash[..], e))
      && ArrayAgrees(items[..], es)
    }

    /** countsize */
    static method CountSize(es: seq<Entry>, size: nat) returns (n: nat)
      ensures n == |Hashed(es, size)|
    {
      n := 0;
      for i := 0 to |es|
        invariant n == |Hashed(es[..i], size)|
      {
        HashedStep(es, size, i);
        if !InArray(es[i].key, size) { n := n + 1; }
      }
      assert es[..|es|] == es;
    }

    constructor (arraySize: nat, hashSize: nat)
      ensures items.Length == arraySize && hash.Length == hashSize && fresh(items) && fresh(hash)
      ensures forall i :: 0 <= i < arraySize ==> items[i] == None
      ensures forall i :: 0 <= i < hashSize ==> hash[i] == Node(false, KInt(0), 0, -1, false, 0)
    {
      items := new Option<int>[arraySize](_ => None);
      hash := new Node[hashSize](_ => Node(false, KInt(0), 0, -1, false, 0));
      chain := [];
    }

    /** fillnocolliding: array keys, and the first key of each main slot. */
    method FillNoColliding(es: seq<Entry>)
      requires Distinct(es) && hash.Length == |Hashed(es, items.Length)| > 0
      requires forall i :: 0 <= i < items.Length ==> items[i] == None
      requires forall i :: 0 <= i < hash.Length ==> hash[i] == Node(false, KInt(0), 0, -1, false, 0)
      modifies items, hash
      ensures MainsOnly(hash[..]) && Sourced(hash[..], Hashed(es, items.Length)) && MainsFilled(hash[..], Hashed(es, items.Length))
      ensures ArrayAgrees(items[..], es)
    {
      hide MainsOnly, Sourced, MainsFilled, Hashed, ArrayAgrees, Hash;
      FillStart(es, items[..], hash[..]);
      var i := 0;
      while i < |es|
        invariant 0 <= i <= |es|
        invariant MainsOnly(hash[..]) && Sourced(hash[..], Hashed(es[..i], items.Length))
        invariant MainsFilled(hash[..], Hashed(es[..i], items.Length))
        invariant ArrayAgrees(items[..], es[..i])
      {
        ghost var before, row := hash[..], items[..];
        HashedStep(es, items.Length, i);
        var e := es[i];
        assert es[..i + 1] == es[..i] + [e];
        ArrayStep(row, es[..i], e);
        if InArray(e.key, items.Length) {
          items[e.key.n - 1] := Some(e.value);
          assert items[..] == row[e.key.n - 1 := Some(e.value)];
          assert Hashed(es[..i], items.Length) + [] == Hashed(es[..i], items.Length);
        } else {
          var s := Hash(e.key) % hash.Length;
          if !hash[s].filled {
            hash[s] := Node(true, e.key, Hash(e.key), -1, true, e.value);
            assert hash[..] == before[s := Node(true, e.key, Hash(e.key), -1, true, e.value)];
            FirstOfMain(es, items.Length, i, before, s);
          } else {
            MainTaken(Hashed(es[..i], items.Length), e, before);
          }
        }
        i := i + 1;
      }
      assert es[..|es|] == es;
    }

    /** fillcolliding: the other keys, each in the next slot left over, behind their main slot. */
    method FillColliding(es: seq<Entry>)
      requires Distinct(es) && hash.Length == |Hashed(es, items.Length)| > 0
      requires MainsOnly(hash[..]) && Sourced(hash[..], Hashed(es, items.Length)) && MainsFilled(hash[..], Hashed(es, items.Length))
      modifies this`chain, hash
      ensures AllFilled(hash[..]) && Chained(hash[..], chain) && Sourced(hash[..], Hashed(es, items.Length))
      ensures forall e :: e in Hashed(es, items.Length) ==> Holds(hash[..], e)
    {
      hide Hash, Chained, Sourced, Holds, MainHeld;
      ghost var all := Hashed(es, items.Length);
      HashedDistinct(es, items.Length);
      chain := FirstChains(hash[..]);
      FillingStart(hash[..], all);
      var emptyslot, i := 0, 0;
      while i < |es|
        invariant 0 <= i <= |es| && 0 <= emptyslot <= hash.Length
        invariant Filling(hash[..], chain, all, Hashed(es[..i], items.Length))
        invariant forall x :: 0 <= x < emptyslot ==> hash[x].filled
      {
        ghost var nodes, done := hash[..], Hashed(es[..i], items.Length);
        HashedStep(es, items.Length, i);
        var e := es[i];
        if !InArray(e.key, items.Length) {
          StepFacts(es, items.Length, i);
          var main := Hash(e.key) % hash.Length;
          assert main == Main(e.key, |nodes|);
          if hash[main].key != e.key {
            NotStored(nodes, chain, all, done, e);
            SlotLeft(nodes, all, e.key);
            var n := NextEmpty(emptyslot);
            Place(e, main, n, all, done);
            emptyslot := n + 1;
          } else {
            MainDone(nodes, chain, all, done, e);
          }
        } else {
          assert done + [] == done;
        }
        i := i + 1;
      }
      assert es[..|es|] == es;
      NoSlotLeft(hash[..], all);
    }

    /** The next slot left over, from emptyslot on. */
    method NextEmpty(emptyslot: nat) returns (n: nat)
      requires !AllFilled(hash[..]) && emptyslot <= hash.Length && forall x :: 0 <= x < emptyslot ==> hash[x].filled
      ensures emptyslot <= n < hash.Length && !hash[n].filled && forall x :: 0 <= x < n ==> hash[x].filled
    {
      n := emptyslot;
      while hash[n].filled
        invariant emptyslot <= n < hash.Length && forall x :: 0 <= x < n ==> hash[x].filled
        decreases hash.Length - n
      {
        n := n + 1;
      }
    }

    /** An entry goes to slot n, behind its main slot. */
    method Place(e: Entry, main: nat, n: nat, ghost all: seq<Entry>, ghost done: seq<Entry>)
      requires hash.Length > 0 && n < hash.Length && !hash[n].filled && main == Main(e.key, hash.Length)
      requires Filling(hash[..], chain, all, done) && Distinct(all) && e in all && hash[main].key != e.key
      requires forall d :: d in done ==> d in all && d.key != e.key
      modifies this`chain, hash
      ensures Filling(hash[..], chain, all, done + [e])
      ensures forall x :: 0 <= x < hash.Length ==> hash[x].filled == (x == n || old(hash[x].filled))
    {
      ghost var nodes := hash[..];
      assert MainHeld(nodes, main);
      assert main in chain[main];
      InsertFilling(nodes, chain, all, done, n, e);
      hash[n] := Node(true, e.key, Hash(e.key), hash[main].next, false, e.value);
      hash[main] := hash[main].(next := n, nocolliding := false);
      assert hash[..] == Insert(nodes, main, n, e);
      chain := chain[main := [main, n] + chain[main][1..]];
    }

    /** convtable: afterwards the table agrees with the source table. */
    static method Convert(es: seq<Entry>, arraySize: nat) returns (t: Table)
      requires Distinct(es)
      ensures fresh(t) && fresh(t.items) && fresh(t.hash) && t.items.Length == arraySize && t.Valid(es)
    {
      hide Hashed, Chained, Sourced, Holds, MainsOnly, MainsFilled, ArrayAgrees;
      var n := CountSize(es, arraySize);
      t := new Table(arraySize, n);
      if n > 0 {
        t.FillNoColliding(es);
        t.FillColliding(es);
      } else {
        t.FillArray(es);
      }
    }

    /** The array part alone, when there is nothing to hash. */
    method FillArray(es: seq<Entry>)
      requires Distinct(es) && |Hashed(es, items.Length)| == 0 == hash.Length
      requires forall i :: 0 <= i < items.Length ==> items[i] == None
      modifies items, this`chain
      ensures Valid(es)
    {
      hide ArrayAgrees, Hashed;
      ArrayStart(items[..]);
      var i := 0;
      while i < |es|
        invariant 0 <= i <= |es| && ArrayAgrees(items[..], es[..i])
      {
        ghost var row := items[..];
        var e := es[i];
        assert es[..i + 1] == es[..i] + [e];
        ArrayStep(row, es[..i], e);
        OnlyArray(es, items.Length, e);
        items[e.key.n - 1] := Some(e.value);
        assert items[..] == row[e.key.n - 1 := Some(e.value)];
        i := i + 1;
      }
      assert es[..|es|] == es;
      chain := [];
    }

    /** lookup_key: the node of a key, or -1. */
    method LookupKey(k: Key, ghost es: seq<Entry>) returns (x: int)
      requires Valid(es) && Distinct(es)
      ensures -1 <= x < hash.Length
      ensures x >= 0 ==> hash[x].key == k
      ensures x < 0 ==> forall y :: 0 <= y < hash.Length ==> hash[y].key != k
    {
      hide Chained, Sourced, Holds, Walking, NotOn, Hashed, ArrayAgrees, StringHash, Hash, Main;
      if hash.Length == 0 { return -1; }
      ghost var nodes, chains := hash[..], chain;
      var keyhash := Hash(k);
      x := keyhash % hash.Length;
      assert x == Main(k, hash.Length) by { MainIs(k, hash.Length); }
      ghost var main, j := ChainStart(nodes, chains, k);
      if keyhash != hash[x].hash && hash[x].nocolliding {
        Alone(nodes, chains, main, j, k);
        NotFound(nodes, chains, main, k);
        return -1;
      }
      x := Walk(nodes, chains, main, j, x, k);
    }

    /** lookup_key's loop. */
    method Walk(ghost nodes: seq<Node>, ghost chains: seq<seq<int>>, ghost main: nat, ghost start: nat, from: int, k: Key) returns (x: int)
      requires nodes == hash[..] && Walking(nodes, chains, main, start, from, k)
      ensures -1 <= x < hash.Length
      ensures x >= 0 ==> hash[x].key == k
      ensures x < 0 ==> forall y :: 0 <= y < hash.Length ==> hash[y].key != k
    {
      hide Walking, NotOn, Hash;
      x := from;
      ghost var j := start;
      while true
        invariant Walking(nodes, chains, main, j, x, k)
        decreases Left(chains, main, j)
      {
        WalkStep(nodes, chains, main, j, x, k);
        if Hash(k) == hash[x].hash && hash[x].key == k { return; }
        if hash[x].next < 0 {
          NotFound(nodes, chains, main, k);
          return -1;
        }
        x := hash[x].next;
        j := j + 1;
      }
    }

    /** lindexconf: indexing the copy is indexing the source table. */
    method Index(k: Key, ghost es: seq<Entry>) returns (v: Option<int>)
      requires Valid(es) && Distinct(es)
      ensures Maps(es, k, v)
    {
      hide Chained, ArrayAgrees, Hash;
      if InArray(k, items.Length) {
        AgreesAt(items[..], es, k.n);
        return items[k.n - 1];
      }
      var x := LookupKey(k, es);
      if x >= 0 {
        assert Entry(hash[..][x].key, hash[..][x].value) in Hashed(es, items.Length);
        return Some(hash[x].value);
      }
      NotThere(hash[..], es, items.Length, k);
      return None;
    }

    /** lnextkey, from the start or from a key. */
    method NextKey(k: Option<Key>, ghost es: seq<Entry>) returns (next: Option<Key>)
      requires Valid(es) && Distinct(es)
      ensures Follows(Visited(items[..], hash[..]), k, next)
    {
      hide Chained, ArrayAgrees, Hash, Holds, Hashed, Sourced;
      if k.Some? && !InArray(k.value, items.Length) {
        var x := LookupKey(k.value, es);
        next := if 0 <= x && x + 1 < hash.Length then Some(hash[x + 1].key) else None;
        assert forall y :: 0 <= y < hash.Length ==> hash[..][y].key == hash[y].key;
        HashNext(items[..], hash[..], x, k.value, next, Hashed(es, items.Length));
      } else {
        var from := if k.Some? then k.value.n else 0;
        next := NextInArray(from);
        HashedNodes(hash[..], es, items.Length);
        ArrayNext(items[..], hash[..], from, k, next);
      }
    }

    /** The first key after position i of the array part, or the first of the hash part. */
    method NextInArray(from: nat) returns (next: Option<Key>)
      requires from <= items.Length
      ensures next == First(ArrayKeys(items[..], from) + HashKeys(hash[..]))
    {
      var i := from;
      while i < items.Length
        invariant from <= i <= items.Length && ArrayKeys(items[..], from) == ArrayKeys(items[..], i)
      {
        if items[i].Some? { return Some(KInt(i + 1)); }
        i := i + 1;
      }
      if hash.Length > 0 { return Some(hash[0].key); }
      return None;
    }
  }

  /** The slots of main's chain from j on. */
  ghost function Left(chain: seq<seq<int>>, main: nat, j: nat): nat {
    if main < |chain| && j < |chain[main]| then |chain[main]| - j else 0
  }

  lemma FillStart(es: seq<Entry>, items: seq<Option<int>>, nodes: seq<Node>)
    requires forall i :: 0 <= i < |items| ==> items[i] == None
    requires forall i :: 0 <= i < |nodes| ==> nodes[i] == Node(false, KInt(0), 0, -1, false, 0)
    requires |nodes| > 0
    ensures var none := Hashed(es[..0], |items|);
            MainsOnly(nodes) && Sourced(nodes, none) && MainsFilled(nodes, none) && ArrayAgrees(items, es[..0])
  {
  }

  lemma MainTaken(done: seq<Entry>, e: Entry, nodes: seq<Node>)
    requires |nodes| > 0 && nodes[Main(e.key, |nodes|)].filled && Sourced(nodes, done) && MainsFilled(nodes, done)
    ensures Sourced(nodes, done + [e]) && MainsFilled(nodes, done + [e])
  {
  }

  lemma FirstOfMain(es: seq<Entry>, size: nat, i: nat, nodes: seq<Node>, s: int)
    requires i < |es| && Distinct(es) && !InArray(es[i].key, size) && |nodes| > 0
    requires MainsOnly(nodes) && Sourced(nodes, Hashed(es[..i], size)) && MainsFilled(nodes, Hashed(es[..i], size))
    requires s == Main(es[i].key, |nodes|) && !nodes[s].filled
    ensures var r := nodes[s := Node(true, es[i].key, Hash(es[i].key), -1, true, es[i].value)];
            MainsOnly(r) && Sourced(r, Hashed(es[..i], size) + [es[i]]) && MainsFilled(r, Hashed(es[..i], size) + [es[i]])
  {
    var r := nodes[s := Node(true, es[i].key, Hash(es[i].key), -1, true, es[i].value)];
    forall x | 0 <= x < |nodes| && nodes[x].filled ensures nodes[x].key != es[i].key {
      var e := Entry(nodes[x].key, nodes[x].value);
      assert e in es[..i];
      var j :| 0 <= j < i && es[j] == e;
    }
  }

  lemma FillingStart(nodes: seq<Node>, es: seq<Entry>)
    requires MainsOnly(nodes) && Sourced(nodes, es) && |nodes| == |es| > 0 && MainsFilled(nodes, es)
    ensures Filling(nodes, FirstChains(nodes), es, [])
  {
    FirstChained(nodes);
  }

  /** An entry already in its main slot. */
  lemma MainDone(nodes: seq<Node>, chain: seq<seq<int>>, es: seq<Entry>, done: seq<Entry>, e: Entry)
    requires Filling(nodes, chain, es, done) && Distinct(es) && e in es && nodes[Main(e.key, |nodes|)].key == e.key
    ensures Filling(nodes, chain, es, done + [e])
  {
    var s := Main(e.key, |nodes|);
    assert MainHeld(nodes, s);
    var f := Entry(nodes[s].key, nodes[s].value);
    assert f in es && f.key == e.key;
    var i :| 0 <= i < |es| && es[i] == f;
    var j :| 0 <= j < |es| && es[j] == e;
    assert i == j;
    assert Holds(nodes, e);
  }

  /** The entry at i is not among those before it. */
  lemma StepFacts(es: seq<Entry>, size: nat, i: nat)
    requires i < |es| && Distinct(es) && !InArray(es[i].key, size)
    ensures es[i] in Hashed(es, size)
    ensures forall d :: d in Hashed(es[..i], size) ==> d in Hashed(es, size) && d.key != es[i].key
  {
    forall d | d in Hashed(es[..i], size) ensures d in es && d.key != es[i].key {
      assert d in es[..i];
      var j :| 0 <= j < i && es[j] == d;
    }
  }

  lemma ArrayStart(items: seq<Option<int>>)
    requires forall i :: 0 <= i < |items| ==> items[i] == None
    ensures ArrayAgrees(items, [])
  {
  }

  lemma OnlyArray(es: seq<Entry>, size: nat, e: Entry)
    requires |Hashed(es, size)| == 0 && e in es
    ensures InArray(e.key, size)
  {
    assert e !in Hashed(es, size);
  }

  // ----- looking up -----

  lemma MainIs(k: Key, m: nat)
    requires m > 0
    ensures Main(k, m) == Hash(k) % m
  {
  }

  /** The search for k is at x, the slot j of the chain of main; the slots before hold other keys. */
  ghost predicate Walking(nodes: seq<Node>, chain: seq<seq<int>>, main: nat, j: nat, x: int, k: Key) {
    && Chained(nodes, chain) && AllFilled(nodes) && main < |nodes| == |chain| && j < |chain[main]| && chain[main][j] == x
    && 0 <= x < |nodes| && Main(nodes[Main(k, |nodes|)].key, |nodes|) == main
    && forall i :: 0 <= i < j ==> 0 <= chain[main][i] < |nodes| && nodes[chain[main][i]].key != k
  }

  /** A search starts at the key's main slot, which may lie in the middle of another key's chain. */
  lemma ChainStart(nodes: seq<Node>, chain: seq<seq<int>>, k: Key) returns (main: nat, j: nat)
    requires |nodes| > 0 && Chained(nodes, chain) && AllFilled(nodes)
    ensures Walking(nodes, chain, main, j, Main(k, |nodes|), k)
  {
    var x := Main(k, |nodes|);
    main := Main(nodes[x].key, |nodes|);
    assert x in chain[main];
    j :| j < |chain[main]| && chain[main][j] == x;
    assert ChainOf(nodes, chain[main], main);
    assert j > 0 ==> chain[main][0] == main && main != x;
    forall i | 0 <= i < j ensures 0 <= chain[main][i] < |nodes| && nodes[chain[main][i]].key != k {
      assert Link(nodes, chain[main], i, main);
    }
  }

  lemma WalkStep(nodes: seq<Node>, chain: seq<seq<int>>, main: nat, j: nat, x: int, k: Key)
    requires Walking(nodes, chain, main, j, x, k)
    ensures 0 <= x < |nodes| && nodes[x].hash == Hash(nodes[x].key) && Left(chain, main, j + 1) < Left(chain, main, j)
    ensures nodes[x].key != k && nodes[x].next >= 0 ==> j + 1 < |chain[main]| && Walking(nodes, chain, main, j + 1, nodes[x].next, k)
    ensures nodes[x].key != k && nodes[x].next < 0 ==> NotOn(nodes, chain, main, k)
  {
    var c := chain[main];
    assert ChainOf(nodes, c, main) && nodes[x].filled;
    assert Link(nodes, c, j, main);
    assert j + 1 < |c| ==> Link(nodes, c, j + 1, main);
    if nodes[x].key != k {
      forall i | 0 <= i < j + 1 ensures 0 <= c[i] < |nodes| && nodes[c[i]].key != k {
        if i == j { assert c[i] == x; }
      }
    }
  }

  /** k is on the chain of no slot of main, the main slot of the key in k's own main slot. */
  ghost predicate NotOn(nodes: seq<Node>, chain: seq<seq<int>>, main: nat, k: Key) {
    && Chained(nodes, chain) && AllFilled(nodes) && main < |nodes| == |chain| && Main(nodes[Main(k, |nodes|)].key, |nodes|) == main
    && forall i :: 0 <= i < |chain[main]| ==> 0 <= chain[main][i] < |nodes| && nodes[chain[main][i]].key != k
  }

  lemma NotFound(nodes: seq<Node>, chain: seq<seq<int>>, main: nat, k: Key)
    requires NotOn(nodes, chain, main, k)
    ensures forall y :: 0 <= y < |nodes| ==> nodes[y].key != k
  {
    var x := Main(k, |nodes|);
    assert ChainOf(nodes, chain[x], x) && nodes[x].filled;
    assert chain[x] != [] ==> Link(nodes, chain[x], 0, x) && chain[x][0] == x && main == x;
    assert main == x || chain[x] == [];
    forall y | 0 <= y < |nodes| ensures nodes[y].key != k {
      assert nodes[y].filled && y in chain[Main(nodes[y].key, |nodes|)];
    }
  }

  /** A slot without collisions is a chain of its own. */
  lemma Alone(nodes: seq<Node>, chain: seq<seq<int>>, main: nat, j: nat, k: Key)
    requires |nodes| > 0 && Walking(nodes, chain, main, j, Main(k, |nodes|), k)
    requires nodes[Main(k, |nodes|)].nocolliding && nodes[Main(k, |nodes|)].hash != Hash(k)
    ensures NotOn(nodes, chain, main, k)
  {
    assert ChainOf(nodes, chain[main], main) && Link(nodes, chain[main], j, main);
    assert nodes[Main(k, |nodes|)].filled;
  }

  lemma NotThere(nodes: seq<Node>, es: seq<Entry>, size: nat, k: Key)
    requires !InArray(k, size) && forall e :: e in Hashed(es, size) ==> Holds(nodes, e)
    requires forall y :: 0 <= y < |nodes| ==> nodes[y].key != k
    ensures Maps(es, k, None)
  {
    forall e | e in Hashed(es, size) ensures e.key != k { assert Holds(nodes, e); }
  }

  lemma AgreesAt(items: seq<Option<int>>, es: seq<Entry>, n: int)
    requires ArrayAgrees(items, es) && 0 < n <= |items|
    ensures Maps(es, KInt(n), items[n - 1])
  {
  }

  // ----- traversal -----

  function First(keys: seq<Key>): Option<Key> { if keys == [] then None else Some(keys[0]) }

  /** The keys, in the order lnextkey visits them. */
  function Visited(items: seq<Option<int>>, nodes: seq<Node>): seq<Key> { ArrayKeys(items, 0) + HashKeys(nodes) }

  /** next is the key after k, or the first one. */
  ghost predicate Follows(keys: seq<Key>, k: Option<Key>, next: Option<Key>) {
    && (k == None ==> next == First(keys))
    && forall i :: 0 <= i < |keys| && k == Some(keys[i]) ==> next == First(keys[i + 1..])
  }

  /** The array keys after position i. */
  function ArrayKeys(items: seq<Option<int>>, i: nat): seq<Key>
    decreases |items| - i
  {
    if i >= |items| then [] else (if items[i].Some? then [KInt(i + 1)] else []) + ArrayKeys(items, i + 1)
  }

  function HashKeys(nodes: seq<Node>): (r: seq<Key>)
    ensures |r| == |nodes| && forall i :: 0 <= i < |nodes| ==> r[i] == nodes[i].key
  {
    seq(|nodes|, i requires 0 <= i < |nodes| => nodes[i].key)
  }

  /** The key at place j names a non-nil position after i. */
  lemma ArrayKeyIs(items: seq<Option<int>>, i: nat, j: nat)
    requires j < |ArrayKeys(items, i)|
    ensures var k := ArrayKeys(items, i)[j]; k.KInt? && i < k.n <= |items| && items[k.n - 1].Some?
    decreases |items| - i
  {
    if items[i].Some? {
      if j > 0 { ArrayKeyIs(items, i + 1, j - 1); }
    } else {
      ArrayKeyIs(items, i + 1, j);
    }
  }

  /** The keys behind it are those after that position. */
  lemma ArrayKeyAt(items: seq<Option<int>>, i: nat, j: nat)
    requires j < |ArrayKeys(items, i)|
    ensures var ks := ArrayKeys(items, i);
            && ks[j].KInt? && i < ks[j].n <= |items| && items[ks[j].n - 1].Some?
            && ks[j + 1..] == ArrayKeys(items, ks[j].n)
    decreases |items| - i
  {
    hide ArrayKeys;
    ArrayKeyIs(items, i, j);
    ArrayKeysFrom(items, i);
    var rest := ArrayKeys(items, i + 1);
    if items[i].None? {
      ArrayKeyAt(items, i + 1, j);
    } else if j == 0 {
      assert ([KInt(i + 1)] + rest)[1..] == rest;
    } else {
      ArrayKeyAt(items, i + 1, j - 1);
      BehindFirst(KInt(i + 1), rest, j);
    }
  }

  lemma BehindFirst(k: Key, rest: seq<Key>, j: nat)
    requires 0 < j <= |rest|
    ensures ([k] + rest)[j] == rest[j - 1] && ([k] + rest)[j + 1..] == rest[j..]
  {
  }

  lemma BehindPlace(a: seq<Key>, h: seq<Key>, i: nat)
    requires i < |a| + |h|
    ensures i < |a| ==> (a + h)[i] == a[i] && (a + h)[i + 1..] == a[i + 1..] + h
    ensures i >= |a| ==> (a + h)[i] == h[i - |a|] && (a + h)[i + 1..] == h[i + 1 - |a|..]
  {
  }

  lemma ArrayKeysFrom(items: seq<Option<int>>, i: nat)
    ensures i >= |items| ==> ArrayKeys(items, i) == []
    ensures i < |items| && items[i].Some? ==> ArrayKeys(items, i) == [KInt(i + 1)] + ArrayKeys(items, i + 1)
    ensures i < |items| && items[i].None? ==> ArrayKeys(items, i) == ArrayKeys(items, i + 1)
  {
  }

  /** Every non-nil position after i has its key there. */
  lemma ArrayKeyOf(items: seq<Option<int>>, i: nat, n: int)
    requires i < n <= |items| && items[n - 1].Some?
    ensures KInt(n) in ArrayKeys(items, i)
    decreases |items| - i
  {
    if i + 1 < n { ArrayKeyOf(items, i + 1, n); } else { assert ArrayKeys(items, i)[0] == KInt(n); }
  }

  lemma ArrayNext(items: seq<Option<int>>, nodes: seq<Node>, from: nat, k: Option<Key>, next: Option<Key>)
    requires from <= |items| && next == First(ArrayKeys(items, from) + HashKeys(nodes))
    requires if k == None then from == 0 else k == Some(KInt(from)) && from > 0
    requires forall x :: 0 <= x < |nodes| ==> !InArray(nodes[x].key, |items|)
    ensures Follows(Visited(items, nodes), k, next)
  {
    var a, h := ArrayKeys(items, 0), HashKeys(nodes);
    forall i | 0 <= i < |h| ensures Some(h[i]) != k { assert !InArray(nodes[i].key, |items|); }
    forall i | 0 <= i < |a + h| && k == Some((a + h)[i]) ensures next == First((a + h)[i + 1..]) {
      BehindPlace(a, h, i);
      ArrayKeyAt(items, 0, i);
    }
  }

  lemma HashNext(items: seq<Option<int>>, nodes: seq<Node>, x: int, k: Key, next: Option<Key>, es: seq<Entry>)
    requires AllFilled(nodes) && Sourced(nodes, es) && -1 <= x < |nodes| && !InArray(k, |items|)
    requires if x >= 0 then nodes[x].key == k else forall y :: 0 <= y < |nodes| ==> nodes[y].key != k
    requires next == if 0 <= x && x + 1 < |nodes| then Some(nodes[x + 1].key) else None
    ensures Follows(Visited(items, nodes), Some(k), next)
  {
    var a, h := ArrayKeys(items, 0), HashKeys(nodes);
    forall i | 0 <= i < |a| ensures a[i] != k { ArrayKeyAt(items, 0, i); }
    forall i | 0 <= i < |a + h| && (a + h)[i] == k ensures next == First((a + h)[i + 1..]) {
      BehindPlace(a, h, i);
      assert h[i - |a|] == nodes[i - |a|].key;
      assert i - |a| == x by { assert nodes[x].filled && nodes[i - |a|].filled; }
    }
  }

  lemma HashedNodes(nodes: seq<Node>, es: seq<Entry>, size: nat)
    requires AllFilled(nodes) && Sourced(nodes, Hashed(es, size))
    ensures forall x :: 0 <= x < |nodes| ==> Entry(nodes[x].key, nodes[x].value) in es && !InArray(nodes[x].key, size)
    ensures forall x, y :: 0 <= x < y < |nodes| ==> nodes[x].key != nodes[y].key
  {
    forall x | 0 <= x < |nodes| ensures Entry(nodes[x].key, nodes[x].value) in es && !InArray(nodes[x].key, size) {
      assert nodes[x].filled && Entry(nodes[x].key, nodes[x].value) in Hashed(es, size);
    }
    forall x, y | 0 <= x < y < |nodes| ensures nodes[x].key != nodes[y].key { assert nodes[x].filled && nodes[y].filled; }
  }

  /** A traversal visits every key of the source table, each exactly once. */
  lemma KeysExact(items: seq<Option<int>>, nodes: seq<Node>, es: seq<Entry>)
    requires AllFilled(nodes) && Sourced(nodes, Hashed(es, |items|)) && ArrayAgrees(items, es)
    requires forall e :: e in Hashed(es, |items|) ==> Holds(nodes, e)
    ensures var ks := Visited(items, nodes);
            && (forall i, j :: 0 <= i < j < |ks| ==> ks[i] != ks[j])
            && (forall k :: k in ks <==> exists e :: e in es && e.key == k)
  {
    hide Hashed, Sourced, Maps;
    var a, h := ArrayKeys(items, 0), HashKeys(nodes);
    var ks := Visited(items, nodes);
    HashedNodes(nodes, es, |items|);
    KeysDistinct(items, nodes);
    forall k | k in ks ensures exists e :: e in es && e.key == k {
      var i :| 0 <= i < |ks| && ks[i] == k;
      if i < |a| { ArrayVisited(items, es, i); } else { assert Entry(k, nodes[i - |a|].value) in es; }
    }
    forall e | e in es ensures e.key in ks { KeyVisited(items, nodes, es, e); }
  }

  lemma ArrayVisited(items: seq<Option<int>>, es: seq<Entry>, i: nat)
    requires ArrayAgrees(items, es) && i < |ArrayKeys(items, 0)|
    ensures exists e :: e in es && e.key == ArrayKeys(items, 0)[i]
  {
    hide Maps;
    var k := ArrayKeys(items, 0)[i];
    ArrayKeyIs(items, 0, i);
    AgreesAt(items, es, k.n);
    MapsSome(es, k, items[k.n - 1].value);
  }

  lemma KeysDistinct(items: seq<Option<int>>, nodes: seq<Node>)
    requires forall x :: 0 <= x < |nodes| ==> !InArray(nodes[x].key, |items|)
    requires forall x, y :: 0 <= x < y < |nodes| ==> nodes[x].key != nodes[y].key
    ensures var ks := Visited(items, nodes); forall i, j :: 0 <= i < j < |ks| ==> ks[i] != ks[j]
  {
    var a, h := ArrayKeys(items, 0), HashKeys(nodes);
    forall i, j | 0 <= i < j < |a + h| ensures (a + h)[i] != (a + h)[j] {
      BehindPlace(a, h, i);
      BehindPlace(a, h, j);
      if i < |a| {
        ArrayKeyAt(items, 0, i);
        if j < |a| {
          assert a[j] == a[i + 1..][j - i - 1];
          ArrayKeyIs(items, a[i].n, j - i - 1);
        }
      }
    }
  }

  lemma MapsSome(es: seq<Entry>, k: Key, v: int)
    requires Maps(es, k, Some(v))
    ensures Entry(k, v) in es
  {
  }

  lemma KeyVisited(items: seq<Option<int>>, nodes: seq<Node>, es: seq<Entry>, e: Entry)
    requires ArrayAgrees(items, es) && e in es && (e in Hashed(es, |items|) ==> Holds(nodes, e))
    ensures e.key in Visited(items, nodes)
  {
    if InArray(e.key, |items|) {
      AgreesAt(items, es, e.key.n);
      ArrayKeyOf(items, 0, e.key.n);
    } else {
      var x :| 0 <= x < |nodes| && nodes[x].filled && nodes[x].key == e.key && nodes[x].value == e.value;
      assert HashKeys(nodes)[x] == e.key;
    }
  }
}
