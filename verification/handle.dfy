/** The table of live contexts and the names of handles (skynet_handle.c). Each operation runs with the lock of
    rwlock.h held, so it is one step here. */
module HandleTable {
  import opened Wrappers

  const DEFAULT_SLOT_BITS: nat := 2
  const HANDLE_MASK: nat := 0xff_ffff
  const HANDLES: nat := 0x100_0000
  const MAX_SLOT_SIZE: nat := 0x4000_0000

  /** struct skynet_context, as far as the table looks at it. */
  datatype Context = Context(id: nat, handle: nat)

  // ----- arithmetic of masks -----

  function Pow2(n: nat): (r: nat)
    ensures r >= 1
  {
    if n == 0 then 1 else 2 * Pow2(n - 1)
  }

  lemma {:induction false} Divides(n: nat, m: nat)
    requires n <= m
    ensures Pow2(m) == Pow2(n) * Pow2(m - n)
  {
    if n > 0 {
      Divides(n - 1, m - 1);
    }
  }

  /** The low bits of the low bits. */
  lemma ModMod(x: nat, m: nat, k: nat)
    requires m > 0 && k > 0
    ensures m * k > 0 && (x % (m * k)) % m == x % m
  {
    var r := x % (m * k);
    assert x == (m * k) * (x / (m * k)) + r;
    assert (m * k) * (x / (m * k)) == m * (k * (x / (m * k)));
    assert r == m * (r / m) + r % m;
    assert m * (k * (x / (m * k))) + m * (r / m) == m * (k * (x / (m * k)) + r / m);
    Residue(x, m, k * (x / (m * k)) + r / m, r % m);
  }

  lemma AllHandles()
    ensures Pow2(24) == HANDLES
  {
    assert Pow2(8) == 256;
    Divides(8, 16);
    Divides(16, 24);
  }

  /** The slot of a handle, whether the harbor is in it or not. */
  lemma SlotOf(harbor: nat, local: nat, bits: nat)
    requires local < HANDLES && bits <= 24
    ensures Hash(harbor * HANDLES + local, Pow2(bits)) == Hash(local, Pow2(bits))
  {
    hide Pow2;
    AllHandles();
    Divides(bits, 24);
    ModMod(harbor * HANDLES + local, Pow2(bits), Pow2(24 - bits));
    Residue(harbor * HANDLES + local, HANDLES, harbor, local);
  }

  /** handle & (slot_size - 1), where slot_size is a power of 2. */
  function Hash(h: nat, size: nat): (r: nat)
    requires size > 0
    ensures r < size
  {
    h % size
  }

  lemma Halves(h: nat, n: nat)
    requires n > 0
    ensures Hash(h, n) == Hash(Hash(h, 2 * n), n)
  {
    ModMod(h, n, 2);
  }

  lemma WholeHash(local: nat)
    requires local < HANDLES
    ensures Hash(local, HANDLES) == local
  {
  }

  // ----- names -----

  type Name = seq<nat>

  /** strcmp */
  function Compare(a: Name, b: Name): int {
    if a == [] then if b == [] then 0 else -1
    else if b == [] then 1
    else if a[0] < b[0] then -1
    else if a[0] > b[0] then 1
    else Compare(a[1..], b[1..])
  }

  lemma {:induction false} CompareSwap(a: Name, b: Name)
    ensures Compare(a, b) == 0 - Compare(b, a)
    ensures Compare(a, b) == 0 <==> a == b
  {
    if a != [] && b != [] && a[0] == b[0] {
      CompareSwap(a[1..], b[1..]);
      assert a == [a[0]] + a[1..] && b == [b[0]] + b[1..];
    }
  }

  lemma {:induction false} CompareTrans(a: Name, b: Name, c: Name)
    requires Compare(a, b) < 0 && Compare(b, c) < 0
    ensures Compare(a, c) < 0
  {
    if a != [] && b != [] && c != [] && a[0] == b[0] == c[0] {
      CompareTrans(a[1..], b[1..], c[1..]);
    }
  }

  datatype HandleName = HandleName(name: Name, handle: nat)

  ghost predicate Sorted(s: seq<HandleName>) {
    forall i, j :: 0 <= i < j < |s| ==> Compare(s[i].name, s[j].name) < 0
  }

  /** What a list of names says. */
  function MapOf(s: seq<HandleName>): map<Name, nat> {
    if s == [] then map[] else MapOf(s[..|s| - 1])[s[|s| - 1].name := s[|s| - 1].handle]
  }

  lemma {:induction false} InMap(s: seq<HandleName>, i: nat)
    requires Sorted(s) && i < |s|
    ensures s[i].name in MapOf(s) && MapOf(s)[s[i].name] == s[i].handle
  {
    var n := |s| - 1;
    if i < n {
      InMap(s[..n], i);
      CompareSwap(s[i].name, s[n].name);
    }
  }

  lemma {:induction false} OnlyInMap(s: seq<HandleName>, name: Name)
    requires forall i :: 0 <= i < |s| ==> s[i].name != name
    ensures name !in MapOf(s)
  {
    if s != [] { OnlyInMap(s[..|s| - 1], name); }
  }

  /** One more name anywhere in the list. */
  lemma {:induction false} InsertMap(a: seq<HandleName>, e: HandleName, b: seq<HandleName>)
    requires forall i :: 0 <= i < |b| ==> b[i].name != e.name
    ensures MapOf(a + [e] + b) == MapOf(a + b)[e.name := e.handle]
    decreases |b|
  {
    var s := a + [e] + b;
    if b == [] {
      assert s[..|s| - 1] == a && a + b == a;
    } else {
      var n := |b| - 1;
      assert s[..|s| - 1] == a + [e] + b[..n] && (a + b)[..|a + b| - 1] == a + b[..n];
      InsertMap(a, e, b[..n]);
    }
  }

  /** The names of other handles, in order. */
  function Others(s: seq<HandleName>, handle: nat): (r: seq<HandleName>)
    ensures |r| <= |s|
    ensures forall e :: e in r <==> e in s && e.handle != handle
  {
    if s == [] then []
    else
      var r, last := Others(s[..|s| - 1], handle), s[|s| - 1];
      assert s == s[..|s| - 1] + [last];
      if last.handle == handle then r else r + [last]
  }

  lemma {:induction false} OthersSorted(s: seq<HandleName>, handle: nat)
    requires Sorted(s)
    ensures Sorted(Others(s, handle))
  {
    hide Compare;
    if s != [] {
      OthersSorted(s[..|s| - 1], handle);
      SortedMore(Others(s[..|s| - 1], handle), s);
    }
  }

  lemma SortedMore(r: seq<HandleName>, s: seq<HandleName>)
    requires s != [] && Sorted(s) && Sorted(r) && forall e :: e in r ==> e in s[..|s| - 1]
    ensures Sorted(r + [s[|s| - 1]])
  {
    hide Compare;
    forall i | 0 <= i < |r| ensures Compare(r[i].name, s[|s| - 1].name) < 0 {
      assert r[i] in r;
    }
  }

  /** A map without the names of one handle. */
  function Without(m: map<Name, nat>, handle: nat): map<Name, nat> { map n | n in m && m[n] != handle :: m[n] }

  lemma WithoutPut(m: map<Name, nat>, name: Name, h: nat, handle: nat)
    requires name !in m
    ensures Without(m[name := h], handle) == if h == handle then Without(m, handle) else Without(m, handle)[name := h]
  {
  }

  lemma LastIsNew(s: seq<HandleName>)
    requires Sorted(s) && s != []
    ensures s[|s| - 1].name !in MapOf(s[..|s| - 1]) && Sorted(s[..|s| - 1])
  {
    var k := |s| - 1;
    forall i | 0 <= i < k ensures s[..k][i].name != s[k].name {
      CompareSwap(s[i].name, s[k].name);
    }
    OnlyInMap(s[..k], s[k].name);
  }

  lemma {:induction false} OthersMap(s: seq<HandleName>, handle: nat)
    requires Sorted(s)
    ensures MapOf(Others(s, handle)) == Without(MapOf(s), handle)
  {
    hide Without, Sorted;
    if s == [] {
      NoneLeft(handle);
    } else {
      var k := |s| - 1;
      LastIsNew(s);
      OthersMap(s[..k], handle);
      WithoutPut(MapOf(s[..k]), s[k].name, s[k].handle, handle);
      var r := Others(s, handle);
      assert s[k].handle != handle ==> r[..|r| - 1] == Others(s[..k], handle);
    }
  }

  lemma NoneLeft(handle: nat)
    ensures Without(map[], handle) == map[]
  {
  }

  // ----- slots -----

  /** The slots hold these contexts by their handles, each in the slot of its handle, and no others. */
  ghost predicate Holds(s: seq<Option<Context>>, m: map<nat, nat>)
    requires s != []
  {
    && (forall i :: 0 <= i < |s| && s[i].Some? ==>
        Hash(s[i].value.handle, |s|) == i && s[i].value.handle in m && m[s[i].value.handle] == s[i].value.id)
    && (forall h :: h in m ==> s[Hash(h, |s|)] == Some(Context(m[h], h)))
  }

  lemma HoldsPut(s: seq<Option<Context>>, m: map<nat, nat>, c: Context)
    requires s != [] && Holds(s, m) && s[Hash(c.handle, |s|)].None?
    ensures c.handle !in m
    ensures Holds(s[Hash(c.handle, |s|) := Some(c)], m[c.handle := c.id])
  {
    hide Hash;
  }

  lemma HoldsDrop(s: seq<Option<Context>>, m: map<nat, nat>, h: nat)
    requires s != [] && Holds(s, m) && h in m
    ensures Holds(s[Hash(h, |s|) := None], m - {h})
  {
    hide Hash;
  }

  /** The contexts of the first slots. */
  function Below(m: map<nat, nat>, size: nat, i: nat): map<nat, nat>
    requires size > 0
  {
    map h | h in m && Hash(h, size) < i :: m[h]
  }

  lemma BelowNext(s: seq<Option<Context>>, m: map<nat, nat>, i: nat)
    requires i < |s| && Holds(s, m)
    ensures Below(m, |s|, i + 1)
            == if s[i].None? then Below(m, |s|, i) else Below(m, |s|, i)[s[i].value.handle := s[i].value.id]
  {
    hide Hash;
  }

  /** The assertion of the rehash: in a table of twice the size the next context finds its slot empty. */
  lemma NewSlotEmpty(s: seq<Option<Context>>, t: seq<Option<Context>>, m: map<nat, nat>, i: nat)
    requires i < |s| && |t| == 2 * |s| && Holds(s, m) && s[i].Some? && Holds(t, Below(m, |s|, i))
    ensures t[Hash(s[i].value.handle, |t|)].None?
  {
    hide Hash;
    var j := Hash(s[i].value.handle, |t|);
    Halves(s[i].value.handle, |s|);
    if t[j].Some? {
      Halves(t[j].value.handle, |s|);
    }
  }

  /** A table is whole, or it has at most half the slots, and then two handles share one. */
  lemma Sizes(bits: nat)
    requires 1 <= bits <= 24
    ensures if bits == 24 then Pow2(bits) == HANDLES
            else 2 <= Pow2(bits) <= HANDLES / 2 && Hash(1 + Pow2(bits), Pow2(bits)) == Hash(1, Pow2(bits))
  {
    AllHandles();
    if bits < 24 {
      assert Pow2(24) == 2 * Pow2(23);
      assert Pow2(bits) == 2 * Pow2(bits - 1);
      hide Pow2;
      Divides(bits, 23);
      var size := Pow2(bits);
      AtLeast(size, Pow2(23 - bits));
      Residue(1 + size, size, 1, 1);
      Residue(1, size, 0, 1);
    }
  }

  lemma AtLeast(x: nat, k: nat)
    requires k >= 1
    ensures x * k >= x
  {
  }

  // ----- the table -----

  /** Where the handles of this table are: none is 0 without the harbor. */
  predicate Handle(harbor: nat, h: nat) { harbor * HANDLES < h < harbor * HANDLES + HANDLES }

  /** The handle is a live context's. */
  predicate Used(live: map<nat, nat>, harbor: nat, local: nat) { harbor * HANDLES + local in live }

  /** Every handle is. */
  ghost predicate Full(live: map<nat, nat>, harbor: nat) {
    forall local :: 1 <= local < HANDLES ==> Used(live, harbor, local)
  }

  class HandleStorage {
    const harbor: nat
    var handleIndex: nat
    var slot: array<Option<Context>>
    var nameCount: nat
    var name: array<HandleName>

    /** slot.Length is a power of 2; the live contexts by their handles. */
    ghost var bits: nat
    ghost var live: map<nat, nat>

    ghost predicate SlotsValid()
      reads this, slot
    {
      && slot.Length == Pow2(bits) && DEFAULT_SLOT_BITS <= bits <= 24
      && 1 <= handleIndex <= HANDLES
      && Holds(slot[..], live) && forall h :: h in live ==> Handle(harbor, h)
    }

    ghost predicate NamesValid()
      reads this, name
    {
      nameCount <= name.Length && 2 <= name.Length <= MAX_SLOT_SIZE && Sorted(name[..nameCount])
    }

    ghost predicate Valid()
      reads this, slot, name
    {
      SlotsValid() && NamesValid()
    }

    /** The names of handles. */
    ghost function Names(): map<Name, nat>
      requires NamesValid()
      reads this, name
    {
      MapOf(name[..nameCount])
    }

    /** skynet_handle_init */
    constructor (harbor: nat)
      ensures Valid() && live == map[] && Names() == map[] && this.harbor == harbor
      ensures fresh(slot) && fresh(name)
    {
      this.harbor := harbor;
      handleIndex, bits, live, nameCount := 1, DEFAULT_SLOT_BITS, map[], 0;
      slot := new Option<Context>[4](_ => None);
      name := new HandleName[2](_ => HandleName([], 0));
    }

    /** skynet_handle_grab finds exactly the live contexts. */
    method Grab(handle: nat) returns (r: Option<nat>)
      requires SlotsValid()
      ensures r == if handle in live then Some(live[handle]) else None
    {
      var ctx := slot[Hash(handle, slot.Length)];
      if ctx.Some? && ctx.value.handle == handle {
        return Some(ctx.value.id);
      }
      return None;
    }

    /** Some context sits where a handle would. */
    ghost predicate Taken(h: nat)
      requires slot.Length > 0
      reads this, slot
    {
      slot[Hash(h, slot.Length)].Some?
    }

    lemma UsedTaken(local: nat)
      requires SlotsValid() && 1 <= local < HANDLES
      ensures Used(live, harbor, local) ==> Taken(local)
      ensures bits == 24 && Taken(local) ==> Used(live, harbor, local)
    {
      hide Hash, Pow2;
      SlotOf(harbor, local, bits);
      if bits == 24 && Taken(local) {
        AllHandles();
        WholeHash(local);
        var h := slot[local].value.handle;
        SlotOf(harbor, h - harbor * HANDLES, bits);
        WholeHash(h - harbor * HANDLES);
      }
    }

    /** The scan of skynet_handle_register: as many handles as there are slots, beginning at handleIndex, and
        beginning again at 1 behind the last. */
    method Scan() returns (local: Option<nat>)
      requires slot.Length > 0 && 1 <= handleIndex <= HANDLES
      ensures local.Some? ==> 1 <= local.value <= HANDLE_MASK && !Taken(local.value)
      ensures local.None? && slot.Length == HANDLES ==> forall h :: 1 <= h < HANDLES ==> Taken(h)
    {
      hide Hash;
      var handle, i := handleIndex, 0;
      ghost var wrapped, all := false, false;
      while i < slot.Length
        invariant 0 <= i <= slot.Length && 1 <= handle <= HANDLES
        invariant all || handle == if wrapped then handleIndex + i - HANDLE_MASK else handleIndex + i
        invariant all ==> wrapped && forall k :: 1 <= k < HANDLES ==> Taken(k)
        invariant forall k :: handleIndex <= k < (if wrapped then HANDLES else handle) ==> Taken(k)
        invariant wrapped ==> forall k :: 1 <= k < handle ==> Taken(k)
      {
        if handle > HANDLE_MASK { handle, wrapped, all := 1, true, wrapped; }
        if slot[Hash(handle, slot.Length)].None? { return Some(handle); }
        assert Taken(handle);
        i, handle := i + 1, handle + 1;
      }
      return None;
    }

    /** The larger table of skynet_handle_register. */
    method Rehash()
      requires SlotsValid() && bits < 24
      modifies this`slot, this`bits
      ensures SlotsValid() && bits == old(bits) + 1 && fresh(slot)
    {
      assert Pow2(bits + 1) == 2 * Pow2(bits);
      hide Pow2, Hash, Holds, Below;
      var size := slot.Length;
      var larger := new Option<Context>[size * 2](_ => None);
      NoneBelow(larger[..], live, size);
      for i := 0 to size
        invariant unchanged(this) && unchanged(slot)
        invariant Holds(larger[..], Below(live, size, i))
      {
        MoveSlot(larger, i);
      }
      AllBelow(live, size);
      slot := larger;
      bits := bits + 1;
    }

    method MoveSlot(larger: array<Option<Context>>, i: nat)
      requires slot.Length > 0 && larger.Length == 2 * slot.Length && larger != slot
      requires Holds(slot[..], live) && i < slot.Length && Holds(larger[..], Below(live, slot.Length, i))
      modifies larger
      ensures Holds(larger[..], Below(live, slot.Length, i + 1))
    {
      hide Hash, Holds, Below;
      BelowNext(slot[..], live, i);
      if slot[i].Some? {
        NewSlotEmpty(slot[..], larger[..], live, i);
        HoldsPut(larger[..], Below(live, slot.Length, i), slot[i].value);
        var hash := Hash(slot[i].value.handle, larger.Length);
        assert larger[hash].None?;
        larger[hash] := slot[i];
      }
    }

    lemma NotFull()
      requires SlotsValid() && bits < 24
      ensures !Full(live, harbor)
    {
      hide Pow2, Hash;
      Sizes(bits);
      var size := slot.Length;
      if Full(live, harbor) {
        assert Used(live, harbor, 1) && Used(live, harbor, 1 + size);
        SlotOf(harbor, 1, bits);
        SlotOf(harbor, 1 + size, bits);
      }
    }

    /** skynet_handle_register, with the handle set: a handle that was not in use, or None where the assertion
        on the size of the table fails, which is when every handle is in use. */
    method Register(id: nat) returns (r: Option<nat>)
      requires SlotsValid()
      modifies this`slot, this`bits, this`handleIndex, this`live, slot
      ensures SlotsValid() && (slot == old(slot) || fresh(slot))
      ensures r.None? <==> Full(old(live), harbor)
      ensures r.None? ==> live == old(live)
      ensures r.Some? ==> Handle(harbor, r.value) && r.value !in old(live) && live == old(live)[r.value := id]
    {
      hide Pow2, Hash, Holds;
      while true
        invariant SlotsValid() && live == old(live) && (slot == old(slot) || fresh(slot))
        decreases 24 - bits
      {
        Sizes(bits);
        var local := Scan();
        if local.Some? {
          Place(id, local.value);
          return Some(harbor * HANDLES + local.value);
        }
        if slot.Length * 2 - 1 > HANDLE_MASK {
          assert Full(live, harbor) by { AllTaken(); }
          return None;
        }
        NotFull();
        Rehash();
      }
    }

    lemma AllTaken()
      requires SlotsValid() && bits == 24
      requires forall h :: 1 <= h < HANDLES ==> Taken(h)
      ensures Full(live, harbor)
    {
      hide Pow2, Hash, Holds;
      forall local | 1 <= local < HANDLES ensures Used(live, harbor, local) {
        UsedTaken(local);
      }
    }

    /** A context in a free slot. */
    method Place(id: nat, local: nat)
      requires SlotsValid() && 1 <= local < HANDLES && !Taken(local)
      modifies slot, this`handleIndex, this`live
      ensures SlotsValid()
      ensures !Full(old(live), harbor) && harbor * HANDLES + local !in old(live)
      ensures live == old(live)[harbor * HANDLES + local := id]
    {
      hide Hash, Pow2, Holds;
      UsedTaken(local);
      SlotOf(harbor, local, bits);
      var c := Context(id, harbor * HANDLES + local);
      HoldsPut(slot[..], live, c);
      slot[Hash(local, slot.Length)] := Some(c);
      handleIndex := local + 1;
      live := live[c.handle := id];
    }

    /** skynet_handle_retire: a live handle goes, and its names with it. */
    method Retire(handle: nat) returns (ret: bool)
      requires Valid()
      modifies this`live, this`nameCount, slot, name
      ensures Valid()
      ensures ret == (handle in old(live)) && live == old(live) - {handle}
      ensures Names() == if ret then Without(old(Names()), handle) else old(Names())
    {
      hide Hash, Pow2, Sorted, MapOf, Without, Others;
      var hash := Hash(handle, slot.Length);
      var ctx := slot[hash];
      ret := ctx.Some? && ctx.value.handle == handle;
      if ret {
        HoldsDrop(slot[..], live, handle);
        slot[hash] := None;
        live := live - {handle};
        DropNames(handle);
      } else {
        assert live - {handle} == live;
      }
    }

    /** The names of other handles close up. */
    method DropNames(handle: nat)
      requires NamesValid()
      modifies this`nameCount, name
      ensures NamesValid() && Names() == Without(old(Names()), handle)
    {
      hide Sorted, MapOf, Without, Others;
      ghost var was := name[..nameCount];
      nameCount := CloseUp(handle);
      OthersSorted(was, handle);
      OthersMap(was, handle);
    }

    /** A name moves down over those that are gone. */
    method PutName(i: nat, j: nat)
      requires j <= i < name.Length
      modifies name
      ensures name[..j + 1] == old(name[..j]) + [old(name[i])]
      ensures forall k :: j < k < name.Length ==> name[k] == old(name[k])
    {
      if i != j { name[j] := name[i]; }
    }

    /** The loop of skynet_handle_retire over the names. */
    method CloseUp(handle: nat) returns (j: nat)
      requires nameCount <= name.Length
      modifies name
      ensures j <= nameCount && name[..j] == Others(old(name[..nameCount]), handle)
    {
      hide Others;
      ghost var was := name[..nameCount];
      OthersNone(handle);
      j := 0;
      for i := 0 to nameCount
        invariant j <= i && name[..j] == Others(was[..i], handle)
        invariant forall k :: i <= k < nameCount ==> name[k] == was[k]
      {
        OthersNext(was, i, handle);
        if name[i].handle != handle {
          PutName(i, j);
          j := j + 1;
        }
      }
      assert was[..nameCount] == was;
    }

    /** The binary search of skynet_handle_findname and _insert_name: where the name is, or belongs. */
    method Search(n: Name) returns (found: bool, at: nat)
      requires NamesValid()
      ensures found ==> at < nameCount && name[at].name == n
      ensures !found ==> at <= nameCount
      ensures !found ==> forall i :: 0 <= i < at ==> Compare(name[i].name, n) < 0
      ensures !found ==> forall i :: at <= i < nameCount ==> Compare(n, name[i].name) < 0
    {
      hide Compare;
      var begin, end := 0, nameCount - 1;
      while begin <= end
        invariant 0 <= begin <= end + 1 <= nameCount
        invariant forall i :: 0 <= i < begin ==> Compare(name[i].name, n) < 0
        invariant forall i :: end < i < nameCount ==> Compare(n, name[i].name) < 0
      {
        var mid := (begin + end) / 2;
        var c := Compare(name[mid].name, n);
        CompareSwap(name[mid].name, n);
        if c == 0 { return true, mid; }
        if c < 0 {
          Lower(name[..nameCount], mid, n);
          begin := mid + 1;
        } else {
          Upper(name[..nameCount], mid, n);
          end := mid - 1;
        }
      }
      return false, begin;
    }

    /** skynet_handle_findname is a look-up; 0 stands for no such name. */
    method FindName(n: Name) returns (handle: nat)
      requires NamesValid()
      ensures handle == if n in Names() then Names()[n] else 0
    {
      hide Sorted, MapOf, Compare;
      var found, at := Search(n);
      if found {
        InMap(name[..nameCount], at);
        return name[at].handle;
      }
      NotThere(name[..nameCount], at, n);
      return 0;
    }

    /** _insert_name_before: the names from `before` on move up by one, in a larger array if the old one is full.
        False is the assertion on that array's size. */
    method InsertBefore(n: Name, handle: nat, before: nat) returns (ok: bool)
      requires before <= nameCount <= name.Length && name.Length >= 2
      modifies this`name, this`nameCount, name
      ensures ok <==> old(nameCount < name.Length || name.Length * 2 <= MAX_SLOT_SIZE)
      ensures ok ==> (name == old(name) || fresh(name)) && nameCount == old(nameCount) + 1 <= name.Length
      ensures ok ==> name.Length <= if old(name.Length) > MAX_SLOT_SIZE then old(name.Length) else MAX_SLOT_SIZE
      ensures ok ==> name.Length >= 2
      ensures ok ==> name[..nameCount]
                     == old(name[..before]) + [HandleName(n, handle)] + old(name[before..nameCount])
      ensures !ok ==> name == old(name) && nameCount == old(nameCount) && name[..] == old(name[..])
    {
      if nameCount >= name.Length {
        if name.Length * 2 > MAX_SLOT_SIZE { return false; }
        var larger := Grow(before);
        name := larger;
      } else {
        MoveUp(before);
      }
      name[before] := HandleName(n, handle);
      nameCount := nameCount + 1;
      return true;
    }

    /** A copy of the names in a larger array, with a gap. */
    method Grow(before: nat) returns (larger: array<HandleName>)
      requires before <= nameCount == name.Length && name.Length >= 2
      ensures fresh(larger) && larger.Length == 2 * name.Length
      ensures larger[..before] == name[..before] && larger[before + 1..nameCount + 1] == name[before..nameCount]
    {
      larger := new HandleName[name.Length * 2](_ => HandleName([], 0));
      for i := 0 to before
        invariant larger[..i] == name[..i]
      {
        larger[i] := name[i];
      }
      for i := before to nameCount
        invariant larger[..before] == name[..before]
        invariant larger[before + 1..i + 1] == name[before..i]
      {
        larger[i + 1] := name[i];
      }
    }

    method MoveUp(before: nat)
      requires before <= nameCount < name.Length
      modifies name
      ensures name[..before] == old(name[..before])
      ensures name[before + 1..nameCount + 1] == old(name[before..nameCount])
    {
      var i := nameCount;
      while i > before
        invariant before <= i <= nameCount
        invariant forall k :: 0 <= k <= i ==> name[k] == old(name[k])
        invariant forall k :: i < k <= nameCount ==> name[k] == old(name[k - 1])
      {
        name[i] := name[i - 1];
        i := i - 1;
      }
    }

    /** skynet_handle_namehandle: a new name is added; a name in use is not. None is the assertion on the size of
        the array. */
    method NameHandle(n: Name, handle: nat) returns (added: Option<bool>)
      requires NamesValid()
      modifies this`name, this`nameCount, name
      ensures NamesValid() && (name == old(name) || fresh(name))
      ensures added == Some(false) <==> n in old(Names())
      ensures added == None ==> old(nameCount == name.Length && name.Length * 2 > MAX_SLOT_SIZE)
      ensures Names() == if added == Some(true) then old(Names())[n := handle] else old(Names())
    {
      hide Sorted, MapOf, Compare;
      ghost var was := name[..nameCount];
      var found, at := Search(n);
      if found {
        InMap(was, at);
        return Some(false);
      }
      NotThere(was, at, n);
      assert old(name[..at]) == was[..at] && old(name[at..nameCount]) == was[at..] && was == was[..at] + was[at..];
      InsertMap(was[..at], HandleName(n, handle), was[at..]);
      InsertSorted(was, at, HandleName(n, handle));
      var ok := InsertBefore(n, handle, at);
      added := if ok then Some(true) else None;
      assert !ok ==> name[..nameCount] == was;
    }
  }

  lemma InsertSorted(s: seq<HandleName>, at: nat, e: HandleName)
    requires Sorted(s) && at <= |s|
    requires forall i :: 0 <= i < at ==> Compare(s[i].name, e.name) < 0
    requires forall i :: at <= i < |s| ==> Compare(e.name, s[i].name) < 0
    ensures Sorted(s[..at] + [e] + s[at..])
  {
    hide Compare;
  }

  lemma OthersNone(handle: nat)
    ensures Others([], handle) == []
  {
  }

  lemma OthersNext(s: seq<HandleName>, i: nat, handle: nat)
    requires i < |s|
    ensures Others(s[..i + 1], handle) == Others(s[..i], handle) + if s[i].handle == handle then [] else [s[i]]
  {
    assert s[..i + 1][..i] == s[..i];
  }

  lemma Lower(s: seq<HandleName>, mid: nat, n: Name)
    requires Sorted(s) && mid < |s| && Compare(s[mid].name, n) < 0
    ensures forall i :: 0 <= i <= mid ==> Compare(s[i].name, n) < 0
  {
    hide Compare;
    forall i | 0 <= i < mid ensures Compare(s[i].name, n) < 0 {
      CompareTrans(s[i].name, s[mid].name, n);
    }
  }

  lemma Upper(s: seq<HandleName>, mid: nat, n: Name)
    requires Sorted(s) && mid < |s| && Compare(n, s[mid].name) < 0
    ensures forall i :: mid <= i < |s| ==> Compare(n, s[i].name) < 0
  {
    hide Compare;
    forall i | mid < i < |s| ensures Compare(n, s[i].name) < 0 {
      CompareTrans(n, s[mid].name, s[i].name);
    }
  }

  lemma NotThere(s: seq<HandleName>, at: nat, n: Name)
    requires at <= |s|
    requires forall i :: 0 <= i < at ==> Compare(s[i].name, n) < 0
    requires forall i :: at <= i < |s| ==> Compare(n, s[i].name) < 0
    ensures n !in MapOf(s) && forall i :: 0 <= i < |s| ==> s[i].name != n
  {
    forall i | 0 <= i < |s| ensures s[i].name != n {
      CompareSwap(s[i].name, n);
    }
    OnlyInMap(s, n);
  }

  lemma NoneBelow(t: seq<Option<Context>>, m: map<nat, nat>, size: nat)
    requires size > 0 && t != [] && forall j :: 0 <= j < |t| ==> t[j].None?
    ensures Holds(t, Below(m, size, 0))
  {
  }

  lemma AllBelow(m: map<nat, nat>, size: nat)
    requires size > 0
    ensures Below(m, size, size) == m
  {
  }
}
