/** The stream format of lua-seri.c: what packing a list of values writes, what unpacking reads, and why
    the second undoes the first. */
module SeriFormat {
  import opened Wrappers

  type Byte = x: int | 0 <= x < 256

  const MAX_COOKIE: int := 32
  const MAX_DEPTH: int := 32

  const TYPE_NIL: int := 0
  const TYPE_BOOLEAN: int := 1
  const TYPE_NUMBER: int := 2
  const TYPE_USERDATA: int := 3
  const TYPE_SHORT_STRING: int := 4
  const TYPE_LONG_STRING: int := 5
  const TYPE_TABLE: int := 6

  const NUMBER_ZERO: int := 0
  const NUMBER_BYTE: int := 1
  const NUMBER_WORD: int := 2
  const NUMBER_DWORD: int := 4
  const NUMBER_QWORD: int := 6
  const NUMBER_REAL: int := 8

  /** A Lua value. Floats and pointers are their eight bytes; a table is its array part and its other pairs in
      the order lua_next gives them. */
  datatype Value =
    | Nil
    | Bool(b: bool)
    | Int(n: int)
    | Real(bytes: seq<Byte>)
    | Pointer(bytes: seq<Byte>)
    | Str(text: seq<Byte>)
    | Table(items: seq<Value>, pairs: seq<Pair>)

  datatype Pair = Pair(key: Value, value: Value)

  /** Values the packer can be handed: 64-bit integers, lengths that fit an int, keys that are not nil. */
  predicate Valid(v: Value)
    decreases v
  {
    match v
    case Int(n) => -0x8000_0000_0000_0000 <= n < 0x8000_0000_0000_0000
    case Real(bytes) => |bytes| == 8
    case Pointer(bytes) => |bytes| == 8
    case Str(text) => |text| < 0x8000_0000
    case Table(items, pairs) =>
      && |items| < 0x8000_0000
      && (forall i :: 0 <= i < |items| ==> Valid(items[i]))
      && (forall i :: 0 <= i < |pairs| ==> ValidPair(pairs[i]))
    case _ => true
  }

  predicate ValidPair(p: Pair)
    decreases p
  {
    Valid(p.key) && Valid(p.value) && p.key != Nil
  }

  /** pack_one accepts v at this depth: nothing lies deeper than MAX_DEPTH. */
  predicate Shallow(v: Value, depth: int)
    decreases v
  {
    depth <= MAX_DEPTH &&
    (v.Table? ==>
       && (forall i :: 0 <= i < |v.items| ==> Shallow(v.items[i], depth + 1))
       && (forall i :: 0 <= i < |v.pairs| ==> Shallow(v.pairs[i].key, depth + 1) && Shallow(v.pairs[i].value, depth + 1)))
  }

  // ----- integers -----

  /** n in k bytes, lowest first, modulo 256^k. */
  function LittleEndian(n: int, k: nat): (r: seq<Byte>)
    ensures |r| == k
    decreases k
  {
    if k == 0 then [] else [n % 256] + LittleEndian(n / 256, k - 1)
  }

  function Number(b: seq<Byte>): nat {
    if b == [] then 0 else b[0] + 256 * Number(b[1..])
  }

  function Power(k: nat): (p: nat)
    ensures p > 0
  {
    if k == 0 then 1 else 256 * Power(k - 1)
  }

  /** Two's complement of k bytes. */
  function Signed(b: seq<Byte>): int {
    var n := Number(b);
    if 2 * n < Power(|b|) then n else n - Power(|b|)
  }

  lemma NumberOf(n: int, k: nat)
    ensures Number(LittleEndian(n, k)) == n % Power(k)
    decreases k
  {
    if k > 0 {
      NumberOf(n / 256, k - 1);
      ModStep(n, Power(k - 1));
      assert LittleEndian(n, k)[1..] == LittleEndian(n / 256, k - 1);
    }
  }

  lemma ModStep(n: int, p: int)
    requires p > 0
    ensures n % (256 * p) == n % 256 + 256 * (n / 256 % p)
  {
    var q := n / 256;
    var h := q / p;
    var r := n % 256 + 256 * (q % p);
    assert q == h * p + q % p;
    assert n == 256 * q + n % 256;
    assert n == h * (256 * p) + r;
    DivisionUnique(n, 256 * p, h, r);
  }

  lemma DivisionUnique(n: int, m: int, h: int, r: int)
    requires m > 0 && n == h * m + r && 0 <= r < m
    ensures n % m == r
  {
    var d := n / m - h;
    assert n == (n / m) * m + n % m;
    assert d * m == r - n % m;
    assert d > 0 ==> d * m >= m;
    assert d < 0 ==> d * m <= -m;
  }

  lemma SignedOf(n: int, k: nat)
    requires k > 0 && 0 - Power(k) <= 2 * n < Power(k)
    ensures Signed(LittleEndian(n, k)) == n
  {
    NumberOf(n, k);
    DivisionUnique(n, Power(k), if n < 0 then -1 else 0, if n < 0 then n + Power(k) else n);
  }

  lemma Powers()
    ensures Power(1) == 0x100 && Power(2) == 0x1_0000 && Power(4) == 0x1_0000_0000 && Power(8) == 0x1_0000_0000_0000_0000
  {
    assert Power(3) == 0x100_0000;
    assert Power(5) == 0x100_0000_0000;
    assert Power(6) == 0x1_0000_0000_0000;
    assert Power(7) == 0x100_0000_0000_0000;
  }

  function Combine(t: int, v: int): Byte
    requires 0 <= t < 8 && 0 <= v < 32
  {
    t + 8 * v
  }

  /** The cookie wb_integer chooses, and the bytes that follow. */
  function Width(n: int): (w: (int, nat))
    ensures 0 <= w.0 < 8 && w.1 <= 8
  {
    if n == 0 then (NUMBER_ZERO, 0)
    else if !(-0x8000_0000 <= n < 0x8000_0000) then (NUMBER_QWORD, 8)
    else if n < 0 then (NUMBER_DWORD, 4)
    else if n < 0x100 then (NUMBER_BYTE, 1)
    else if n < 0x1_0000 then (NUMBER_WORD, 2)
    else (NUMBER_DWORD, 4)
  }

  function EncodeInt(n: int): seq<Byte> {
    [Combine(TYPE_NUMBER, Width(n).0)] + LittleEndian(n, Width(n).1)
  }

  // ----- packing -----

  function EncodeString(text: seq<Byte>): seq<Byte>
    requires |text| < 0x8000_0000
  {
    if |text| < MAX_COOKIE then [Combine(TYPE_SHORT_STRING, |text|)] + text
    else if |text| < 0x1_0000 then [Combine(TYPE_LONG_STRING, 2)] + LittleEndian(|text|, 2) + text
    else [Combine(TYPE_LONG_STRING, 4)] + LittleEndian(|text|, 4) + text
  }

  /** The head of a table: sizes that do not fit the cookie follow as an integer. */
  function TableHead(n: nat): seq<Byte> {
    if n >= MAX_COOKIE - 1 then [Combine(TYPE_TABLE, MAX_COOKIE - 1)] + EncodeInt(n) else [Combine(TYPE_TABLE, n)]
  }

  function Encode(v: Value): seq<Byte>
    requires Valid(v)
    decreases v, 0
  {
    match v
    case Nil => [Combine(TYPE_NIL, 0)]
    case Bool(b) => [Combine(TYPE_BOOLEAN, if b then 1 else 0)]
    case Int(n) => EncodeInt(n)
    case Real(bytes) => [Combine(TYPE_NUMBER, NUMBER_REAL)] + bytes
    case Pointer(bytes) => [Combine(TYPE_USERDATA, 0)] + bytes
    case Str(text) => EncodeString(text)
    case Table(items, pairs) => TableHead(|items|) + (EncodeAll(items) + (EncodePairs(pairs) + [Combine(TYPE_NIL, 0)]))
  }

  function EncodeAll(vs: seq<Value>): seq<Byte>
    requires forall i :: 0 <= i < |vs| ==> Valid(vs[i])
    decreases vs, 1
  {
    if vs == [] then [] else Encode(vs[0]) + EncodeAll(vs[1..])
  }

  function EncodePairs(ps: seq<Pair>): seq<Byte>
    requires forall i :: 0 <= i < |ps| ==> ValidPair(ps[i])
    decreases ps, 1
  {
    if ps == [] then [] else EncodePair(ps[0]) + EncodePairs(ps[1..])
  }

  function EncodePair(p: Pair): seq<Byte>
    requires ValidPair(p)
    decreases p, 1
  {
    Encode(p.key) + Encode(p.value)
  }

  // ----- unpacking -----

  /** A value read from a stream, and what is left; None where the source raises an error. */
  type Read<T> = Option<(T, seq<Byte>)>

  /** rb_read */
  function Take(b: seq<Byte>, n: int): (r: Read<seq<Byte>>)
    ensures r.Some? ==> 0 <= n <= |b| && r.value == (b[..n], b[n..])
  {
    if 0 <= n <= |b| then Some((b[..n], b[n..])) else None
  }

  /** get_integer */
  function DecodeInt(cookie: int, b: seq<Byte>): (r: Read<int>)
    ensures r.Some? ==> |r.value.1| <= |b|
  {
    if cookie == NUMBER_ZERO then Some((0, b))
    else
      var size := if cookie == NUMBER_BYTE then 1 else if cookie == NUMBER_WORD then 2
                  else if cookie == NUMBER_DWORD then 4 else if cookie == NUMBER_QWORD then 8 else -1;
      var r := Take(b, size);
      if r.None? then None
      else Some((if size >= 4 then Signed(r.value.0) else Number(r.value.0), r.value.1))
  }

  /** The element count of a table is an int: wider integers are cut. */
  function ToInt(n: int): int {
    var m := n % 0x1_0000_0000;
    if m < 0x8000_0000 then m else m - 0x1_0000_0000
  }

  /** The size of a table's array part, from the cookie of its head or from the integer behind it. */
  function DecodeSize(cookie: int, b: seq<Byte>): (r: Read<int>)
    ensures r.Some? ==> |r.value.1| <= |b|
  {
    if cookie != MAX_COOKIE - 1 then Some((cookie, b))
    else if b == [] then None
    else if b[0] % 8 != TYPE_NUMBER || b[0] / 8 == NUMBER_REAL then None
    else
      var n := DecodeInt(b[0] / 8, b[1..]);
      if n.None? then None else Some((ToInt(n.value.0), n.value.1))
  }

  function StringBody(r: Read<seq<Byte>>): (v: Read<Value>)
    ensures v.Some? ==> r.Some? && v.value.1 == r.value.1
  {
    if r.None? then None else Some((Str(r.value.0), r.value.1))
  }

  /** A string whose length is in the next k bytes. */
  function LongString(k: int, b: seq<Byte>): (v: Read<Value>)
    ensures v.Some? ==> |v.value.1| <= |b|
  {
    var r := Take(b, k);
    if r.None? then None else StringBody(Take(r.value.1, Number(r.value.0)))
  }

  /** push_value */
  function DecodeBody(t: int, cookie: int, b: seq<Byte>): (v: Read<Value>)
    ensures v.Some? ==> |v.value.1| <= |b|
    decreases |b|, 3
  {
    if t == TYPE_NIL then Some((Nil, b))
    else if t == TYPE_BOOLEAN then Some((Bool(cookie != 0), b))
    else if t == TYPE_NUMBER then
      if cookie == NUMBER_REAL then
        var r := Take(b, 8);
        if r.None? then None else Some((Real(r.value.0), r.value.1))
      else
        var n := DecodeInt(cookie, b);
        if n.None? then None else Some((Int(n.value.0), n.value.1))
    else if t == TYPE_USERDATA then
      var r := Take(b, 8);
      if r.None? then None else Some((Pointer(r.value.0), r.value.1))
    else if t == TYPE_SHORT_STRING then StringBody(Take(b, cookie))
    else if t == TYPE_LONG_STRING then if cookie == 2 || cookie == 4 then LongString(cookie, b) else None
    else if t == TYPE_TABLE then
      var n := DecodeSize(cookie, b);
      if n.None? then None
      else
        var items := DecodeAll(n.value.0, n.value.1);
        if items.None? then None
        else
          var pairs := DecodePairs(items.value.1);
          if pairs.None? then None else Some((Table(items.value.0, pairs.value.0), pairs.value.1))
    else None
  }

  /** unpack_one */
  function Decode(b: seq<Byte>): (v: Read<Value>)
    ensures v.Some? ==> |v.value.1| < |b|
    decreases |b|, 0
  {
    if b == [] then None else DecodeBody(b[0] % 8, b[0] / 8, b[1..])
  }

  function DecodeAll(n: int, b: seq<Byte>): (r: Read<seq<Value>>)
    ensures r.Some? ==> |r.value.1| <= |b|
    decreases |b|, 2
  {
    if n <= 0 then Some(([], b))
    else
      var v := Decode(b);
      if v.None? then None
      else
        var rest := DecodeAll(n - 1, v.value.1);
        if rest.None? then None else Some(([v.value.0] + rest.value.0, rest.value.1))
  }

  function DecodePairs(b: seq<Byte>): (r: Read<seq<Pair>>)
    ensures r.Some? ==> |r.value.1| <= |b|
    decreases |b|, 2
  {
    var k := Decode(b);
    if k.None? then None
    else if k.value.0 == Nil then Some(([], k.value.1))
    else
      var v := Decode(k.value.1);
      if v.None? then None
      else
        var rest := DecodePairs(v.value.1);
        if rest.None? then None else Some(([Pair(k.value.0, v.value.0)] + rest.value.0, rest.value.1))
  }

  /** luaseri_unpack: values up to the end of the stream. */
  function DecodeStream(b: seq<Byte>): Option<seq<Value>>
    decreases |b|
  {
    if b == [] then Some([])
    else
      var v := Decode(b);
      if v.None? then None
      else
        var rest := DecodeStream(v.value.1);
        if rest.None? then None else Some([v.value.0] + rest.value)
  }

  // ----- the round trip -----

  lemma TakeAll(x: seq<Byte>, rest: seq<Byte>)
    ensures Take(x + rest, |x|) == Some((x, rest))
  {
  }

  lemma IntRoundTrip(n: int, rest: seq<Byte>)
    requires -0x8000_0000_0000_0000 <= n < 0x8000_0000_0000_0000
    ensures DecodeInt(Width(n).0, LittleEndian(n, Width(n).1) + rest) == Some((n, rest))
    ensures Combine(TYPE_NUMBER, Width(n).0) % 8 == TYPE_NUMBER && Combine(TYPE_NUMBER, Width(n).0) / 8 == Width(n).0
    ensures Width(n).0 != NUMBER_REAL
  {
    hide LittleEndian, Number, Signed, Power;
    var k := Width(n).1;
    TakeAll(LittleEndian(n, k), rest);
    Powers();
    if k >= 4 { SignedOf(n, k); }
    else if k > 0 {
      NumberOf(n, k);
      DivisionUnique(n, Power(k), 0, n);
    } else {
      assert LittleEndian(n, 0) + rest == rest by { NoBytes(n); }
    }
  }

  lemma NoBytes(n: int)
    ensures LittleEndian(n, 0) == []
  {
  }

  lemma First(x: Byte, rest: seq<Byte>)
    ensures ([x] + rest)[0] == x && ([x] + rest)[1..] == rest && [x] + rest != []
  {
  }

  lemma Join3(x: seq<Byte>, y: seq<Byte>, z: seq<Byte>)
    ensures (x + y) + z == x + (y + z)
  {
  }

  lemma LongRoundTrip(text: seq<Byte>, k: nat, rest: seq<Byte>)
    requires (k == 2 || k == 4) && |text| < Power(k)
    ensures LongString(k, LittleEndian(|text|, k) + (text + rest)) == Some((Str(text), rest))
  {
    hide LittleEndian, Number, Power;
    NumberOf(|text|, k);
    DivisionUnique(|text|, Power(k), 0, |text|);
    TakeAll(LittleEndian(|text|, k), text + rest);
    TakeAll(text, rest);
  }

  lemma StringRoundTrip(text: seq<Byte>, rest: seq<Byte>)
    requires |text| < 0x8000_0000
    ensures Decode(EncodeString(text) + rest) == Some((Str(text), rest))
  {
    hide LittleEndian, Number, Power, LongString, EncodeString, Take, DecodeAll, DecodePairs, DecodeInt, DecodeSize;
    var n := |text|;
    if n < MAX_COOKIE {
      TakeAll(text, rest);
      ShortLayout(text, rest);
    } else {
      var k := if n < 0x1_0000 then 2 else 4;
      Powers();
      LongRoundTrip(text, k, rest);
      LongLayout(text, k, rest);
    }
  }

  lemma ShortLayout(text: seq<Byte>, rest: seq<Byte>)
    requires |text| < MAX_COOKIE
    ensures var b := EncodeString(text) + rest;
            b != [] && b[0] % 8 == TYPE_SHORT_STRING && b[0] / 8 == |text| && b[1..] == text + rest
  {
    First(Combine(TYPE_SHORT_STRING, |text|), text + rest);
    Join3([Combine(TYPE_SHORT_STRING, |text|)], text, rest);
  }

  lemma LongLayout(text: seq<Byte>, k: nat, rest: seq<Byte>)
    requires MAX_COOKIE <= |text| < 0x8000_0000 && k == if |text| < 0x1_0000 then 2 else 4
    ensures var b := EncodeString(text) + rest;
            b != [] && b[0] % 8 == TYPE_LONG_STRING && b[0] / 8 == k && b[1..] == LittleEndian(|text|, k) + (text + rest)
  {
    hide LittleEndian;
    var head := [Combine(TYPE_LONG_STRING, k)];
    Join3(head, LittleEndian(|text|, k), text);
    Join3(head, LittleEndian(|text|, k) + text, rest);
    Join3(LittleEndian(|text|, k), text, rest);
    First(head[0], LittleEndian(|text|, k) + (text + rest));
  }

  lemma HeadRoundTrip(n: nat, rest: seq<Byte>)
    requires n < 0x8000_0000
    ensures var b := TableHead(n) + rest;
            b != [] && b[0] % 8 == TYPE_TABLE && DecodeSize(b[0] / 8, b[1..]) == Some((n, rest))
  {
    hide LittleEndian, DecodeInt;
    if n >= MAX_COOKIE - 1 {
      IntRoundTrip(n, rest);
      var head, w := [Combine(TYPE_TABLE, MAX_COOKIE - 1)], [Combine(TYPE_NUMBER, Width(n).0)];
      var tail := LittleEndian(n, Width(n).1) + rest;
      assert TableHead(n) + rest == head + (w + tail);
      First(head[0], w + tail);
      First(w[0], tail);
    } else {
      First(Combine(TYPE_TABLE, n), rest);
    }
  }

  /** Unpacking gives back what was packed. */
  lemma {:induction false} RoundTrip(v: Value, rest: seq<Byte>)
    requires Valid(v)
    ensures Decode(Encode(v) + rest) == Some((v, rest))
    decreases v, 1
  {
    match v
    case Int(n) =>
      IntRoundTrip(n, rest);
      Join3([Combine(TYPE_NUMBER, Width(n).0)], LittleEndian(n, Width(n).1), rest);
      First(Combine(TYPE_NUMBER, Width(n).0), LittleEndian(n, Width(n).1) + rest);
    case Real(bytes) =>
      TakeAll(bytes, rest);
      Join3([Combine(TYPE_NUMBER, NUMBER_REAL)], bytes, rest);
      First(Combine(TYPE_NUMBER, NUMBER_REAL), bytes + rest);
    case Pointer(bytes) =>
      TakeAll(bytes, rest);
      Join3([Combine(TYPE_USERDATA, 0)], bytes, rest);
      First(Combine(TYPE_USERDATA, 0), bytes + rest);
    case Str(text) => StringRoundTrip(text, rest);
    case Table(items, pairs) => TableRoundTrip(v, rest);
    case _ => First(Encode(v)[0], rest);
  }

  lemma {:induction false} TableRoundTrip(v: Value, rest: seq<Byte>)
    requires Valid(v) && v.Table?
    ensures Decode(Encode(v) + rest) == Some((v, rest))
    decreases v, 0
  {
    hide EncodeAll, EncodePairs, TableHead, DecodeSize, DecodeAll, DecodePairs;
    var end := [Combine(TYPE_NIL, 0)];
    var a, p := EncodeAll(v.items), EncodePairs(v.pairs);
    AllRoundTrip(v.items, p + (end + rest));
    PairsRoundTrip(v.pairs, rest);
    HeadRoundTrip(|v.items|, a + (p + (end + rest)));
    assert Encode(v) + rest == TableHead(|v.items|) + (a + (p + (end + rest)));
  }

  lemma {:induction false} AllRoundTrip(vs: seq<Value>, rest: seq<Byte>)
    requires forall i :: 0 <= i < |vs| ==> Valid(vs[i])
    ensures DecodeAll(|vs|, EncodeAll(vs) + rest) == Some((vs, rest))
    decreases vs, 2
  {
    hide Encode, Decode;
    if vs == [] {
      assert EncodeAll(vs) + rest == rest;
    } else {
      RoundTrip(vs[0], EncodeAll(vs[1..]) + rest);
      AllRoundTrip(vs[1..], rest);
      Join3(Encode(vs[0]), EncodeAll(vs[1..]), rest);
      assert [vs[0]] + vs[1..] == vs;
    }
  }

  lemma EndRoundTrip(rest: seq<Byte>)
    ensures Decode([Combine(TYPE_NIL, 0)] + rest) == Some((Nil, rest))
  {
    First(Combine(TYPE_NIL, 0), rest);
  }

  lemma {:induction false} PairRoundTrip(p: Pair, rest: seq<Byte>)
    requires ValidPair(p)
    ensures var k := Decode(EncodePair(p) + rest);
            k.Some? && k.value.0 == p.key && p.key != Nil && Decode(k.value.1) == Some((p.value, rest))
    decreases p, 2
  {
    hide Encode, Decode;
    RoundTrip(p.key, Encode(p.value) + rest);
    RoundTrip(p.value, rest);
    Join3(Encode(p.key), Encode(p.value), rest);
  }

  lemma {:induction false} PairsRoundTrip(ps: seq<Pair>, rest: seq<Byte>)
    requires forall i :: 0 <= i < |ps| ==> ValidPair(ps[i])
    ensures DecodePairs(EncodePairs(ps) + ([Combine(TYPE_NIL, 0)] + rest)) == Some((ps, rest))
    decreases ps, 2
  {
    hide EncodePair, Decode;
    var end := [Combine(TYPE_NIL, 0)] + rest;
    if ps == [] {
      assert EncodePairs(ps) + end == end;
      assert Decode(end) == Some((Nil, rest)) by { EndRoundTrip(rest); }
    } else {
      PairRoundTrip(ps[0], EncodePairs(ps[1..]) + end);
      PairsRoundTrip(ps[1..], rest);
      Join3(EncodePair(ps[0]), EncodePairs(ps[1..]), end);
      assert [ps[0]] + ps[1..] == ps;
    }
  }

  /** Unpacking a packed list of values gives back the list. */
  lemma {:induction false} StreamRoundTrip(vs: seq<Value>)
    requires forall i :: 0 <= i < |vs| ==> Valid(vs[i])
    ensures DecodeStream(EncodeAll(vs)) == Some(vs)
    decreases vs
  {
    hide Encode, Decode;
    if vs != [] {
      RoundTrip(vs[0], EncodeAll(vs[1..]));
      StreamRoundTrip(vs[1..]);
      NotEmpty(vs[0], EncodeAll(vs[1..]));
      assert [vs[0]] + vs[1..] == vs;
    }
  }

  lemma NotEmpty(v: Value, rest: seq<Byte>)
    requires Valid(v)
    ensures Encode(v) + rest != []
  {
    RoundTrip(v, rest);
  }
}
