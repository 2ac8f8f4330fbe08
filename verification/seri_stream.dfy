/** lua-seri.c as it runs: values are appended to a chain of blocks, copied out in one piece, and read back
    through a cursor. */
module SeriStream {
  import opened Wrappers
  import opened SeriFormat

  const BLOCK_SIZE: int := 128

  // ----- writing -----

  class Block {
    var buffer: seq<Byte>
    var next: Block?

    constructor ()
      ensures |buffer| == BLOCK_SIZE && next == null
    {
      buffer := seq(BLOCK_SIZE, _ => 0);
      next := null;
    }
  }

  class WriteBlock {
    var head: Block
    var current: Block
    var len: int
    var ptr: int
    /** The chain, and everything pushed so far. */
    ghost var chain: seq<Block>
    ghost var written: seq<Byte>
    ghost var blocks: set<Block>

    /** Block i holds the bytes from 128 i on; all but the last are full. */
    ghost predicate Valid()
      reads this, blocks
    {
      && (forall i :: 0 <= i < |chain| ==> chain[i] in blocks)
      && chain != [] && head == chain[0] && current == chain[|chain| - 1] && current.next == null
      && (forall i, j :: 0 <= i < j < |chain| ==> chain[i] != chain[j])
      && (forall i :: 0 <= i < |chain| - 1 ==> chain[i].next == chain[i + 1])
      && (forall i :: 0 <= i < |chain| ==> |chain[i].buffer| == BLOCK_SIZE)
      && 0 <= ptr <= BLOCK_SIZE && len == |written| == BLOCK_SIZE * (|chain| - 1) + ptr
      && (forall i :: 0 <= i < |chain| - 1 ==> chain[i].buffer == written[BLOCK_SIZE * i..BLOCK_SIZE * i + BLOCK_SIZE])
      && current.buffer[..ptr] == written[BLOCK_SIZE * (|chain| - 1)..]
    }

    /** wb_init */
    constructor ()
      ensures Valid() && written == [] && fresh(blocks)
    {
      var b := new Block();
      head, current, len, ptr := b, b, 0, 0;
      chain, written, blocks := [b], [], {b};
    }

    /** memcpy into the current block, which has room. */
    method Fill(bytes: seq<Byte>)
      requires Valid() && |bytes| <= BLOCK_SIZE - ptr
      modifies this`len, this`ptr, this`written, current`buffer
      ensures Valid() && written == old(written) + bytes && ptr == old(ptr) + |bytes|
    {
      current.buffer := current.buffer[..ptr] + bytes + current.buffer[ptr + |bytes|..];
      ptr := ptr + |bytes|;
      len := len + |bytes|;
      written := written + bytes;
      assert current.buffer[..ptr] == written[BLOCK_SIZE * (|chain| - 1)..];
    }

    /** A fresh block behind a full one. */
    method Extend()
      requires Valid() && ptr == BLOCK_SIZE
      modifies this`current, this`ptr, this`chain, this`blocks, current`next
      ensures Valid() && ptr == 0 && fresh(current) && blocks == old(blocks) + {current}
    {
      var b := new Block();
      current.next := b;
      current := b;
      ptr := 0;
      chain, blocks := chain + [b], blocks + {b};
    }

    /** wb_push: plain append, whatever the size and wherever the blocks end. */
    method Push(bytes: seq<Byte>)
      requires Valid()
      modifies this, blocks
      ensures Valid() && written == old(written) + bytes
      ensures fresh(blocks - old(blocks))
    {
      var rest := bytes;
      if ptr == BLOCK_SIZE { Extend(); }
      while ptr > BLOCK_SIZE - |rest|
        invariant Valid() && written + rest == old(written) + bytes
        invariant fresh(blocks - old(blocks))
        invariant current in blocks && ptr < BLOCK_SIZE
        decreases |rest|
      {
        var copy := BLOCK_SIZE - ptr;
        Fill(rest[..copy]);
        rest := rest[copy..];
        Extend();
      }
      Fill(rest);
    }

    /** seri: the blocks copied into one buffer. */
    method Copy() returns (buffer: seq<Byte>)
      requires Valid()
      ensures buffer == written
    {
      buffer := [];
      var left := len;
      var b: Block? := head;
      ghost var i := 0;
      while left > 0
        invariant 0 <= i < |chain| || (i == |chain| && left == 0)
        invariant i < |chain| ==> b == chain[i] && left == len - BLOCK_SIZE * i
        invariant buffer == written[..len - left] && 0 <= left
        decreases left
      {
        if left >= BLOCK_SIZE {
          buffer := buffer + b.buffer;
          left := left - BLOCK_SIZE;
          b := b.next;
          i := i + 1;
        } else {
          buffer := buffer + b.buffer[..left];
          break;
        }
      }
    }

    /** wb_integer */
    method PushInt(n: int)
      requires Valid()
      modifies this, blocks
      ensures Valid() && written == old(written) + EncodeInt(n)
      ensures fresh(blocks - old(blocks))
    {
      hide WriteBlock.Valid;
      var (cookie, size) := Width(n);
      Push([Combine(TYPE_NUMBER, cookie)]);
      ghost var mid := written;
      if size > 0 { Push(LittleEndian(n, size)); }
      IntParts(old(written), n);
    }

    /** wb_string */
    method PushString(text: seq<Byte>)
      requires Valid() && |text| < 0x8000_0000
      modifies this, blocks
      ensures Valid() && written == old(written) + EncodeString(text)
      ensures fresh(blocks - old(blocks))
    {
      hide LittleEndian, EncodeString, WriteBlock.Valid;
      StringParts(written, text);
      if |text| < MAX_COOKIE {
        Push([Combine(TYPE_SHORT_STRING, |text|)]);
        if |text| > 0 { Push(text); }
      } else {
        var k := if |text| < 0x1_0000 then 2 else 4;
        Push([Combine(TYPE_LONG_STRING, k)]);
        Push(LittleEndian(|text|, k));
        Push(text);
      }
    }

    /** pack_one: false stands for the error raised on a table nested too deep. */
    method PackOne(v: Value, depth: int) returns (ok: bool)
      requires Valid() && SeriFormat.Valid(v)
      modifies this, blocks
      ensures ok <==> Shallow(v, depth)
      ensures ok ==> Valid() && written == old(written) + Encode(v)
      ensures ok ==> fresh(blocks - old(blocks))
      decreases v, 1
    {
      hide EncodeInt, EncodeString, EncodeAll, EncodePairs, TableHead, WriteBlock.Valid;
      if depth > MAX_DEPTH { return false; }
      ok := true;
      match v {
        case Nil => Push([Combine(TYPE_NIL, 0)]);
        case Bool(b) => Push([Combine(TYPE_BOOLEAN, if b then 1 else 0)]);
        case Int(n) => PushInt(n);
        case Real(bytes) =>
          Push([Combine(TYPE_NUMBER, NUMBER_REAL)]);
          Push(bytes);
          Join3(old(written), [Combine(TYPE_NUMBER, NUMBER_REAL)], bytes);
        case Pointer(bytes) =>
          Push([Combine(TYPE_USERDATA, 0)]);
          Push(bytes);
          Join3(old(written), [Combine(TYPE_USERDATA, 0)], bytes);
        case Str(text) => PushString(text);
        case Table(_, _) => ok := PackTable(v, depth + 1);
      }
    }

    /** The head of a table, with the size of its array part. */
    method PushHead(n: nat)
      requires Valid()
      modifies this, blocks
      ensures Valid() && written == old(written) + TableHead(n)
      ensures fresh(blocks - old(blocks))
    {
      hide EncodeInt, WriteBlock.Valid;
      if n >= MAX_COOKIE - 1 {
        Push([Combine(TYPE_TABLE, MAX_COOKIE - 1)]);
        PushInt(n);
        Join3(old(written), [Combine(TYPE_TABLE, MAX_COOKIE - 1)], EncodeInt(n));
      } else {
        Push([Combine(TYPE_TABLE, n)]);
      }
    }

    /** wb_table, without a __pairs metamethod: the array part, the other pairs, and a nil. */
    method PackTable(v: Value, depth: int) returns (ok: bool)
      requires Valid() && v.Table? && SeriFormat.Valid(v)
      modifies this, blocks
      ensures ok <==> ShallowParts(v, depth)
      ensures ok ==> Valid() && written == old(written) + Encode(v)
      ensures ok ==> fresh(blocks - old(blocks))
      decreases v, 0
    {
      hide TableHead, EncodeAll, EncodePairs, Shallow, Combine, WriteBlock.Valid;
      PushHead(|v.items|);
      ok := PackArray(v, depth);
      if !ok { return; }
      ok := PackHash(v, depth);
      if !ok { return; }
      Push([Combine(TYPE_NIL, 0)]);
      TableParts(old(written), v);
    }

    /** The elements of the array part, in order. */
    method PackArray(v: Value, depth: int) returns (ok: bool)
      requires Valid() && v.Table? && SeriFormat.Valid(v)
      modifies this, blocks
      ensures ok <==> forall i :: 0 <= i < |v.items| ==> Shallow(v.items[i], depth)
      ensures ok ==> Valid() && written == old(written) + EncodeAll(v.items)
      ensures ok ==> fresh(blocks - old(blocks))
      decreases v, 0, 0
    {
      hide Encode, EncodeAll, Shallow, WriteBlock.Valid;
      var i := 0;
      NoneLeft(old(written), v);
      while i < |v.items|
        invariant 0 <= i <= |v.items| && Valid()
        invariant fresh(blocks - old(blocks))
        invariant written + EncodeAll(v.items[i..]) == old(written) + EncodeAll(v.items)
        invariant forall j :: 0 <= j < i ==> Shallow(v.items[j], depth)
      {
        NextItem(v, i);
        Join3(written, Encode(v.items[i]), EncodeAll(v.items[i + 1..]));
        ok := PackOne(v.items[i], depth);
        if !ok { return; }
        i := i + 1;
      }
      ok := true;
      NoneLeft(written, v);
    }

    /** The other pairs, in order. */
    method PackHash(v: Value, depth: int) returns (ok: bool)
      requires Valid() && v.Table? && SeriFormat.Valid(v)
      modifies this, blocks
      ensures ok <==> forall i :: 0 <= i < |v.pairs| ==> Shallow(v.pairs[i].key, depth) && Shallow(v.pairs[i].value, depth)
      ensures ok ==> Valid() && written == old(written) + EncodePairs(v.pairs)
      ensures ok ==> fresh(blocks - old(blocks))
      decreases v, 0, 0
    {
      hide Encode, EncodePairs, Shallow, WriteBlock.Valid;
      var i := 0;
      NoneLeft(old(written), v);
      while i < |v.pairs|
        invariant 0 <= i <= |v.pairs| && Valid()
        invariant fresh(blocks - old(blocks))
        invariant written + EncodePairs(v.pairs[i..]) == old(written) + EncodePairs(v.pairs)
        invariant forall j :: 0 <= j < i ==> Shallow(v.pairs[j].key, depth) && Shallow(v.pairs[j].value, depth)
      {
        NextPair(v, i);
        Join3(written, Encode(v.pairs[i].key), Encode(v.pairs[i].value));
        Join3(written, EncodePair(v.pairs[i]), EncodePairs(v.pairs[i + 1..]));
        assert v.pairs[i].key < v && v.pairs[i].value < v;
        ok := PackOne(v.pairs[i].key, depth);
        if !ok { return; }
        ok := PackOne(v.pairs[i].value, depth);
        if !ok { return; }
        i := i + 1;
      }
      ok := true;
      NoneLeft(written, v);
    }
  }

  /** What pack_one asks of a table's parts. */
  predicate ShallowParts(v: Value, depth: int)
    requires v.Table?
  {
    && (forall i :: 0 <= i < |v.items| ==> Shallow(v.items[i], depth))
    && (forall i :: 0 <= i < |v.pairs| ==> Shallow(v.pairs[i].key, depth) && Shallow(v.pairs[i].value, depth))
  }

  lemma IntParts(w: seq<Byte>, n: int)
    ensures w + [Combine(TYPE_NUMBER, Width(n).0)] + LittleEndian(n, Width(n).1) == w + EncodeInt(n)
    ensures Width(n).1 == 0 ==> w + [Combine(TYPE_NUMBER, Width(n).0)] == w + EncodeInt(n)
  {
  }

  lemma StringParts(w: seq<Byte>, text: seq<Byte>)
    requires |text| < 0x8000_0000
    ensures |text| < MAX_COOKIE ==> w + [Combine(TYPE_SHORT_STRING, |text|)] + text == w + EncodeString(text)
    ensures text == [] ==> w + [Combine(TYPE_SHORT_STRING, |text|)] == w + EncodeString(text)
    ensures |text| >= MAX_COOKIE ==>
              var k := if |text| < 0x1_0000 then 2 else 4;
              w + [Combine(TYPE_LONG_STRING, k)] + LittleEndian(|text|, k) + text == w + EncodeString(text)
  {
    hide LittleEndian;
    if |text| < MAX_COOKIE {
      Join3(w, [Combine(TYPE_SHORT_STRING, |text|)], text);
      if text == [] { assert [Combine(TYPE_SHORT_STRING, 0)] + text == [Combine(TYPE_SHORT_STRING, 0)]; }
    } else {
      var k := if |text| < 0x1_0000 then 2 else 4;
      Join3(w, [Combine(TYPE_LONG_STRING, k)], LittleEndian(|text|, k));
      Join3(w, [Combine(TYPE_LONG_STRING, k)] + LittleEndian(|text|, k), text);
    }
  }

  lemma TableParts(w: seq<Byte>, v: Value)
    requires v.Table? && SeriFormat.Valid(v)
    ensures w + TableHead(|v.items|) + EncodeAll(v.items) + EncodePairs(v.pairs) + [Combine(TYPE_NIL, 0)] == w + Encode(v)
  {
    hide TableHead, EncodeAll, EncodePairs;
    assert w + TableHead(|v.items|) + EncodeAll(v.items) + EncodePairs(v.pairs) + [Combine(TYPE_NIL, 0)]
        == w + (TableHead(|v.items|) + (EncodeAll(v.items) + (EncodePairs(v.pairs) + [Combine(TYPE_NIL, 0)])));
  }

  lemma NoneLeft(w: seq<Byte>, v: Value)
    requires v.Table? && SeriFormat.Valid(v)
    ensures w + EncodeAll([]) == w && w + EncodePairs([]) == w && v.items[0..] == v.items && v.pairs[0..] == v.pairs
    ensures v.items[|v.items|..] == [] && v.pairs[|v.pairs|..] == []
  {
  }

  lemma NextItem(v: Value, i: nat)
    requires v.Table? && SeriFormat.Valid(v) && i < |v.items|
    ensures EncodeAll(v.items[i..]) == Encode(v.items[i]) + EncodeAll(v.items[i + 1..]) && SeriFormat.Valid(v.items[i])
    ensures v.items[i] < v
  {
    hide Encode;
    assert v.items[i..][1..] == v.items[i + 1..];
  }

  lemma NextPair(v: Value, i: nat)
    requires v.Table? && SeriFormat.Valid(v) && i < |v.pairs|
    ensures ValidPair(v.pairs[i]) && v.pairs[i] < v
    ensures EncodePairs(v.pairs[i..]) == EncodePair(v.pairs[i]) + EncodePairs(v.pairs[i + 1..])
  {
    hide EncodePair;
    assert v.pairs[i..][1..] == v.pairs[i + 1..];
  }

  // ----- reading -----

  class ReadBlock {
    const buffer: seq<Byte>
    var len: int
    var ptr: int

    ghost predicate Valid()
      reads this
    {
      0 <= ptr <= |buffer| && len == |buffer| - ptr
    }

    /** What is left to read. */
    ghost function Rest(): seq<Byte>
      requires Valid()
      reads this
    {
      buffer[ptr..]
    }

    /** rball_init */
    constructor (buffer: seq<Byte>)
      ensures Valid() && Rest() == buffer
    {
      this.buffer := buffer;
      len, ptr := |buffer|, 0;
    }

    /** rb_read; None stands for NULL. */
    method ReadBytes(size: nat) returns (bytes: Option<seq<Byte>>)
      requires Valid()
      modifies this`len, this`ptr
      ensures Valid()
      ensures match Take(old(Rest()), size)
              case Some(r) => bytes == Some(r.0) && Rest() == r.1
              case None => bytes == None
    {
      if len < size { return None; }
      assert buffer[ptr..ptr + size] == Rest()[..size] && buffer[ptr + size..] == Rest()[size..];
      bytes := Some(buffer[ptr..ptr + size]);
      ptr := ptr + size;
      len := len - size;
    }

    /** get_integer; None stands for the error raised on a broken stream, here and below. */
    method GetInteger(cookie: int) returns (n: Option<int>)
      requires Valid()
      modifies this`len, this`ptr
      ensures Valid()
      ensures match DecodeInt(cookie, old(Rest()))
              case Some(r) => n == Some(r.0) && Rest() == r.1
              case None => n == None
    {
      hide Signed, Number;
      if cookie == NUMBER_ZERO { return Some(0); }
      var size := if cookie == NUMBER_BYTE then 1 else if cookie == NUMBER_WORD then 2
                  else if cookie == NUMBER_DWORD then 4 else if cookie == NUMBER_QWORD then 8 else -1;
      if size < 0 { return None; }
      var bytes := ReadBytes(size);
      if bytes == None { return None; }
      n := Some(if size >= 4 then Signed(bytes.value) else Number(bytes.value));
    }

    /** get_buffer */
    method GetString(size: nat) returns (v: Option<Value>)
      requires Valid()
      modifies this`len, this`ptr
      ensures Valid()
      ensures match StringBody(Take(old(Rest()), size))
              case Some(r) => v == Some(r.0) && Rest() == r.1
              case None => v == None
    {
      var bytes := ReadBytes(size);
      if bytes == None { return None; }
      v := Some(Str(bytes.value));
    }

    /** unpack_one */
    method UnpackOne() returns (v: Option<Value>)
      requires Valid()
      modifies this`len, this`ptr
      ensures Valid()
      ensures match Decode(old(Rest()))
              case Some(r) => v == Some(r.0) && Rest() == r.1
              case None => v == None
      decreases len, 0
    {
      hide DecodeBody;
      ghost var b := Rest();
      var t := ReadBytes(1);
      if t == None { return None; }
      v := PushValue(t.value[0] % 8, t.value[0] / 8);
    }

    /** push_value */
    method PushValue(t: int, cookie: int) returns (v: Option<Value>)
      requires Valid() && 0 <= cookie
      modifies this`len, this`ptr
      ensures Valid()
      ensures match DecodeBody(t, cookie, old(Rest()))
              case Some(r) => v == Some(r.0) && Rest() == r.1
              case None => v == None
      decreases len, 3
    {
      hide DecodeInt, DecodeSize, DecodeAll, DecodePairs, Number;
      if t == TYPE_NIL { return Some(Nil); }
      if t == TYPE_BOOLEAN { return Some(Bool(cookie != 0)); }
      if t == TYPE_NUMBER && cookie != NUMBER_REAL {
        var n := GetInteger(cookie);
        return if n == None then None else Some(Int(n.value));
      }
      if t == TYPE_NUMBER || t == TYPE_USERDATA {
        var bytes := ReadBytes(8);
        return if bytes == None then None else Some(if t == TYPE_NUMBER then Real(bytes.value) else Pointer(bytes.value));
      }
      if t == TYPE_SHORT_STRING {
        v := GetString(cookie);
        return;
      }
      if t == TYPE_LONG_STRING {
        if cookie != 2 && cookie != 4 { return None; }
        var size := ReadBytes(cookie);
        if size == None { return None; }
        v := GetString(Number(size.value));
        return;
      }
      if t == TYPE_TABLE {
        v := UnpackTable(cookie);
        return;
      }
      return None;
    }

    /** unpack_table's size: a cookie of 31 announces an integer. */
    method GetSize(cookie: int) returns (n: Option<int>)
      requires Valid()
      modifies this`len, this`ptr
      ensures Valid()
      ensures match DecodeSize(cookie, old(Rest()))
              case Some(r) => n == Some(r.0) && Rest() == r.1
              case None => n == None
    {
      hide DecodeInt;
      if cookie != MAX_COOKIE - 1 { return Some(cookie); }
      var t := ReadBytes(1);
      if t == None { return None; }
      if t.value[0] % 8 != TYPE_NUMBER || t.value[0] / 8 == NUMBER_REAL { return None; }
      var size := GetInteger(t.value[0] / 8);
      n := if size == None then None else Some(ToInt(size.value));
    }

    /** unpack_table */
    method UnpackTable(cookie: int) returns (v: Option<Value>)
      requires Valid()
      modifies this`len, this`ptr
      ensures Valid()
      ensures match DecodeBody(TYPE_TABLE, cookie, old(Rest()))
              case Some(r) => v == Some(r.0) && Rest() == r.1
              case None => v == None
      decreases len, 2
    {
      hide DecodeSize, DecodeAll, DecodePairs;
      var n := GetSize(cookie);
      if n == None { return None; }
      var items := UnpackArray(n.value);
      if items == None { return None; }
      var pairs := UnpackPairs();
      if pairs == None { return None; }
      v := Some(Table(items.value, pairs.value));
    }

    method UnpackArray(n: int) returns (items: Option<seq<Value>>)
      requires Valid()
      modifies this`len, this`ptr
      ensures Valid()
      ensures match DecodeAll(n, old(Rest()))
              case Some(r) => items == Some(r.0) && Rest() == r.1
              case None => items == None
      decreases len, 1
    {
      hide Decode;
      ghost var b := Rest();
      var i, list := 0, [];
      assert DecodeAll(n, b) == Before(list, DecodeAll(n, b)) by { BeforeNone(DecodeAll(n, b)); }
      while i < n
        invariant Valid() && 0 <= i && (i <= n || i == 0) && len <= old(len)
        invariant DecodeAll(n, b) == Before(list, DecodeAll(n - i, Rest()))
        decreases n - i
      {
        ghost var rest := Rest();
        var v := UnpackOne();
        if v == None { return None; }
        BeforeOne(list, v.value, DecodeAll(n - i - 1, Rest()));
        list := list + [v.value];
        i := i + 1;
      }
      assert Before(list, Some(([], Rest()))) == Some((list, Rest())) by { assert list + [] == list; }
      items := Some(list);
    }

    method UnpackPairs() returns (pairs: Option<seq<Pair>>)
      requires Valid()
      modifies this`len, this`ptr
      ensures Valid()
      ensures match DecodePairs(old(Rest()))
              case Some(r) => pairs == Some(r.0) && Rest() == r.1
              case None => pairs == None
      decreases len, 1
    {
      hide Decode;
      ghost var b := Rest();
      var list := [];
      assert DecodePairs(b) == Before(list, DecodePairs(b)) by { BeforeNone(DecodePairs(b)); }
      while true
        invariant Valid() && len <= old(len) && DecodePairs(b) == Before(list, DecodePairs(Rest()))
        decreases len
      {
        var k := UnpackOne();
        if k == None { return None; }
        if k.value == Nil {
          assert list + [] == list;
          return Some(list);
        }
        var v := UnpackOne();
        if v == None { return None; }
        BeforeOne(list, Pair(k.value, v.value), DecodePairs(Rest()));
        list := list + [Pair(k.value, v.value)];
      }
    }
  }

  /** Elements already read, before those still to come. */
  function Before<T>(list: seq<T>, r: Read<seq<T>>): Read<seq<T>> {
    if r.None? then None else Some((list + r.value.0, r.value.1))
  }

  lemma BeforeNone<T>(r: Read<seq<T>>)
    ensures Before([], r) == r
  {
    if r.Some? { assert [] + r.value.0 == r.value.0; }
  }

  lemma BeforeOne<T>(list: seq<T>, x: T, r: Read<seq<T>>)
    ensures Before(list + [x], r) == Before(list, Before([x], r))
  {
    if r.Some? { assert (list + [x]) + r.value.0 == list + ([x] + r.value.0); }
  }

  // ----- there and back -----

  /** luaseri_pack: the packed values in one buffer, or an error. */
  method Pack(vs: seq<Value>) returns (buffer: Option<seq<Byte>>)
    requires forall i :: 0 <= i < |vs| ==> SeriFormat.Valid(vs[i])
    ensures buffer == if forall i :: 0 <= i < |vs| ==> Shallow(vs[i], 0) then Some(EncodeAll(vs)) else None
  {
    hide Encode, EncodeAll, Shallow, WriteBlock.Valid;
    var wb := new WriteBlock();
    var i := 0;
    PackStart(vs);
    while i < |vs|
      invariant 0 <= i <= |vs| && wb.Valid() && fresh(wb) && fresh(wb.blocks)
      invariant wb.written + EncodeAll(vs[i..]) == EncodeAll(vs)
      invariant forall j :: 0 <= j < i ==> Shallow(vs[j], 0)
    {
      PackNext(vs, i, wb.written);
      var ok := wb.PackOne(vs[i], 0);
      if !ok { return None; }
      i := i + 1;
    }
    PackEnd(vs, wb.written);
    var b := wb.Copy();
    return Some(b);
  }

  lemma PackStart(vs: seq<Value>)
    requires forall i :: 0 <= i < |vs| ==> SeriFormat.Valid(vs[i])
    ensures [] + EncodeAll(vs[0..]) == EncodeAll(vs)
  {
    assert vs[0..] == vs;
  }

  lemma PackNext(vs: seq<Value>, i: nat, w: seq<Byte>)
    requires i < |vs| && forall i :: 0 <= i < |vs| ==> SeriFormat.Valid(vs[i])
    ensures w + EncodeAll(vs[i..]) == w + Encode(vs[i]) + EncodeAll(vs[i + 1..])
  {
    hide Encode;
    assert vs[i..][1..] == vs[i + 1..];
    Join3(w, Encode(vs[i]), EncodeAll(vs[i + 1..]));
  }

  lemma PackEnd(vs: seq<Value>, w: seq<Byte>)
    ensures vs[|vs|..] == [] && w + EncodeAll([]) == w
  {
  }

  /** luaseri_unpack: values until the stream ends. */
  method Unpack(buffer: seq<Byte>) returns (vs: Option<seq<Value>>)
    ensures vs == DecodeStream(buffer)
  {
    hide Decode;
    var rb := new ReadBlock(buffer);
    var list: seq<Value> := [];
    assert forall more: seq<Value> :: [] + more == more;
    while rb.len > 0
      invariant rb.Valid() && fresh(rb)
      invariant DecodeStream(buffer) == match DecodeStream(rb.Rest()) case Some(more) => Some(list + more) case None => None
      decreases rb.len
    {
      var v := rb.UnpackOne();
      if v == None { return None; }
      assert forall more: seq<Value> :: (list + [v.value]) + more == list + ([v.value] + more);
      list := list + [v.value];
    }
    assert list + [] == list;
    return Some(list);
  }

  /** What one service packs, the other unpacks: the same values, for every list nested within bounds. */
  method Transfer(vs: seq<Value>) returns (got: Option<seq<Value>>)
    requires forall i :: 0 <= i < |vs| ==> SeriFormat.Valid(vs[i])
    ensures got == if forall i :: 0 <= i < |vs| ==> Shallow(vs[i], 0) then Some(vs) else None
  {
    hide EncodeAll, DecodeStream, Shallow;
    var buffer := Pack(vs);
    if buffer == None { return None; }
    StreamRoundTrip(vs);
    got := Unpack(buffer.value);
  }
}
