/** Reassembly of length-prefixed packages in lua-netpack.c: chunks of many streams come in as the network cut
    them, whole packages go out. */
module Netpacks {
  import opened Wrappers
  import opened MessageQueues

  type Byte = x: int | 0 <= x < 256

  const QUEUESIZE: nat := 1024
  const HASHSIZE: nat := 4096

  // ----- the format -----

  /** read_size: two bytes, the high one first. */
  function Size(high: Byte, low: Byte): (n: nat)
    ensures n < 0x1_0000
  {
    high * 256 + low
  }

  /** The whole packages of a stream, and what is left behind them. */
  function Frames(b: seq<Byte>): (r: seq<seq<Byte>>)
    decreases |b|
  {
    if Short(b) then [] else [b[2..2 + Size(b[0], b[1])]] + Frames(b[2 + Size(b[0], b[1])..])
  }

  function Tail(b: seq<Byte>): (r: seq<Byte>)
    ensures Short(r)
    decreases |b|
  {
    if Short(b) then b else Tail(b[2 + Size(b[0], b[1])..])
  }

  /** No whole package at the front. */
  predicate Short(b: seq<Byte>) { |b| < 2 || |b| < 2 + Size(b[0], b[1]) }

  /** lpack */
  function Packed(data: seq<Byte>): seq<Byte>
    requires |data| < 0x1_0000
  {
    [|data| / 256, |data| % 256] + data
  }

  function PackedAll(list: seq<seq<Byte>>): seq<Byte>
    requires forall i :: 0 <= i < |list| ==> |list[i]| < 0x1_0000
  {
    if list == [] then [] else Packed(list[0]) + PackedAll(list[1..])
  }

  /** What one side packs the other finds, whole and in order. */
  lemma {:induction false} PackedFrames(list: seq<seq<Byte>>)
    requires forall i :: 0 <= i < |list| ==> |list[i]| < 0x1_0000
    ensures Frames(PackedAll(list)) == list && Tail(PackedAll(list)) == []
    decreases |list|
  {
    if list != [] {
      var n, rest := |list[0]|, PackedAll(list[1..]);
      var b := Packed(list[0]) + rest;
      PackedFrames(list[1..]);
      assert b[0] == n / 256 && b[1] == n % 256 && Size(b[0], b[1]) == n;
      assert b[2..2 + n] == list[0] && b[2 + n..] == rest;
    }
  }

  /** The packages of a stream do not depend on where it is cut: the first part's, then those of what it left
      followed by the second part. */
  lemma {:induction false} CutAnywhere(x: seq<Byte>, y: seq<Byte>)
    ensures Frames(x + y) == Frames(x) + Frames(Tail(x) + y)
    ensures Tail(x + y) == Tail(Tail(x) + y)
    decreases |x|
  {
    hide Frames, Tail, Size;
    if Short(x) {
      ShortWhole(x);
      assert [] + Frames(x + y) == Frames(x + y);
    } else {
      var k := 2 + Size(x[0], x[1]);
      CutFront(x, y, k);
      FrontFrame(x);
      FrontFrame(x + y);
      CutAnywhere(x[k..], y);
      assert [x[2..k]] + (Frames(x[k..]) + Frames(Tail(x) + y)) == ([x[2..k]] + Frames(x[k..])) + Frames(Tail(x) + y);
    }
  }

  lemma CutFront(x: seq<Byte>, y: seq<Byte>, k: nat)
    requires 2 <= k <= |x|
    ensures (x + y)[0] == x[0] && (x + y)[1] == x[1] && (x + y)[2..k] == x[2..k] && (x + y)[k..] == x[k..] + y
  {
  }

  /** A whole package in front. */
  lemma FrontFrame(b: seq<Byte>)
    requires !Short(b)
    ensures var k := 2 + Size(b[0], b[1]); Frames(b) == [b[2..k]] + Frames(b[k..]) && Tail(b) == Tail(b[k..])
  {
  }

  // ----- the queue -----

  /** struct netpack, and struct uncomplete: `read` is -1 while only the header's first byte is known. */
  datatype Netpack = Netpack(id: int, buffer: seq<Byte>)
  datatype Uncomplete = Uncomplete(id: int, size: nat, buffer: seq<Byte>, read: int, header: Byte) {
    predicate Valid() { if read == -1 then true else size < 0x1_0000 && 0 <= read < size && |buffer| == size }

    /** The bytes of the stream it stands for. */
    function Bytes(): seq<Byte>
      requires Valid()
    {
      if read == -1 then [header] else [size / 256, size % 256] + buffer[..read]
    }
  }

  function HashFd(fd: int): (h: nat)
    requires fd >= 0
    ensures h < HASHSIZE
  {
    (fd / 0x100_0000 + fd / 0x1000 + fd) % 0x1_0000_0000 % HASHSIZE
  }

  /** The unfinished packages of one bucket, one per fd, as `pending` says. */
  ghost predicate Bucket(list: seq<Uncomplete>, h: nat, pending: map<int, seq<Byte>>) {
    && (forall i :: 0 <= i < |list| ==> Kept(list[i], h, pending))
    && (forall i, j :: 0 <= i < j < |list| ==> list[i].id != list[j].id)
  }

  predicate Kept(uc: Uncomplete, h: nat, pending: map<int, seq<Byte>>) {
    uc.Valid() && uc.id >= 0 && HashFd(uc.id) == h && uc.id in pending && pending[uc.id] == uc.Bytes()
  }

  ghost predicate HasId(list: seq<Uncomplete>, fd: int) { exists i :: 0 <= i < |list| && list[i].id == fd }

  /** Every unfinished package is in the bucket of its fd. */
  ghost predicate Stored(buckets: seq<seq<Uncomplete>>, pending: map<int, seq<Byte>>) {
    && |buckets| == HASHSIZE
    && (forall h :: 0 <= h < HASHSIZE ==> Bucket(buckets[h], h, pending))
    && (forall fd :: fd in pending ==> fd >= 0 && HasId(buckets[HashFd(fd)], fd))
  }

  lemma BucketLess(list: seq<Uncomplete>, i: nat, h: nat, pending: map<int, seq<Byte>>, fd: int)
    requires Bucket(list, h, pending) && i < |list| && fd == list[i].id
    ensures Bucket(list[..i] + list[i + 1..], h, pending - {fd})
    ensures forall x :: x != fd && HasId(list, x) ==> HasId(list[..i] + list[i + 1..], x)
  {
    hide HashFd;
    var less := list[..i] + list[i + 1..];
    forall j | 0 <= j < |less| ensures less[j] == list[if j < i then j else j + 1] {}
    forall x | x != fd && HasId(list, x) ensures HasId(less, x) {
      var j :| 0 <= j < |list| && list[j].id == x;
      assert less[if j < i then j else j - 1].id == x;
    }
  }

  lemma BucketElse(list: seq<Uncomplete>, h: nat, pending: map<int, seq<Byte>>, fd: int, b: seq<Byte>)
    requires Bucket(list, h, pending) && fd >= 0 && h != HashFd(fd)
    ensures Bucket(list, h, pending - {fd}) && Bucket(list, h, pending[fd := b])
  {
    hide HashFd;
    forall i | 0 <= i < |list| ensures list[i].id != fd { assert Kept(list[i], h, pending); }
  }

  /** Taking an unfinished package out. */
  lemma StoredWithout(buckets: seq<seq<Uncomplete>>, pending: map<int, seq<Byte>>, h: nat, i: nat)
    requires Stored(buckets, pending) && h < HASHSIZE && i < |buckets[h]|
    ensures Stored(buckets[h := buckets[h][..i] + buckets[h][i + 1..]], pending - {buckets[h][i].id})
  {
    hide HashFd, Bucket, HasId;
    var fd := buckets[h][i].id;
    assert fd >= 0 && HashFd(fd) == h by { KeptIn(buckets[h], i, h, pending); }
    BucketLess(buckets[h], i, h, pending, fd);
    forall g | 0 <= g < HASHSIZE && g != h ensures Bucket(buckets[g], g, pending - {fd}) { BucketElse(buckets[g], g, pending, fd, []); }
  }

  lemma KeptIn(list: seq<Uncomplete>, i: nat, h: nat, pending: map<int, seq<Byte>>)
    requires Bucket(list, h, pending) && i < |list|
    ensures Kept(list[i], h, pending) && HasId(list, list[i].id)
  {
  }

  lemma BucketMore(list: seq<Uncomplete>, uc: Uncomplete, pending: map<int, seq<Byte>>)
    requires uc.id >= 0 && uc.Valid() && uc.id !in pending && Bucket(list, HashFd(uc.id), pending)
    ensures Bucket([uc] + list, HashFd(uc.id), pending[uc.id := uc.Bytes()])
    ensures HasId([uc] + list, uc.id) && forall x :: HasId(list, x) ==> HasId([uc] + list, x)
  {
    hide HashFd;
    var more := [uc] + list;
    assert more[0] == uc;
    forall i | 0 <= i < |list| ensures list[i].id != uc.id && more[i + 1] == list[i] { assert Kept(list[i], HashFd(uc.id), pending); }
    forall x | HasId(list, x) ensures HasId(more, x) {
      var j :| 0 <= j < |list| && list[j].id == x;
      assert more[j + 1].id == x;
    }
  }

  /** Putting one in. */
  lemma StoredWith(buckets: seq<seq<Uncomplete>>, pending: map<int, seq<Byte>>, uc: Uncomplete)
    requires Stored(buckets, pending) && uc.Valid() && uc.id >= 0 && uc.id !in pending
    ensures var h := HashFd(uc.id); Stored(buckets[h := [uc] + buckets[h]], pending[uc.id := uc.Bytes()])
  {
    hide HashFd, Bucket, HasId;
    var h := HashFd(uc.id);
    BucketMore(buckets[h], uc, pending);
    forall g | 0 <= g < HASHSIZE && g != h ensures Bucket(buckets[g], g, pending[uc.id := uc.Bytes()]) {
      BucketElse(buckets[g], g, pending, uc.id, uc.Bytes());
    }
  }

  /** What filter_data hands to its caller: nothing, one package, or word that packages are queued. */
  datatype Result = Nothing | Data(id: int, data: seq<Byte>) | More

  function Of(fd: int, frames: seq<seq<Byte>>): (r: seq<Netpack>)
    ensures |r| == |frames| && forall i :: 0 <= i < |frames| ==> r[i] == Netpack(fd, frames[i])
  {
    seq(|frames|, i requires 0 <= i < |frames| => Netpack(fd, frames[i]))
  }

  function Pending(pending: map<int, seq<Byte>>, fd: int): seq<Byte> { if fd in pending then pending[fd] else [] }

  /** The streams after fd's unfinished bytes have become b. */
  function Leave(pending: map<int, seq<Byte>>, fd: int, b: seq<Byte>): map<int, seq<Byte>> {
    if b == [] then pending - {fd} else pending[fd := b]
  }

  class Queue {
    var cap: nat
    var head: nat
    var tail: nat
    var queue: array<Netpack>
    const hash: array<seq<Uncomplete>>
    /** The unfinished bytes of each stream. */
    ghost var pending: map<int, seq<Byte>>

    ghost predicate Valid()
      reads this, hash
    {
      && queue.Length == cap > 0 && head < cap && tail < cap
      && hash.Length == HASHSIZE && Stored(hash[..], pending)
    }

    /** The packages waiting for lpop. */
    ghost function Waiting(): seq<Netpack>
      requires Valid()
      reads this, hash, queue
    {
      Unrolled(queue[..], head, tail)
    }

    constructor ()
      ensures Valid() && Waiting() == [] && pending == map[] && fresh(queue) && fresh(hash)
    {
      cap, head, tail, pending := QUEUESIZE, 0, 0, map[];
      queue := new Netpack[QUEUESIZE](_ => Netpack(0, []));
      hash := new seq<Uncomplete>[HASHSIZE](_ => []);
    }

    /** expand_queue, when the ring is full. */
    method Expand()
      requires Valid() && head == tail
      modifies this`cap, this`head, this`tail, this`queue
      ensures Valid() && fresh(queue) && Waiting() == old(queue[head..] + queue[..head])
    {
      hide Stored;
      var larger := new Netpack[cap + QUEUESIZE](_ => Netpack(0, []));
      ghost var was := queue[head..] + queue[..head];
      assert queue[..][head..] + queue[..][..head] == was;
      var i := 0;
      while i < cap
        invariant 0 <= i <= cap && Valid() && unchanged(this)
        invariant forall k :: 0 <= k < i ==> larger[k] == was[k]
        invariant queue[..] == old(queue[..]) && hash[..] == old(hash[..])
      {
        Around(queue[..], head, i);
        larger[i] := queue[(head + i) % cap];
        i := i + 1;
      }
      assert forall k :: 0 <= k < cap ==> larger[..][..cap][k] == was[k];
      head, tail, cap := 0, cap, cap + QUEUESIZE;
      queue := larger;
      assert Waiting() == larger[..][..tail];
    }

    /** push_data */
    method PushData(fd: int, data: seq<Byte>)
      requires Valid()
      modifies this`cap, this`head, this`tail, this`queue, queue
      ensures Valid() && (queue == old(queue) || fresh(queue)) && Waiting() == old(Waiting()) + [Netpack(fd, data)]
      ensures pending == old(pending)
    {
      hide Stored;
      queue[tail] := Netpack(fd, data);
      tail := tail + 1;
      if tail >= cap { tail := tail - cap; }
      if head == tail {
        assert queue[head..] + queue[..head] == old(Waiting()) + [Netpack(fd, data)];
        Expand();
      }
    }

    /** lpop */
    method Pop() returns (np: Option<Netpack>)
      requires Valid()
      modifies this`head
      ensures Valid() && pending == old(pending)
      ensures old(Waiting()) == [] ==> np == None && Waiting() == []
      ensures old(Waiting()) != [] ==> np == Some(old(Waiting())[0]) && Waiting() == old(Waiting())[1..]
    {
      hide Stored, Unrolled;
      if head == tail { return None; }
      TakeFirst(queue[..], head, tail);
      np := Some(queue[head]);
      head := head + 1;
      if head >= cap { head := 0; }
    }

    /** find_uncomplete: the unfinished package of fd leaves its bucket. */
    method FindUncomplete(fd: int) returns (uc: Option<Uncomplete>)
      requires Valid() && fd >= 0
      modifies this`pending, hash
      ensures Valid() && Waiting() == old(Waiting()) && pending == old(pending) - {fd}
      ensures fd in old(pending) <==> uc.Some?
      ensures uc.Some? ==> uc.value.id == fd && uc.value.Valid() && old(pending)[fd] == uc.value.Bytes()
    {
      var h := HashFd(fd);
      var list := hash[h];
      var i := 0;
      while i < |list|
        invariant 0 <= i <= |list| && forall j :: 0 <= j < i ==> list[j].id != fd
      {
        if list[i].id == fd {
          ghost var row := hash[..];
          KeptIn(row[h], i, h, pending);
          StoredWithout(row, pending, h, i);
          hash[h] := list[..i] + list[i + 1..];
          assert hash[..] == row[h := list[..i] + list[i + 1..]];
          pending := pending - {fd};
          return Some(list[i]);
        }
        i := i + 1;
      }
      assert !HasId(hash[..][HashFd(fd)], fd);
      assert pending - {fd} == pending;
      return None;
    }

    /** An unfinished package is put into the bucket of its fd. */
    method SaveUncomplete(uc: Uncomplete)
      requires Valid() && uc.Valid() && uc.id >= 0 && uc.id !in pending
      modifies this`pending, hash
      ensures Valid() && Waiting() == old(Waiting()) && pending == old(pending)[uc.id := uc.Bytes()]
    {
      ghost var row := hash[..];
      var h := HashFd(uc.id);
      StoredWith(row, pending, uc);
      hash[h] := [uc] + hash[h];
      assert hash[..] == row[h := [uc] + row[h]];
      pending := pending[uc.id := uc.Bytes()];
    }

    /** push_more: every whole package goes to the queue, the rest is saved. */
    method PushMore(fd: int, b: seq<Byte>)
      requires Valid() && fd >= 0 && fd !in pending && b != []
      modifies this`cap, this`head, this`tail, this`queue, this`pending, queue, hash
      ensures Valid() && (queue == old(queue) || fresh(queue))
      ensures Waiting() == old(Waiting()) + Of(fd, Frames(b)) && pending == Leave(old(pending), fd, Tail(b))
      decreases |b|
    {
      hide Stored, Unrolled;
      NoFrames(old(Waiting()), fd);
      if |b| == 1 {
        assert [b[0]] == b;
        SaveUncomplete(Uncomplete(fd, 0, [], -1, b[0]));
        return;
      }
      var size := Size(b[0], b[1]);
      if |b| - 2 < size {
        SaveRest(fd, size, b);
        return;
      }
      FrontFrame(b);
      OfFirst(old(Waiting()), fd, b[2..2 + size], Frames(b[2 + size..]));
      PushData(fd, b[2..2 + size]);
      if |b| - 2 - size > 0 {
        PushMore(fd, b[2 + size..]);
      } else {
        NoFrames(old(Waiting()) + [Netpack(fd, b[2..2 + size])], fd);
        assert pending - {fd} == pending;
      }
    }

    /** A package of which only the first bytes have come. */
    method SaveRest(fd: int, size: nat, b: seq<Byte>)
      requires Valid() && fd >= 0 && fd !in pending && 2 <= |b| < 2 + size && size == Size(b[0], b[1])
      modifies this`pending, hash
      ensures Valid() && Waiting() == old(Waiting()) && pending == old(pending)[fd := b]
    {
      hide Stored, Unrolled;
      var read := |b| - 2;
      var buffer := b[2..] + seq(size - read, _ => 0);
      var uc := Uncomplete(fd, size, buffer, read, 0);
      assert buffer[..read] == b[2..];
      assert uc.Bytes() == b;
      SaveUncomplete(uc);
    }

    /** filter_data_: a chunk of fd's stream. One package alone is handed over at once, more go to the queue. */
    method FilterData(fd: int, chunk: seq<Byte>) returns (r: Result)
      requires Valid() && fd >= 0 && chunk != []
      modifies this`cap, this`head, this`tail, this`queue, this`pending, queue, hash
      ensures Valid() && (queue == old(queue) || fresh(queue))
      ensures pending == Feed(old(pending), Chunk(fd, chunk)).0
      ensures Handed(r, old(Waiting()), Waiting(), Feed(old(pending), Chunk(fd, chunk)).1)
    {
      hide Stored, Unrolled;
      var uc := FindUncomplete(fd);
      if uc.Some? {
        r := Continue(uc.value, chunk, old(pending));
      } else {
        assert pending == old(pending);
        assert [] + chunk == chunk;
        r := Begin(fd, chunk);
      }
    }

    /** More bytes for an unfinished package. */
    method Continue(uc: Uncomplete, chunk: seq<Byte>, ghost before: map<int, seq<Byte>>) returns (r: Result)
      requires Valid() && uc.Valid() && uc.id >= 0 && chunk != []
      requires uc.id in before && before[uc.id] == uc.Bytes() && pending == before - {uc.id}
      modifies this`cap, this`head, this`tail, this`queue, this`pending, queue, hash
      ensures Valid() && (queue == old(queue) || fresh(queue))
      ensures pending == Feed(before, Chunk(uc.id, chunk)).0
      ensures Handed(r, old(Waiting()), Waiting(), Feed(before, Chunk(uc.id, chunk)).1)
    {
      hide Stored, Unrolled, Frames, Tail;
      var b, size, got := chunk, uc.size, if uc.read == -1 then [] else uc.buffer[..uc.read];
      if uc.read == -1 {
        size := Size(uc.header, b[0]);
        b := b[1..];
      }
      var need := size - |got|;
      ghost var whole := uc.Bytes() + chunk;
      WholeBytes(uc, chunk, size, got, b);
      if |b| < need {
        ShortWhole(whole);
        LeaveMore(before, uc.id, whole);
        SaveRest(uc.id, size, [size / 256, size % 256] + got + b);
        assert whole == [size / 256, size % 256] + got + b;
        return Nothing;
      }
      var data := got + b[..need];
      FirstWhole(whole, size, data, b[need..]);
      if |b| == need {
        NothingLeft();
        return Data(uc.id, data);
      }
      LeaveMore(before, uc.id, Tail(b[need..]));
      OfFirst(old(Waiting()), uc.id, data, Frames(b[need..]));
      PushData(uc.id, data);
      PushMore(uc.id, b[need..]);
      return More;
    }

    /** A chunk of a stream with no unfinished package. */
    method Begin(fd: int, b: seq<Byte>) returns (r: Result)
      requires Valid() && fd >= 0 && fd !in pending && b != []
      modifies this`cap, this`head, this`tail, this`queue, this`pending, queue, hash
      ensures Valid() && (queue == old(queue) || fresh(queue))
      ensures pending == Leave(old(pending), fd, Tail(b))
      ensures Handed(r, old(Waiting()), Waiting(), Of(fd, Frames(b)))
    {
      hide Stored, Unrolled, Frames, Tail;
      if |b| == 1 {
        assert [b[0]] == b;
        ShortWhole(b);
        SaveUncomplete(Uncomplete(fd, 0, [], -1, b[0]));
        return Nothing;
      }
      var size := Size(b[0], b[1]);
      if |b| - 2 < size {
        ShortWhole(b);
        SaveRest(fd, size, b);
        return Nothing;
      }
      var data := b[2..2 + size];
      FrontFrame(b);
      if |b| - 2 == size {
        assert b[2 + size..] == [];
        NothingLeft();
        assert [data] + [] == [data];
        assert pending - {fd} == pending;
        return Data(fd, data);
      }
      OfFirst(old(Waiting()), fd, data, Frames(b[2 + size..]));
      PushData(fd, data);
      PushMore(fd, b[2 + size..]);
      return More;
    }

    /** close_uncomplete: an unfinished package of a closed connection is dropped. */
    method Close(fd: int)
      requires Valid() && fd >= 0
      modifies this`pending, hash
      ensures Valid() && Waiting() == old(Waiting()) && pending == old(pending) - {fd}
    {
      var uc := FindUncomplete(fd);
    }
  }

  lemma NoFrames(w: seq<Netpack>, fd: int)
    ensures w + Of(fd, []) == w
  {
  }

  lemma OfFirst(w: seq<Netpack>, fd: int, data: seq<Byte>, more: seq<seq<Byte>>)
    ensures w + Of(fd, [data] + more) == w + [Netpack(fd, data)] + Of(fd, more)
  {
  }

  // ----- chunks -----

  datatype Chunk = Chunk(fd: int, data: seq<Byte>)

  /** A chunk's effect on the unfinished bytes, and the packages it completes. */
  function Feed(pending: map<int, seq<Byte>>, c: Chunk): (map<int, seq<Byte>>, seq<Netpack>) {
    var whole := Pending(pending, c.fd) + c.data;
    (Leave(pending, c.fd, Tail(whole)), Of(c.fd, Frames(whole)))
  }

  /** The packages go out in order: one alone by itself, otherwise all to the end of the queue. */
  predicate Handed(r: Result, before: seq<Netpack>, after: seq<Netpack>, out: seq<Netpack>) {
    match r
    case Nothing => out == [] && after == before
    case Data(id, data) => out == [Netpack(id, data)] && after == before
    case More => out != [] && after == before + out
  }

  lemma ShortWhole(b: seq<Byte>)
    requires Short(b)
    ensures Frames(b) == [] && Tail(b) == b
  {
  }

  lemma NothingLeft()
    ensures Frames([]) == [] && Tail([]) == []
  {
  }

  lemma LeaveMore(before: map<int, seq<Byte>>, fd: int, b: seq<Byte>)
    ensures Leave(before - {fd}, fd, b) == Leave(before, fd, b)
  {
    assert (before - {fd}) - {fd} == before - {fd};
    assert (before - {fd})[fd := b] == before[fd := b];
  }

  /** The unfinished bytes and the new ones, laid out as a package. */
  lemma WholeBytes(uc: Uncomplete, chunk: seq<Byte>, size: nat, got: seq<Byte>, b: seq<Byte>)
    requires uc.Valid() && chunk != []
    requires if uc.read == -1 then size == Size(uc.header, chunk[0]) && got == [] && b == chunk[1..]
             else size == uc.size && got == uc.buffer[..uc.read] && b == chunk
    ensures size < 0x1_0000 && |got| <= size && uc.Bytes() + chunk == [size / 256, size % 256] + got + b
    ensures Size(size / 256, size % 256) == size
  {
    if uc.read == -1 {
      assert size / 256 == uc.header && size % 256 == chunk[0];
      assert chunk == [chunk[0]] + b;
    }
  }

  lemma FirstWhole(whole: seq<Byte>, size: nat, data: seq<Byte>, rest: seq<Byte>)
    requires size < 0x1_0000 && |data| == size && whole == [size / 256, size % 256] + data + rest
    ensures Frames(whole) == [data] + Frames(rest) && Tail(whole) == Tail(rest)
    ensures rest == [] ==> Frames(whole) == [data] && Tail(whole) == []
  {
    assert Size(whole[0], whole[1]) == size;
    assert whole[2..2 + size] == data && whole[2 + size..] == rest;
    FrontFrame(whole);
  }

  /** All chunks of all streams, as they come in. */
  function FeedAll(chunks: seq<Chunk>): (map<int, seq<Byte>>, seq<Netpack>) {
    if chunks == [] then (map[], [])
    else
      var before := FeedAll(chunks[..|chunks| - 1]);
      var now := Feed(before.0, chunks[|chunks| - 1]);
      (now.0, before.1 + now.1)
  }

  function StreamOf(chunks: seq<Chunk>, fd: int): seq<Byte> {
    if chunks == [] then []
    else
      var before := StreamOf(chunks[..|chunks| - 1], fd);
      var c := chunks[|chunks| - 1];
      if c.fd == fd then before + c.data else before
  }

  function PackagesOf(out: seq<Netpack>, fd: int): seq<seq<Byte>> {
    if out == [] then []
    else
      var before := PackagesOf(out[..|out| - 1], fd);
      var np := out[|out| - 1];
      if np.id == fd then before + [np.buffer] else before
  }

  lemma PackagesMore(out: seq<Netpack>, id: int, frames: seq<seq<Byte>>, fd: int)
    ensures PackagesOf(out + Of(id, frames), fd) == PackagesOf(out, fd) + if id == fd then frames else []
  {
    if frames == [] {
      assert out + Of(id, frames) == out;
    } else {
      var l := frames[..|frames| - 1];
      PackagesMore(out, id, l, fd);
      assert (out + Of(id, frames))[..|out| + |l|] == out + Of(id, l);
      assert frames == l + [frames[|l|]];
    }
  }

  /** Chunking independence. However the streams are cut and interleaved, the packages of fd come out exactly
      as they lie in fd's whole stream, each once and in order, and what is unfinished is kept. */
  lemma {:induction false} ChunkingIndependent(chunks: seq<Chunk>, fd: int)
    ensures PackagesOf(FeedAll(chunks).1, fd) == Frames(StreamOf(chunks, fd))
    ensures Pending(FeedAll(chunks).0, fd) == Tail(StreamOf(chunks, fd))
    decreases |chunks|
  {
    hide Frames, Tail;
    if chunks == [] {
      NothingLeft();
    } else {
      var init, c := chunks[..|chunks| - 1], chunks[|chunks| - 1];
      ChunkingIndependent(init, fd);
      var before := FeedAll(init);
      var whole := Pending(before.0, c.fd) + c.data;
      PackagesMore(before.1, c.fd, Frames(whole), fd);
      if c.fd == fd { CutAnywhere(StreamOf(init, fd), c.data); }
    }
  }

  // ----- the gate -----

  /** dispatch_queue, with a handler that does not block: every package waiting, in order. */
  method DispatchQueue(q: Queue) returns (out: seq<Netpack>)
    requires q.Valid()
    modifies q`head
    ensures q.Valid() && q.pending == old(q.pending) && q.Waiting() == [] && out == old(q.Waiting())
  {
    hide Unrolled, Stored;
    out := [];
    var np := q.Pop();
    while np.Some?
      invariant q.Valid() && q.pending == old(q.pending)
      invariant out + (if np.Some? then [np.value] + q.Waiting() else []) == old(q.Waiting())
      invariant np.None? ==> q.Waiting() == []
      decreases np.Some?, |q.Waiting()|
    {
      out := out + [np.value];
      np := q.Pop();
    }
  }

  /** The gate from chunks to packages. As it empties the queue whenever it is told of more, no package handed
      over at once passes one that waits: the packages of each stream are dispatched whole and in order. */
  method Serve(chunks: seq<Chunk>) returns (out: seq<Netpack>)
    requires forall k :: 0 <= k < |chunks| ==> chunks[k].fd >= 0 && chunks[k].data != []
    ensures forall fd :: PackagesOf(out, fd) == Frames(StreamOf(chunks, fd))
  {
    hide Frames, Tail, Unrolled, Stored, Feed;
    var q := new Queue();
    out := [];
    for k := 0 to |chunks|
      invariant fresh(q) && fresh(q.queue) && fresh(q.hash) && q.Valid() && q.Waiting() == []
      invariant (q.pending, out) == FeedAll(chunks[..k])
    {
      assert chunks[..k + 1][..k] == chunks[..k];
      ghost var now := Feed(q.pending, chunks[k]).1;
      assert FeedAll(chunks[..k + 1]) == (Feed(q.pending, chunks[k]).0, out + now);
      ghost var before := out;
      var r := q.FilterData(chunks[k].fd, chunks[k].data);
      match r {
        case Nothing =>
        case Data(id, data) => out := out + [Netpack(id, data)];
        case More =>
          var waiting := DispatchQueue(q);
          out := out + waiting;
          assert [] + now == now;
      }
      assert out == before + now;
    }
    assert chunks[..|chunks|] == chunks;
    forall fd ensures PackagesOf(out, fd) == Frames(StreamOf(chunks, fd)) { ChunkingIndependent(chunks, fd); }
  }
}
