/** One link between two harbors (service_harbor.c): messages wait for the connection, go out with a length in
    front and a header behind, and are put together again from whatever chunks the network makes. */
module HarborLinks {
  type Byte = x: int | 0 <= x < 256
  type Word = x: int | 0 <= x < 0x1_0000_0000

  const COOKIE: nat := 12 // HEADER_COOKIE_LENGTH
  const HANDLES: int := 0x100_0000
  const UINT32_MAX: int := 0xffff_ffff

  // ----- the format -----

  /** to_bigendian */
  function Big(n: Word): (b: seq<Byte>)
    ensures |b| == 4
  {
    [n / 256 / 256 / 256, n / 256 / 256 % 256, n / 256 % 256, n % 256]
  }

  /** from_bigendian */
  function FromBig(b: seq<Byte>): Word
    requires |b| == 4
  {
    ((b[0] as int * 256 + b[1] as int) * 256 + b[2] as int) * 256 + b[3] as int
  }

  lemma BigTwice(n: Word)
    ensures FromBig(Big(n)) == n
  {
  }

  /** A message with its header; the high byte of the destination is the message's type. */
  datatype Message = Message(data: seq<Byte>, source: Word, destination: Word, session: Word)

  /** The content of a package: the data and header_to_message. */
  function Frame(m: Message): seq<Byte> { m.data + Big(m.source) + Big(m.destination) + Big(m.session) }

  /** message_to_header on the end of a content. */
  function Opened(b: seq<Byte>): Message
    requires |b| >= COOKIE
  {
    var n := |b| - COOKIE;
    Message(b[..n], FromBig(b[n..n + 4]), FromBig(b[n + 4..n + 8]), FromBig(b[n + 8..]))
  }

  lemma FrameLength(m: Message)
    ensures |Frame(m)| == |m.data| + COOKIE
  {
  }

  lemma OpenedFrame(m: Message)
    ensures |Frame(m)| == |m.data| + COOKIE && Opened(Frame(m)) == m
  {
    hide Big, FromBig;
    BigTwice(m.source);
    BigTwice(m.destination);
    BigTwice(m.session);
    var b, n := Frame(m), |m.data|;
    assert b[..n] == m.data && b[n..n + 4] == Big(m.source);
    assert b[n + 4..n + 8] == Big(m.destination) && b[n + 8..] == Big(m.session);
  }

  /** What send_remote hands to the socket; a message too large for the length is dropped. */
  function Packed(m: Message): seq<Byte> {
    if |m.data| + COOKIE > UINT32_MAX then [] else Big(|m.data| + COOKIE) + Frame(m)
  }

  lemma Associate(a: seq<Byte>, b: seq<Byte>, c: seq<Byte>)
    ensures a + (b + c) == (a + b) + c
  {
  }

  function PackedAll(ms: seq<Message>): seq<Byte> {
    if ms == [] then [] else PackedAll(ms[..|ms| - 1]) + Packed(ms[|ms| - 1])
  }

  lemma {:induction false} PackedJoin(a: seq<Message>, b: seq<Message>)
    ensures PackedAll(a + b) == PackedAll(a) + PackedAll(b)
    decreases |b|
  {
    if b == [] {
      assert a + b == a;
    } else {
      hide Packed;
      var n := |b| - 1;
      assert (a + b)[..|a + b| - 1] == a + b[..n];
      PackedJoin(a, b[..n]);
      Associate(PackedAll(a), PackedAll(b[..n]), Packed(b[n]));
    }
  }

  lemma PackedNone()
    ensures PackedAll([]) == []
  {
  }

  lemma PackedOne(m: Message)
    ensures PackedAll([m]) == Packed(m)
  {
    assert [m][..0] == [];
  }

  // ----- receiving, byte by byte -----

  /** Where the receiver is in the stream of its peer. */
  datatype Link =
    | Handshake
    | Header(size: seq<Byte>)
    | Content(length: nat, part: seq<Byte>)
    | Down

  /** Where the receiver is, and the contents that are complete. */
  datatype Progress = Progress(link: Link, done: seq<seq<Byte>>)

  /** One byte. An empty content is complete with the byte that follows it. */
  function Take(peer: Byte, p: Progress, b: Byte): Progress {
    match p.link
    case Handshake => p.(link := if b == peer then Header([]) else Down)
    case Header(size) => p.(link := TakeSize(size + [b]))
    case Content(length, part) =>
      if |part| >= length then Progress(TakeSize([b]), p.done + [part])
      else if |part| + 1 == length then Progress(Header([]), p.done + [part + [b]])
      else p.(link := Content(length, part + [b]))
    case Down => p
  }

  function TakeSize(size: seq<Byte>): Link {
    if |size| < 4 then Header(size)
    else if size[0] != 0 then Down
    else Content((size[1] as int * 256 + size[2] as int) * 256 + size[3] as int, [])
  }

  function Feed(peer: Byte, p: Progress, bytes: seq<Byte>): Progress {
    if bytes == [] then p
    else Take(peer, Feed(peer, p, bytes[..|bytes| - 1]), bytes[|bytes| - 1])
  }

  /** However a stream is cut, the receiver arrives at the same place with the same contents. */
  lemma {:induction false} CutAnywhere(peer: Byte, p: Progress, a: seq<Byte>, b: seq<Byte>)
    ensures Feed(peer, p, a + b) == Feed(peer, Feed(peer, p, a), b)
    decreases |b|
  {
    if b == [] {
      assert a + b == a;
    } else {
      var n := |b| - 1;
      assert (a + b)[..|a + b| - 1] == a + b[..n];
      CutAnywhere(peer, p, a, b[..n]);
    }
  }

  /** The four bytes of a length, or fewer. */
  lemma {:induction false} FeedSize(peer: Byte, p: Progress, bytes: seq<Byte>)
    requires p.link.Header? && |p.link.size| < 4 && |p.link.size| + |bytes| <= 4
    ensures Feed(peer, p, bytes) == p.(link := TakeSize(p.link.size + bytes))
    decreases |bytes|
  {
    if bytes == [] {
      assert p.link.size + bytes == p.link.size;
    } else {
      var n := |bytes| - 1;
      FeedSize(peer, p, bytes[..n]);
      assert p.link.size + bytes[..n] + [bytes[n]] == p.link.size + bytes;
    }
  }

  /** The bytes of a content, or fewer. */
  lemma {:induction false} FeedContent(peer: Byte, p: Progress, bytes: seq<Byte>)
    requires p.link.Content? && bytes != [] && |p.link.part| + |bytes| <= p.link.length
    ensures var all := p.link.part + bytes;
            Feed(peer, p, bytes) == if |all| < p.link.length then p.(link := p.link.(part := all))
                                    else Progress(Header([]), p.done + [all])
    decreases |bytes|
  {
    var n := |bytes| - 1;
    if n > 0 {
      FeedContent(peer, p, bytes[..n]);
      assert p.link.part + bytes[..n] + [bytes[n]] == p.link.part + bytes;
    } else {
      assert bytes == [bytes[0]] && bytes[..0] == [];
    }
  }

  // ----- what arrives -----

  /** The lengths a receiver accepts: the first of their four bytes is 0. */
  predicate Fits(m: Message) { |m.data| + COOKIE < HANDLES }

  /** The messages of a stream that arrive: those too large to send are missing, and the first that is too long
      for the receiver ends the link. */
  function Arrives(ms: seq<Message>): seq<Message> {
    if ms == [] then []
    else
      var done, m := Arrives(ms[..|ms| - 1]), ms[|ms| - 1];
      if Broken(ms[..|ms| - 1]) || !Fits(m) then done else done + [m]
  }

  predicate Broken(ms: seq<Message>) {
    exists i :: 0 <= i < |ms| && !Fits(ms[i]) && |ms[i].data| + COOKIE <= UINT32_MAX
  }

  function Frames(ms: seq<Message>): seq<seq<Byte>> { seq(|ms|, i requires 0 <= i < |ms| => Frame(ms[i])) }

  /** A whole package. */
  lemma FeedPacked(peer: Byte, p: Progress, m: Message)
    requires p.link == Header([])
    ensures Feed(peer, p, Packed(m)) == if |m.data| + COOKIE > UINT32_MAX then p
                                        else if Fits(m) then p.(done := p.done + [Frame(m)])
                                        else p.(link := Down)
  {
    var n := |m.data| + COOKIE;
    if n <= UINT32_MAX {
      hide Big, Frame, Feed, TakeSize, Take;
      FrameLength(m);
      assert Packed(m) == Big(n) + Frame(m);
      hide Packed;
      FeedParts(peer, p, n, Frame(m));
    }
  }

  lemma FeedParts(peer: Byte, p: Progress, n: Word, content: seq<Byte>)
    requires p.link == Header([]) && |content| == n >= COOKIE
    ensures Feed(peer, p, Big(n) + content)
            == if n < HANDLES then p.(done := p.done + [content]) else p.(link := Down)
  {
    hide Big, Feed, TakeSize, Take;
    CutAnywhere(peer, p, Big(n), content);
    FeedSize(peer, p, Big(n));
    assert [] + Big(n) == Big(n);
    SizeOf(n);
    if n < HANDLES {
      FeedContent(peer, p.(link := Content(n, [])), content);
      assert [] + content == content;
    } else {
      StaysDown(peer, p.(link := Down), content);
    }
  }

  lemma SizeOf(n: Word)
    ensures TakeSize(Big(n)) == if n < HANDLES then Content(n, []) else Down
  {
  }

  lemma {:induction false} StaysDown(peer: Byte, p: Progress, bytes: seq<Byte>)
    requires p.link.Down?
    ensures Feed(peer, p, bytes) == p
  {
    if bytes != [] { StaysDown(peer, p, bytes[..|bytes| - 1]); }
  }

  /** One more message, where the stream before it was taken as it should. */
  lemma NextArrives(id: Byte, ms: seq<Message>, p: Progress)
    requires ms != [] && p == Received(ms[..|ms| - 1])
    ensures Feed(id, p, Packed(ms[|ms| - 1])) == Received(ms)
  {
    hide Packed, Feed, Broken, Frames;
    var before, m := ms[..|ms| - 1], ms[|ms| - 1];
    BrokenNext(ms);
    FramesNext(Arrives(before), m);
    if Broken(before) {
      StaysDown(id, p, Packed(m));
    } else {
      FeedPacked(id, p, m);
    }
  }

  /** The receiver at the end of a stream. */
  function Received(ms: seq<Message>): Progress {
    Progress(if Broken(ms) then Down else Header([]), Frames(Arrives(ms)))
  }

  /** The stream of a sender: its own id and the packages. Exactly the messages that arrive are taken out again. */
  lemma {:induction false} StreamArrives(id: Byte, ms: seq<Message>)
    ensures Feed(id, Progress(Handshake, []), [id] + PackedAll(ms)) == Received(ms)
  {
    if ms == [] {
      assert [id] + PackedAll(ms) == [id] && [id][..0] == [];
    } else {
      var before, m := ms[..|ms| - 1], ms[|ms| - 1];
      StreamArrives(id, before);
      assert PackedAll(ms) == PackedAll(before) + Packed(m);
      hide Packed, PackedAll, Feed, Received;
      Associate([id], PackedAll(before), Packed(m));
      CutAnywhere(id, Progress(Handshake, []), [id] + PackedAll(before), Packed(m));
      NextArrives(id, ms, Received(before));
    }
  }

  lemma FramesNext(ms: seq<Message>, m: Message)
    ensures Frames(ms + [m]) == Frames(ms) + [Frame(m)]
  {
    hide Frame;
  }

  lemma BrokenNext(ms: seq<Message>)
    requires ms != []
    ensures var m := ms[|ms| - 1];
            Broken(ms) <==> Broken(ms[..|ms| - 1]) || (!Fits(m) && |m.data| + COOKIE <= UINT32_MAX)
  {
  }

  /** Messages of a length the receiver takes all arrive, as they were sent and in order. */
  lemma {:induction false} AllArrive(ms: seq<Message>)
    requires forall i :: 0 <= i < |ms| ==> Fits(ms[i])
    ensures Arrives(ms) == ms && !Broken(ms)
  {
    if ms != [] { AllArrive(ms[..|ms| - 1]); }
  }

  // ----- the link -----

  datatype Status = StatusWait | StatusHandshake | StatusHeader | StatusContent | StatusDown

  /** What becomes of a message handed to the link. */
  datatype Outcome = Queued | Remote | Refused

  /** struct slave: one other harbor. */
  class Slave {
    const id: Byte    // this harbor
    const peer: Byte  // the other one
    var connected: bool
    var status: Status
    var length: nat
    var read: nat
    var size: array<Byte>
    var recvBuffer: array<Byte>
    var queue: seq<Message>
    var out: seq<Byte>               // what the socket was handed
    var forwarded: seq<seq<Byte>>    // what forward_local_messsage was handed

    /** The messages sent, and those that were accepted at all. */
    ghost var sent: seq<Message>
    ghost var accepted: seq<Message>

    ghost predicate Valid()
      reads this, size, recvBuffer
    {
      && size.Length == 4 && size != recvBuffer
      && (status.StatusHeader? ==> read < 4)
      && (status.StatusContent? ==> read < length || read == length == 0)
      && (status.StatusContent? ==> recvBuffer.Length == length)
      && (status.StatusHandshake? ==> read == 0)
      && (connected <==> !status.StatusWait? && !status.StatusDown?)
      && out == (if connected || status.StatusDown? then [id] else []) + PackedAll(sent)
      && (status.StatusWait? ==> sent == [])
      && (status.StatusHeader? || status.StatusContent? ==> queue == [])
      && (!status.StatusDown? ==> accepted == sent + queue)
    }

    /** The receiver's side. */
    ghost function Seen(): Progress
      requires Valid()
      reads this, size, recvBuffer
    {
      Progress(match status
               case StatusHandshake => Handshake
               case StatusHeader => Header(size[..read])
               case StatusContent => Content(length, recvBuffer[..read])
               case _ => Down,
               forwarded)
    }

    constructor (id: Byte, peer: Byte)
      ensures Valid() && status.StatusWait? && accepted == [] && forwarded == []
      ensures this.id == id && this.peer == peer && fresh(size) && fresh(recvBuffer)
    {
      this.id, this.peer := id, peer;
      connected, status, length, read := false, StatusWait, 0, 0;
      queue, out, forwarded, sent, accepted := [], [], [], [], [];
      size := new Byte[4](_ => 0);
      recvBuffer := new Byte[0](_ => 0);
    }

    // ----- sending -----

    /** send_remote */
    method SendRemote(m: Message)
      modifies this`out, this`sent
      ensures out == old(out) + PackedAll([m]) && sent == old(sent) + [m]
    {
      PackedOne(m);
      out := out + Packed(m);
      sent := sent + [m];
    }

    /** dispatch_queue: what waited goes out, first in first. */
    method DispatchQueue()
      modifies this`out, this`sent, this`queue
      ensures queue == [] && sent == old(sent) + old(queue)
      ensures out == old(out) + PackedAll(old(queue))
    {
      hide PackedAll, Packed;
      ghost var gone: seq<Message> := [];
      PackedNone();
      while queue != []
        invariant gone + queue == old(queue) && sent == old(sent) + gone
        invariant out == old(out) + PackedAll(gone)
        decreases |queue|
      {
        var m := queue[0];
        queue := queue[1..];
        PackedJoin(gone, [m]);
        Associate(old(out), PackedAll(gone), PackedAll([m]));
        gone := gone + [m];
        SendRemote(m);
      }
      assert gone == old(queue);
    }

    /** The commands S and A: the connection is there. One side has yet to see the other's id. */
    method Connect(active: bool)
      requires Valid() && status.StatusWait?
      modifies this
      ensures Valid() && connected && accepted == old(accepted) && forwarded == old(forwarded)
      ensures Seen().link == if active then Handshake else Header([])
      ensures size == old(size) && recvBuffer == old(recvBuffer)
    {
      connected, read := true, 0;
      out := out + [id];
      assert out == [id];
      if active {
        status := StatusHandshake;
      } else {
        status := StatusHeader;
        DispatchQueue();
        assert sent == old(queue) == old(accepted);
      }
    }

    /** remote_send_handle to another harbor: the message goes out, or waits for the connection, or is refused
        because the link is down. */
    method SendHandle(m: Message) returns (r: Outcome)
      requires Valid()
      modifies this`out, this`sent, this`queue, this`accepted
      ensures Valid() && (r.Refused? <==> status.StatusDown?)
      ensures accepted == if r.Refused? then old(accepted) else old(accepted) + [m]
      ensures r.Remote? ==> sent == old(sent) + [m]
    {
      hide PackedAll, Packed;
      if !connected || status.StatusHandshake? {
        if status.StatusDown? { return Refused; }
        queue := queue + [m];
        accepted := accepted + [m];
        return Queued;
      }
      PackedJoin(sent, [m]);
      Associate([id], PackedAll(sent), PackedAll([m]));
      SendRemote(m);
      accepted := accepted + [m];
      return Remote;
    }

    // ----- receiving -----

    /** close_harbor */
    method Close()
      requires Valid() && connected
      modifies this`status, this`connected, this`queue
      ensures Valid() && Seen() == Progress(Down, forwarded)
    {
      status, connected, queue := StatusDown, false, [];
    }

    /** The case of STATUS_HANDSHAKE: the first byte is to be the id of the other harbor. */
    method TakeId(bytes: seq<Byte>)
      requires Valid() && status.StatusHandshake? && bytes != []
      modifies this`status, this`connected, this`queue, this`out, this`sent
      ensures Valid() && Feed(peer, Seen(), bytes[1..]) == Feed(peer, old(Seen()), bytes)
      ensures status.StatusHeader? || status.StatusDown?
    {
      hide PackedAll, Packed, Feed;
      FirstByte(peer, Seen(), bytes);
      if bytes[0] != peer {
        Close();
      } else {
        PackedJoin(sent, queue);
        Associate([id], PackedAll(sent), PackedAll(queue));
        status := StatusHeader;
        DispatchQueue();
      }
    }

    /** The case of STATUS_HEADER: n bytes are taken. */
    method TakeHeader(bytes: seq<Byte>) returns (n: nat)
      requires Valid() && status.StatusHeader?
      modifies this`status, this`connected, this`queue, this`read, this`length, this`recvBuffer, size
      ensures Valid() && n <= |bytes| && (fresh(recvBuffer) || recvBuffer == old(recvBuffer))
      ensures Feed(peer, Seen(), bytes[n..]) == Feed(peer, old(Seen()), bytes)
      ensures status.StatusHeader? ==> n == |bytes|
      ensures n > 0 || bytes == []
      ensures !status.StatusHandshake? && !status.StatusWait?
    {
      assert |bytes| < 4 - read ==> TakeSize(size[..read] + bytes) == Header(size[..read] + bytes);
      hide PackedAll, Packed, Feed, TakeSize;
      var need := 4 - read;
      n := if |bytes| < need then |bytes| else need;
      ghost var p := Seen();
      FeedSize(peer, p, bytes[..n]);
      Split(peer, p, bytes, n);
      Store(size, read, bytes[..n]);
      assert size[..read + n] == p.link.size + bytes[..n];
      assert |bytes| >= need ==> size[..] == p.link.size + bytes[..n];
      if |bytes| < need {
        read := read + n;
      } else {
        UseSize();
      }
    }

    /** All four bytes of the length are there. */
    method UseSize()
      requires Valid() && status.StatusHeader?
      modifies this`status, this`connected, this`queue, this`read, this`length, this`recvBuffer
      ensures Valid() && Seen() == Progress(TakeSize(size[..]), forwarded)
      ensures fresh(recvBuffer) || recvBuffer == old(recvBuffer)
      ensures status.StatusDown? || status.StatusContent?
    {
      hide PackedAll, Packed;
      if size[0] != 0 {
        Close();
      } else {
        length := (size[1] as int * 256 + size[2] as int) * 256 + size[3] as int;
        read := 0;
        recvBuffer := new Byte[length](_ => 0);
        status := StatusContent;
      }
    }

    /** The case of STATUS_CONTENT. */
    method TakeContent(bytes: seq<Byte>) returns (n: nat)
      requires Valid() && status.StatusContent? && bytes != []
      modifies this`status, this`read, this`length, this`forwarded, recvBuffer
      ensures Valid() && n <= |bytes|
      ensures Feed(peer, Seen(), bytes[n..]) == Feed(peer, old(Seen()), bytes)
      ensures if status.StatusContent? then n == |bytes| else status.StatusHeader?
    {
      hide PackedAll, Packed, Feed;
      var need := length - read;
      n := if |bytes| < need then |bytes| else need;
      ghost var p := Seen();
      if n > 0 {
        FeedContent(peer, p, bytes[..n]);
        Split(peer, p, bytes, n);
      } else {
        FirstByte(peer, p, bytes);
        FirstByte(peer, Progress(Header([]), p.done + [p.link.part]), bytes);
        assert [] + [bytes[0]] == [bytes[0]];
      }
      Store(recvBuffer, read, bytes[..n]);
      assert recvBuffer[..read + n] == p.link.part + bytes[..n];
      if |bytes| < need {
        read := read + n;
      } else {
        assert recvBuffer[..] == p.link.part + bytes[..n];
        forwarded := forwarded + [recvBuffer[..]];
        length, read, status := 0, 0, StatusHeader;
      }
    }

    /** push_socket_data: a chunk, however it was cut. */
    method PushSocketData(chunk: seq<Byte>)
      requires Valid() && !status.StatusWait? && chunk != []
      modifies this, size, recvBuffer
      ensures Valid() && (fresh(recvBuffer) || recvBuffer == old(recvBuffer)) && size == old(size)
      ensures Seen() == Feed(peer, old(Seen()), chunk) && !status.StatusWait?
      ensures accepted == old(accepted)
    {
      hide PackedAll, Packed, Feed, Seen;
      ghost var p := Seen();
      var at := 0;
      assert chunk[0..] == chunk;
      while at < |chunk|
        invariant Valid() && at <= |chunk| && !status.StatusWait? && accepted == old(accepted)
        invariant (fresh(recvBuffer) || recvBuffer == old(recvBuffer)) && size == old(size)
        invariant Feed(peer, Seen(), chunk[at..]) == Feed(peer, p, chunk)
        decreases |chunk| - at, if status.StatusContent? then 1 else 0
      {
        var rest, n := chunk[at..], |chunk| - at;
        ghost var q := Seen();
        match status {
          case StatusHandshake =>
            TakeId(rest);
            n := 1;
          case StatusHeader =>
            n := TakeHeader(rest);
          case StatusContent =>
            n := TakeContent(rest);
          case _ =>
            IsDown();
            StaysDown(peer, q, rest);
            NothingLeft(peer, q);
        }
        assert rest[n..] == chunk[at + n..];
        at := at + n;
      }
      NothingLeft(peer, Seen());
      assert chunk[at..] == [];
    }

    lemma IsDown()
      requires Valid() && status.StatusDown?
      ensures Seen().link.Down?
    {
    }
  }

  lemma NothingLeft(peer: Byte, p: Progress)
    ensures Feed(peer, p, []) == p
  {
  }

  lemma Split(peer: Byte, p: Progress, bytes: seq<Byte>, n: nat)
    requires n <= |bytes|
    ensures Feed(peer, p, bytes) == Feed(peer, Feed(peer, p, bytes[..n]), bytes[n..])
  {
    assert bytes == bytes[..n] + bytes[n..];
    CutAnywhere(peer, p, bytes[..n], bytes[n..]);
  }

  /** memcpy */
  method Store(a: array<Byte>, at: nat, src: seq<Byte>)
    requires at + |src| <= a.Length
    modifies a
    ensures a[..at] == old(a[..at]) && a[at..at + |src|] == src
    ensures a[..at + |src|] == old(a[..at]) + src
    ensures a[at + |src|..] == old(a[at + |src|..])
  {
    for i := 0 to |src|
      invariant a[..at] == old(a[..at]) && a[at..at + i] == src[..i]
      invariant a[at + |src|..] == old(a[at + |src|..])
    {
      a[at + i] := src[i];
    }
    assert a[..at + |src|] == a[..at] + a[at..at + |src|];
  }

  lemma FirstByte(peer: Byte, p: Progress, bytes: seq<Byte>)
    requires bytes != []
    ensures Feed(peer, p, bytes) == Feed(peer, Take(peer, p, bytes[0]), bytes[1..])
  {
    assert bytes == [bytes[0]] + bytes[1..] && [bytes[0]][..0] == [];
    CutAnywhere(peer, p, [bytes[0]], bytes[1..]);
  }

  function Joined(chunks: seq<seq<Byte>>): seq<Byte> {
    if chunks == [] then [] else Joined(chunks[..|chunks| - 1]) + chunks[|chunks| - 1]
  }

  /** From one harbor to the other: however what the one handed to its socket is cut into chunks, the other
      forwards exactly the messages that arrive, whole and in order. */
  method Carry(sender: Slave, receiver: Slave, chunks: seq<seq<Byte>>)
    requires sender.Valid() && sender.connected && Joined(chunks) == sender.out
    requires forall i :: 0 <= i < |chunks| ==> chunks[i] != []
    requires receiver.Valid() && receiver.status.StatusHandshake? && receiver.forwarded == []
    requires receiver.peer == sender.id
    requires sender != receiver && sender.size != receiver.size && sender.size != receiver.recvBuffer
    requires sender.recvBuffer != receiver.size && sender.recvBuffer != receiver.recvBuffer
    modifies receiver, receiver.size, receiver.recvBuffer
    ensures receiver.Valid() && receiver.Seen() == Received(sender.sent)
    ensures |receiver.forwarded| == |Arrives(sender.sent)|
    ensures forall i :: 0 <= i < |receiver.forwarded| ==>
              |receiver.forwarded[i]| >= COOKIE && Opened(receiver.forwarded[i]) == Arrives(sender.sent)[i]
  {
    StreamArrives(sender.id, sender.sent);
    ArrivalsOpened(Arrives(sender.sent));
    hide Feed, Received, PackedAll, Packed, Arrives, Opened, Frame;
    ghost var start, stream, sent := Progress(Handshake, []), sender.out, sender.sent;
    NothingLeft(receiver.peer, start);
    for k := 0 to |chunks|
      invariant receiver.Valid() && !receiver.status.StatusWait?
      invariant fresh(receiver.recvBuffer) || receiver.recvBuffer == old(receiver.recvBuffer)
      invariant receiver.size == old(receiver.size)
      invariant receiver.Seen() == Feed(receiver.peer, start, Joined(chunks[..k]))
    {
      assert chunks[..k + 1][..k] == chunks[..k];
      CutAnywhere(receiver.peer, start, Joined(chunks[..k]), chunks[k]);
      receiver.PushSocketData(chunks[k]);
    }
    assert chunks[..|chunks|] == chunks;
    assert receiver.Seen() == Received(sent);
    SeenFrames(receiver, sent);
  }

  lemma SeenFrames(s: Slave, ms: seq<Message>)
    requires s.Valid() && s.Seen() == Received(ms)
    ensures s.forwarded == Frames(Arrives(ms))
  {
  }

  lemma ArrivalsOpened(ms: seq<Message>)
    ensures |Frames(ms)| == |ms|
    ensures forall i :: 0 <= i < |ms| ==> |Frames(ms)[i]| >= COOKIE && Opened(Frames(ms)[i]) == ms[i]
  {
    hide Opened, Frame;
    forall i | 0 <= i < |ms| ensures |Frames(ms)[i]| >= COOKIE && Opened(Frames(ms)[i]) == ms[i] {
      OpenedFrame(ms[i]);
    }
  }
}
