/** DES as lua-crypt.c computes it: the permutations and rounds on 32-bit words, for any S-boxes and any key
    schedule, and the text functions with their two paddings. */
module Des {
  import opened Wrappers

  type Word = bv32
  type Byte = bv8

  datatype Pair = Pair(x: Word, y: Word)

  // ----- permutations -----

  // Each step of DES_IP exchanges some bits of two words, and is its own inverse; so is each step of DES_FP.

  function Differ4(x: Word, y: Word): Word { ((x >> 4) ^ y) & 0x0F0F0F0F }
  function X4(x: Word, y: Word): Word { x ^ (Differ4(x, y) << 4) }
  function Y4(x: Word, y: Word): Word { y ^ Differ4(x, y) }
  function Swap4(p: Pair): Pair { Pair(X4(p.x, p.y), Y4(p.x, p.y)) }

  lemma Undo4(x: Word, y: Word)
    ensures X4(X4(x, y), Y4(x, y)) == x && Y4(X4(x, y), Y4(x, y)) == y
  {
  }

  function Differ16(x: Word, y: Word): Word { ((x >> 16) ^ y) & 0x0000FFFF }
  function X16(x: Word, y: Word): Word { x ^ (Differ16(x, y) << 16) }
  function Y16(x: Word, y: Word): Word { y ^ Differ16(x, y) }
  function Swap16(p: Pair): Pair { Pair(X16(p.x, p.y), Y16(p.x, p.y)) }

  lemma Undo16(x: Word, y: Word)
    ensures X16(X16(x, y), Y16(x, y)) == x && Y16(X16(x, y), Y16(x, y)) == y
  {
  }

  function Differ2(x: Word, y: Word): Word { ((x >> 2) ^ y) & 0x33333333 }
  function X2(x: Word, y: Word): Word { x ^ (Differ2(x, y) << 2) }
  function Y2(x: Word, y: Word): Word { y ^ Differ2(x, y) }
  function Swap2(p: Pair): Pair { Pair(X2(p.x, p.y), Y2(p.x, p.y)) }

  lemma Undo2(x: Word, y: Word)
    ensures X2(X2(x, y), Y2(x, y)) == x && Y2(X2(x, y), Y2(x, y)) == y
  {
  }

  function Differ8(x: Word, y: Word): Word { ((x >> 8) ^ y) & 0x00FF00FF }
  function X8(x: Word, y: Word): Word { x ^ (Differ8(x, y) << 8) }
  function Y8(x: Word, y: Word): Word { y ^ Differ8(x, y) }
  function Swap8(p: Pair): Pair { Pair(X8(p.x, p.y), Y8(p.x, p.y)) }

  lemma Undo8(x: Word, y: Word)
    ensures X8(X8(x, y), Y8(x, y)) == x && Y8(X8(x, y), Y8(x, y)) == y
  {
  }

  function XOdd(x: Word, y: Word): Word { x ^ ((x ^ y) & 0xAAAAAAAA) }
  function YOdd(x: Word, y: Word): Word { y ^ ((x ^ y) & 0xAAAAAAAA) }
  function SwapOdd(p: Pair): Pair { Pair(XOdd(p.x, p.y), YOdd(p.x, p.y)) }

  lemma UndoOdd(x: Word, y: Word)
    ensures XOdd(XOdd(x, y), YOdd(x, y)) == x && YOdd(XOdd(x, y), YOdd(x, y)) == y
  {
  }

  function Left(x: Word): Word { (x << 1) | (x >> 31) }
  function Right(x: Word): Word { (x << 31) | (x >> 1) }

  lemma UndoTurn(x: Word)
    ensures Right(Left(x)) == x == Left(Right(x))
  {
  }

  function Exchange(p: Pair): Pair { Pair(p.y, p.x) }

  /** DES_IP(X, Y) */
  function IP(p: Pair): Pair {
    var q := Swap8(Swap2(Exchange(Swap16(Swap4(p)))));
    var r := SwapOdd(Pair(q.y, Left(q.x)));
    Pair(Left(r.x), r.y)
  }

  /** DES_FP(X, Y) */
  function FP(p: Pair): Pair {
    var r := SwapOdd(p.(x := Right(p.x)));
    Swap4(Swap16(Exchange(Swap2(Swap8(Pair(Right(r.y), r.x))))))
  }

  lemma UndoSwaps(p: Pair)
    ensures Swap4(Swap4(p)) == p && Swap16(Swap16(p)) == p && Swap2(Swap2(p)) == p && Swap8(Swap8(p)) == p
    ensures SwapOdd(SwapOdd(p)) == p
  {
    hide X4, Y4, X16, Y16, X2, Y2, X8, Y8, XOdd, YOdd;
    Undo4(p.x, p.y);
    Undo16(p.x, p.y);
    Undo2(p.x, p.y);
    Undo8(p.x, p.y);
    UndoOdd(p.x, p.y);
  }

  lemma Permutations(p: Pair)
    ensures FP(IP(p)) == p
    ensures IP(FP(p)) == p
  {
    hide Swap4, Swap16, Swap2, Swap8, SwapOdd, Left, Right;
    var p1 := Swap4(p);
    var p2 := Exchange(Swap16(p1));
    var p3 := Swap2(p2);
    var q := Swap8(p3);
    var r := SwapOdd(Pair(q.y, Left(q.x)));
    UndoSwaps(p);
    UndoSwaps(p1);
    UndoSwaps(p2);
    UndoSwaps(p3);
    UndoSwaps(Pair(q.y, Left(q.x)));
    UndoTurn(q.x);
    UndoTurn(r.x);
    var s0 := p.(x := Right(p.x));
    var s := SwapOdd(s0);
    var s1 := Pair(Right(s.y), s.x);
    var s2 := Swap8(s1);
    var s3 := Exchange(Swap2(s2));
    var s4 := Swap16(s3);
    UndoSwaps(s0);
    UndoSwaps(s1);
    UndoSwaps(s2);
    UndoSwaps(s3);
    UndoSwaps(s4);
    UndoTurn(p.x);
    UndoTurn(s.y);
  }

  // ----- rounds -----

  /** Entry i of table SBn. */
  type Boxes = (nat, Word) -> Word

  /** What DES_ROUND(X, Y) adds to Y. */
  function Mix(sb: Boxes, k0: Word, k1: Word, x: Word): Word {
    var t, u := k0 ^ x, k1 ^ ((x << 28) | (x >> 4));
    sb(8, t & 0x3F) ^ sb(6, (t >> 8) & 0x3F) ^ sb(4, (t >> 16) & 0x3F) ^ sb(2, (t >> 24) & 0x3F)
    ^ sb(7, u & 0x3F) ^ sb(5, (u >> 8) & 0x3F) ^ sb(3, (u >> 16) & 0x3F) ^ sb(1, (u >> 24) & 0x3F)
  }

  function Add(y: Word, t: Word): Word { y ^ t }

  lemma AddTwice(y: Word, t: Word)
    ensures Add(Add(y, t), t) == y
  {
  }

  /** DES_ROUND(Y, X); DES_ROUND(X, Y), as often as there are four subkeys left. */
  function Rounds(sb: Boxes, sk: seq<Word>, p: Pair): Pair
    requires |sk| % 4 == 0
  {
    if sk == [] then p
    else
      var x := Add(p.x, Mix(sb, sk[0], sk[1], p.y));
      Rounds(sb, sk[4..], Pair(x, Add(p.y, Mix(sb, sk[2], sk[3], x))))
  }

  /** ldesdecode's schedule: the pairs of subkeys in reverse order. */
  function Backwards(sk: seq<Word>): (r: seq<Word>)
    requires |sk| % 4 == 0
    ensures |r| == |sk|
  {
    if sk == [] then [] else Backwards(sk[4..]) + [sk[2], sk[3], sk[0], sk[1]]
  }

  lemma {:induction false} BackwardsAt(sk: seq<Word>, n: nat, k: nat)
    requires |sk| == 4 * n && k < 2 * n
    ensures Backwards(sk)[2 * k] == sk[4 * n - 2 - 2 * k] && Backwards(sk)[2 * k + 1] == sk[4 * n - 1 - 2 * k]
  {
    if k < 2 * n - 2 { BackwardsAt(sk[4..], n - 1, k); }
  }

  lemma BackwardsTwice(sk: seq<Word>)
    requires |sk| % 4 == 0
    ensures Backwards(Backwards(sk)) == sk
  {
    hide Backwards;
    var n := |sk| / 4;
    forall i | 0 <= i < |sk| ensures Backwards(Backwards(sk))[i] == sk[i] {
      BackwardsAt(Backwards(sk), n, i / 2);
      BackwardsAt(sk, n, 2 * n - 1 - i / 2);
    }
  }

  lemma {:induction false} RoundsJoin(sb: Boxes, a: seq<Word>, b: seq<Word>, p: Pair)
    requires |a| % 4 == 0 && |b| % 4 == 0
    ensures Rounds(sb, a + b, p) == Rounds(sb, b, Rounds(sb, a, p))
    decreases |a|
  {
    if a == [] {
      assert a + b == b;
    } else {
      assert (a + b)[4..] == a[4..] + b;
      var x := Add(p.x, Mix(sb, a[0], a[1], p.y));
      RoundsJoin(sb, a[4..], b, Pair(x, Add(p.y, Mix(sb, a[2], a[3], x))));
    }
  }

  /** The rounds unwind, whatever the tables and the subkeys are. */
  lemma {:induction false} Unwind(sb: Boxes, sk: seq<Word>, p: Pair)
    requires |sk| % 4 == 0
    ensures Rounds(sb, Backwards(sk), Exchange(Rounds(sb, sk, p))) == Exchange(p)
  {
    if sk != [] {
      hide Mix, Add;
      var x := Add(p.x, Mix(sb, sk[0], sk[1], p.y));
      var q := Pair(x, Add(p.y, Mix(sb, sk[2], sk[3], x)));
      Unwind(sb, sk[4..], q);
      var last := [sk[2], sk[3], sk[0], sk[1]];
      RoundsJoin(sb, Backwards(sk[4..]), last, Exchange(Rounds(sb, sk, p)));
      AddTwice(p.x, Mix(sb, sk[0], sk[1], p.y));
      AddTwice(p.y, Mix(sb, sk[2], sk[3], x));
      assert last[4..] == [];
    }
  }

  // ----- blocks -----

  type Schedule = s: seq<Word> | |s| == 32 witness seq(32, _ => 0)

  function Join(b0: Byte, b1: Byte, b2: Byte, b3: Byte): Word {
    ((b0 as Word) << 24) | ((b1 as Word) << 16) | ((b2 as Word) << 8) | (b3 as Word)
  }

  /** GET_UINT32 */
  function Get(b: seq<Byte>, i: nat): Word
    requires i + 4 <= |b|
  {
    Join(b[i], b[i + 1], b[i + 2], b[i + 3])
  }

  /** PUT_UINT32 */
  function Put(n: Word): (b: seq<Byte>)
    ensures |b| == 4
  {
    [((n >> 24) & 0xFF) as Byte, ((n >> 16) & 0xFF) as Byte, ((n >> 8) & 0xFF) as Byte, (n & 0xFF) as Byte]
  }

  lemma PutJoin(b0: Byte, b1: Byte, b2: Byte, b3: Byte)
    ensures Put(Join(b0, b1, b2, b3)) == [b0, b1, b2, b3]
  {
  }

  lemma JoinPut(n: Word)
    ensures Join(Put(n)[0], Put(n)[1], Put(n)[2], Put(n)[3]) == n
  {
  }

  lemma GetPut(m: Word, n: Word)
    ensures Get(Put(m) + Put(n), 0) == m && Get(Put(m) + Put(n), 4) == n
  {
    hide Join, Put;
    JoinPut(m);
    JoinPut(n);
  }

  lemma PutGet(b: seq<Byte>)
    requires |b| == 8
    ensures Put(Get(b, 0)) + Put(Get(b, 4)) == b
  {
    hide Join, Put;
    PutJoin(b[0], b[1], b[2], b[3]);
    PutJoin(b[4], b[5], b[6], b[7]);
  }

  /** des_crypt */
  function Block(sb: Boxes, sk: Schedule, input: seq<Byte>): (output: seq<Byte>)
    requires |input| == 8
    ensures |output| == 8
  {
    var p := FP(Exchange(Rounds(sb, sk, IP(Pair(Get(input, 0), Get(input, 4))))));
    Put(p.x) + Put(p.y)
  }

  /** With the subkeys backwards des_crypt undoes itself, block by block. */
  lemma BlockTwice(sb: Boxes, sk: Schedule, input: seq<Byte>)
    requires |input| == 8
    ensures Block(sb, Backwards(sk), Block(sb, sk, input)) == input
  {
    hide IP, FP, Rounds, Get, Put;
    var p := Pair(Get(input, 0), Get(input, 4));
    var r := Rounds(sb, sk, IP(p));
    var q := FP(Exchange(r));
    GetPut(q.x, q.y);
    Permutations(Exchange(r));
    Unwind(sb, sk, IP(p));
    Permutations(p);
    PutGet(input);
  }

  // ----- texts -----

  /** des_crypt on each block of a text. */
  function Crypt(sb: Boxes, sk: Schedule, text: seq<Byte>): (r: seq<Byte>)
    requires |text| % 8 == 0
    ensures |r| == |text|
  {
    if text == [] then [] else Block(sb, sk, text[..8]) + Crypt(sb, sk, text[8..])
  }

  lemma {:induction false} CryptTwice(sb: Boxes, sk: Schedule, text: seq<Byte>)
    requires |text| % 8 == 0
    ensures Crypt(sb, Backwards(sk), Crypt(sb, sk, text)) == text
  {
    if text != [] {
      hide Block, Backwards;
      BlockTwice(sb, sk, text[..8]);
      CryptTwice(sb, sk, text[8..]);
      var c := Crypt(sb, sk, text);
      assert c[..8] == Block(sb, sk, text[..8]) && c[8..] == Crypt(sb, sk, text[8..]);
    }
  }

  lemma {:induction false} CryptMore(sb: Boxes, sk: Schedule, a: seq<Byte>, b: seq<Byte>)
    requires |a| % 8 == 0 && |b| == 8
    ensures Crypt(sb, sk, a + b) == Crypt(sb, sk, a) + Block(sb, sk, b)
  {
    hide Block;
    if a == [] {
      assert a + b == b && b[..8] == b && b[8..] == [];
    } else {
      assert (a + b)[..8] == a[..8] && (a + b)[8..] == a[8..] + b;
      CryptMore(sb, sk, a[8..], b);
    }
  }

  // ----- paddings -----

  const ISO7816_4: int := 0
  const PKCS7: int := 1

  predicate ModeOk(mode: int) { mode == ISO7816_4 || mode == PKCS7 }

  /** The padding after `offset` bytes of a block: 0x80 and zeros (ISO/IEC 7816-4), or its own length over and
      over (section 6.3 of RFC 5652). */
  function Padding(mode: int, offset: nat): (r: seq<Byte>)
    requires offset < 8
    ensures |r| == 8 - offset
  {
    if mode == PKCS7 then seq(8 - offset, _ => (8 - offset) as Byte) else [0x80] + seq(7 - offset, _ => 0)
  }

  /** add_padding: the bytes of src and a padding. */
  method AddPadding(buf: array<Byte>, src: seq<Byte>, mode: int)
    requires buf.Length == 8 && |src| < 8 && ModeOk(mode)
    modifies buf
    ensures buf[..] == src + Padding(mode, |src|)
  {
    for i := 0 to |src|
      invariant buf[..i] == src[..i]
    {
      buf[i] := src[i];
    }
    var offset := |src|;
    var x: Byte := if mode == PKCS7 then (8 - offset) as Byte else 0x80;
    var rest: Byte := if mode == PKCS7 then x else 0;
    buf[offset] := x;
    for i := offset + 1 to 8
      invariant buf[..offset] == src
      invariant buf[offset] == x && forall k :: offset < k < i ==> buf[k] == rest
    {
      buf[i] := rest;
    }
  }

  /** The last k bytes are a padding. */
  predicate Padded(b: seq<Byte>, k: nat, mode: int) {
    1 <= k <= 8 && k <= |b| && b[|b| - k..] == Padding(mode, 8 - k)
  }

  /** A padding under ISO/IEC 7816-4, byte by byte. */
  lemma IsoAt(b: seq<Byte>, k: nat)
    requires 1 <= k <= 8 <= |b|
    ensures Padded(b, k, ISO7816_4) <==> b[|b| - k] == 0x80 && forall j :: |b| - k < j < |b| ==> b[j] == 0
  {
    var p, q := b[|b| - k..], Padding(ISO7816_4, 8 - k);
    if p == q {
      assert p[0] == 0x80 && forall j :: |b| - k <= j < |b| ==> b[j] == p[j - (|b| - k)];
    }
    if b[|b| - k] == 0x80 && forall j :: |b| - k < j < |b| ==> b[j] == 0 {
      assert forall j :: 0 <= j < k ==> p[j] == q[j];
    }
  }

  /** padding_remove_iso7816_4 */
  method RemoveIso(b: seq<Byte>) returns (padding: nat)
    requires |b| >= 8
    ensures padding == 0 || Padded(b, padding, ISO7816_4)
    ensures forall k :: Padded(b, k, ISO7816_4) ==> padding == k
  {
    hide Padded;
    PaddedIso(b);
    padding := 1;
    for i := 0 to 8
      invariant padding == i + 1
      invariant forall j :: |b| - i <= j < |b| ==> b[j] == 0
    {
      var last := b[|b| - 1 - i];
      if last == 0 {
        padding := padding + 1;
      } else if last == 0x80 {
        IsoAt(b, padding);
        return;
      } else {
        break;
      }
    }
    return 0;
  }

  lemma PaddedIso(b: seq<Byte>)
    requires |b| >= 8
    ensures forall k :: Padded(b, k, ISO7816_4) ==>
              1 <= k <= 8 && b[|b| - k] == 0x80 && forall j :: |b| - k < j < |b| ==> b[j] == 0
  {
    forall k | Padded(b, k, ISO7816_4)
      ensures 1 <= k <= 8 && b[|b| - k] == 0x80 && forall j :: |b| - k < j < |b| ==> b[j] == 0
    {
      IsoAt(b, k);
    }
  }

  lemma ByteOf(k: nat)
    requires k <= 8
    ensures (k as Byte) as int == k
  {
  }

  /** A padding under PKCS#7, byte by byte. */
  lemma Pkcs7At(b: seq<Byte>, k: nat)
    requires 1 <= k <= 8 <= |b|
    ensures Padded(b, k, PKCS7) <==>
            b[|b| - 1] as int == k && forall j :: |b| - k <= j < |b| ==> b[j] == b[|b| - 1]
  {
    ByteOf(k);
    var p, q := b[|b| - k..], Padding(PKCS7, 8 - k);
    if p == q {
      assert forall j :: |b| - k <= j < |b| ==> b[j] == p[j - (|b| - k)];
    }
    if b[|b| - 1] as int == k && forall j :: |b| - k <= j < |b| ==> b[j] == b[|b| - 1] {
      assert b[|b| - 1] == k as Byte;
      assert forall j :: 0 <= j < k ==> p[j] == q[j];
    }
  }

  /** A text has one padding at most. */
  lemma PaddedOnce(b: seq<Byte>, k: nat, l: nat, mode: int)
    requires ModeOk(mode) && |b| >= 8 && Padded(b, k, mode) && Padded(b, l, mode)
    ensures k == l
  {
    hide Padding;
    if mode == ISO7816_4 {
      IsoAt(b, k);
      IsoAt(b, l);
    } else {
      Pkcs7At(b, k);
      Pkcs7At(b, l);
    }
  }

  /** padding_remove_pkcs7. A padding of more than 8 is refused by the caller; until then the comparison goes on
      before the text, among bytes that make no difference. */
  method RemovePkcs7(b: seq<Byte>, before: nat -> Byte) returns (padding: nat)
    requires |b| >= 8
    ensures !(1 <= padding <= 8) || Padded(b, padding, PKCS7)
    ensures forall k :: Padded(b, k, PKCS7) ==> padding == k
  {
    var last := b[|b| - 1];
    padding := last as int;
    forall k | Padded(b, k, PKCS7) ensures padding == k {
      Pkcs7At(b, k);
    }
    var i := 1;
    while i < padding
      invariant 1 <= i
      invariant forall j :: 0 <= j < |b| && |b| - i <= j ==> b[j] == last
    {
      var byte := if i < |b| then b[|b| - 1 - i] else before(i);
      if byte != last {
        if padding <= 8 {
          Pkcs7At(b, padding);
        }
        return 0;
      }
      i := i + 1;
    }
    if 1 <= padding <= 8 {
      Pkcs7At(b, padding);
    }
  }

  /** remove_padding */
  method RemovePadding(b: seq<Byte>, mode: int, before: nat -> Byte) returns (padding: nat)
    requires |b| >= 8 && ModeOk(mode)
    ensures !(1 <= padding <= 8) || Padded(b, padding, mode)
    ensures forall k :: Padded(b, k, mode) ==> padding == k
  {
    if mode == ISO7816_4 {
      padding := RemoveIso(b);
    } else {
      padding := RemovePkcs7(b, before);
    }
  }

  // ----- encoding and decoding -----

  /** What ldesencode makes of a text: the blocks of the padded text, each encrypted. */
  function Encoded(sb: Boxes, sk: Schedule, text: seq<Byte>, mode: int): seq<Byte> {
    Crypt(sb, sk, text + Padding(mode, |text| % 8))
  }

  lemma CryptNext(sb: Boxes, sk: Schedule, text: seq<Byte>, i: nat)
    requires i % 8 == 0 && i + 8 <= |text|
    ensures Crypt(sb, sk, text[..i + 8]) == Crypt(sb, sk, text[..i]) + Block(sb, sk, text[i..i + 8])
  {
    hide Block, Crypt;
    assert text[..i + 8] == text[..i] + text[i..i + 8];
    CryptMore(sb, sk, text[..i], text[i..i + 8]);
  }

  lemma CryptTail(sb: Boxes, sk: Schedule, text: seq<Byte>, i: nat, mode: int)
    requires i % 8 == 0 && i <= |text| < i + 8
    ensures Encoded(sb, sk, text, mode)
            == Crypt(sb, sk, text[..i]) + Block(sb, sk, text[i..] + Padding(mode, |text| - i))
  {
    hide Block, Crypt, Padding;
    assert |text| % 8 == |text| - i;
    assert text + Padding(mode, |text| - i) == text[..i] + (text[i..] + Padding(mode, |text| - i));
    CryptMore(sb, sk, text[..i], text[i..] + Padding(mode, |text| - i));
  }

  /** ldesencode. None is the error of check_padding_mode. */
  method Encode(sb: Boxes, sk: Schedule, text: seq<Byte>, mode: int) returns (r: Option<seq<Byte>>)
    ensures r == if ModeOk(mode) then Some(Encoded(sb, sk, text, mode)) else None
  {
    hide Block, Encoded, Padding;
    var buffer, i := [], 0;
    while i < |text| - 7
      invariant 0 <= i <= |text| && i % 8 == 0
      invariant buffer == Crypt(sb, sk, text[..i])
    {
      CryptNext(sb, sk, text, i);
      buffer := buffer + Block(sb, sk, text[i..i + 8]);
      i := i + 8;
    }
    if !ModeOk(mode) { return None; }
    var tail := new Byte[8];
    AddPadding(tail, text[i..], mode);
    CryptTail(sb, sk, text, i, mode);
    r := Some(buffer + Block(sb, sk, tail[..]));
  }

  /** Decryption of a whole text. */
  function Plain(sb: Boxes, sk: Schedule, text: seq<Byte>): (r: seq<Byte>)
    requires |text| % 8 == 0
    ensures |r| == |text|
  {
    Crypt(sb, Backwards(sk), text)
  }

  /** ldesdecode gives a text exactly when it is given what ldesencode makes of that text. */
  method Decode(sb: Boxes, sk: Schedule, text: seq<Byte>, mode: int, before: nat -> Byte)
    returns (r: Option<seq<Byte>>)
    ensures r.Some? ==> ModeOk(mode) && text == Encoded(sb, sk, r.value, mode)
    ensures r.None? && ModeOk(mode) ==> forall t :: text != Encoded(sb, sk, t, mode)
  {
    hide Block, Crypt, Padding, Encoded, Padded;
    forall t ensures |Encoded(sb, sk, t, mode)| % 8 == 0 && Encoded(sb, sk, t, mode) != [] {
      EncodedLength(sb, sk, t, mode);
    }
    if |text| % 8 != 0 || |text| == 0 {
      return None;
    }
    var buffer := DecodeBlocks(sb, sk, text);
    if !ModeOk(mode) { return None; }
    var padding := RemovePadding(buffer, mode, before);
    forall t | text == Encoded(sb, sk, t, mode) ensures Padded(buffer, 8 - |t| % 8, mode) {
      EncodedPadded(sb, sk, t, mode);
    }
    if padding <= 0 || padding > 8 {
      return None;
    }
    DecodedText(sb, sk, text, mode, padding);
    r := Some(buffer[..|buffer| - padding]);
  }

  method DecodeBlocks(sb: Boxes, sk: Schedule, text: seq<Byte>) returns (buffer: seq<Byte>)
    requires |text| % 8 == 0
    ensures buffer == Plain(sb, sk, text)
  {
    hide Block;
    var back: Schedule := Backwards(sk);
    var i := 0;
    buffer := [];
    while i < |text|
      invariant 0 <= i <= |text| && i % 8 == 0
      invariant buffer == Crypt(sb, back, text[..i])
    {
      CryptNext(sb, back, text, i);
      buffer := buffer + Block(sb, back, text[i..i + 8]);
      i := i + 8;
    }
    assert text[..i] == text;
  }

  lemma EncodedLength(sb: Boxes, sk: Schedule, t: seq<Byte>, mode: int)
    ensures |Encoded(sb, sk, t, mode)| == |t| + 8 - |t| % 8
  {
  }

  lemma EncodedPadded(sb: Boxes, sk: Schedule, t: seq<Byte>, mode: int)
    requires ModeOk(mode)
    ensures |Encoded(sb, sk, t, mode)| == |t| + 8 - |t| % 8
    ensures var b := Plain(sb, sk, Encoded(sb, sk, t, mode)); b[..|t|] == t && Padded(b, 8 - |t| % 8, mode)
  {
    hide Crypt, Padding, Backwards;
    var whole := t + Padding(mode, |t| % 8);
    CryptTwice(sb, sk, whole);
    assert whole[..|t|] == t && whole[|t|..] == Padding(mode, |t| % 8);
  }

  lemma DecodedText(sb: Boxes, sk: Schedule, text: seq<Byte>, mode: int, k: nat)
    requires |text| % 8 == 0 && Padded(Plain(sb, sk, text), k, mode)
    ensures text == Encoded(sb, sk, Plain(sb, sk, text)[..|text| - k], mode)
  {
    hide Crypt, Padding, Backwards;
    var b := Plain(sb, sk, text);
    assert |b[..|b| - k]| % 8 == 8 - k;
    assert b == b[..|b| - k] + b[|b| - k..];
    BackwardsTwice(sk);
    CryptTwice(sb, Backwards(sk), text);
  }

  /** Decoding undoes encoding, for every text and both paddings. */
  method RoundTrip(sb: Boxes, sk: Schedule, text: seq<Byte>, mode: int, before: nat -> Byte)
    returns (r: Option<seq<Byte>>)
    requires ModeOk(mode)
    ensures r == Some(text)
  {
    hide Crypt, Padding, Encoded, Plain, Padded;
    var c := Encode(sb, sk, text, mode);
    r := Decode(sb, sk, c.value, mode, before);
    OneText(sb, sk, text, r.value, mode);
  }

  /** No two texts are encoded alike. */
  lemma OneText(sb: Boxes, sk: Schedule, t: seq<Byte>, u: seq<Byte>, mode: int)
    requires ModeOk(mode) && Encoded(sb, sk, t, mode) == Encoded(sb, sk, u, mode)
    ensures t == u
  {
    hide Crypt, Padding, Encoded, Plain;
    EncodedPadded(sb, sk, t, mode);
    EncodedPadded(sb, sk, u, mode);
    PaddedOnce(Plain(sb, sk, Encoded(sb, sk, t, mode)), 8 - |t| % 8, 8 - |u| % 8, mode);
  }
}
