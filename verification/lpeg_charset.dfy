/** Character sets of LPeg (lptypes.h, lpcset.c): 32-byte bitmaps, their compact form, and the
    membership test the virtual machine runs on the compact form. */
module Charsets {
  type Byte = c: int | 0 <= c < 256

  const CHARSETSIZE: nat := 32

  type Charset = cs: seq<bv8> | |cs| == CHARSETSIZE witness seq(CHARSETSIZE, i => 0)

  /** Bit k of a byte, the test macro `testchar` makes after selecting the byte. */
  predicate Bit(b: bv8, k: int)
    requires 0 <= k < 8
  {
    if k == 0 then b & 1 != 0
    else if k == 1 then b & 2 != 0
    else if k == 2 then b & 4 != 0
    else if k == 3 then b & 8 != 0
    else if k == 4 then b & 16 != 0
    else if k == 5 then b & 32 != 0
    else if k == 6 then b & 64 != 0
    else b & 128 != 0
  }

  function Mask(k: int): (b: bv8)
    requires 0 <= k < 8
    ensures forall j :: 0 <= j < 8 ==> (Bit(b, j) <==> j == k)
  {
    if k == 0 then 1 else if k == 1 then 2 else if k == 2 then 4 else if k == 3 then 8
    else if k == 4 then 16 else if k == 5 then 32 else if k == 6 then 64 else 128
  }

  predicate Has(cs: Charset, c: Byte) {
    Bit(cs[c / 8], c % 8)
  }

  function Fill(b: bv8): Charset {
    seq(CHARSETSIZE, i => b)
  }

  function FullSet(): (cs: Charset)
    ensures forall c: Byte :: Has(cs, c)
  {
    Fill(0xFF)
  }

  function EmptySet(): (cs: Charset)
    ensures forall c: Byte :: !Has(cs, c)
  {
    Fill(0)
  }

  function Singleton(c: Byte): (cs: Charset)
    ensures forall a: Byte :: Has(cs, a) <==> a == c
  {
    var cs := Fill(0)[c / 8 := Mask(c % 8)];
    assert forall a: Byte :: a == c <==> (a / 8 == c / 8 && a % 8 == c % 8);
    cs
  }

  function Union(a: Charset, b: Charset): (cs: Charset)
    ensures forall c: Byte :: Has(cs, c) <==> Has(a, c) || Has(b, c)
  {
    seq(CHARSETSIZE, i requires 0 <= i < CHARSETSIZE => a[i] | b[i])
  }

  function Intersect(a: Charset, b: Charset): (cs: Charset)
    ensures forall c: Byte :: Has(cs, c) <==> Has(a, c) && Has(b, c)
  {
    seq(CHARSETSIZE, i requires 0 <= i < CHARSETSIZE => a[i] & b[i])
  }

  function Complement(a: Charset): (cs: Charset)
    ensures forall c: Byte :: Has(cs, c) <==> !Has(a, c)
  {
    seq(CHARSETSIZE, i requires 0 <= i < CHARSETSIZE => !a[i])
  }

  predicate Disjoint(a: Charset, b: Charset)
    ensures Disjoint(a, b) <==> forall c: Byte :: !(Has(a, c) && Has(b, c))
  {
    DisjointBytes(a, b);
    NoCommonBit(a, b)
  }

  /** cs_disjoint's loop. */
  predicate NoCommonBit(a: Charset, b: Charset) { forall i :: 0 <= i < CHARSETSIZE ==> a[i] & b[i] == 0 }

  lemma DisjointBytes(a: Charset, b: Charset)
    ensures NoCommonBit(a, b) <==> forall c: Byte :: !(Has(a, c) && Has(b, c))
  {
    hide Bit;
    if !NoCommonBit(a, b) {
      var i :| 0 <= i < CHARSETSIZE && a[i] & b[i] != 0;
      var k := CommonBit(a[i], b[i]);
      assert Has(a, 8 * i + k) && Has(b, 8 * i + k);
    } else {
      forall c: Byte ensures !(Has(a, c) && Has(b, c)) { NoSharedBit(a[c / 8], b[c / 8], c % 8); }
    }
  }

  lemma NoSharedBit(a: bv8, b: bv8, k: int)
    requires a & b == 0 && 0 <= k < 8
    ensures !(Bit(a, k) && Bit(b, k))
  {
  }

  lemma CommonBit(a: bv8, b: bv8) returns (k: int)
    requires a & b != 0
    ensures 0 <= k < 8 && Bit(a, k) && Bit(b, k)
  {
    if Bit(a, 0) && Bit(b, 0) { k := 0; }
    else if Bit(a, 1) && Bit(b, 1) { k := 1; }
    else if Bit(a, 2) && Bit(b, 2) { k := 2; }
    else if Bit(a, 3) && Bit(b, 3) { k := 3; }
    else if Bit(a, 4) && Bit(b, 4) { k := 4; }
    else if Bit(a, 5) && Bit(b, 5) { k := 5; }
    else if Bit(a, 6) && Bit(b, 6) { k := 6; }
    else { k := 7; }
  }

  // ----- compact sets -----

  /** A charset given by the bytes of one range (starting at byte `offset`) and one default byte
      outside that range. */
  datatype CharsetInfo = CharsetInfo(cs: seq<bv8>, offset: nat, size: nat, deflt: bv8)
  {
    predicate Valid() {
      |cs| == size && 0 < size && offset + size <= CHARSETSIZE && (deflt == 0 || deflt == 0xFF)
    }

    /** getbytefromcharset */
    function ByteAt(index: nat): bv8
      requires Valid()
    {
      if index < size then cs[index] else deflt
    }

    /** What the compact set denotes, as a full bitmap (the TSet case of tocharset). */
    function Expand(): (r: Charset)
      requires Valid()
    {
      seq(CHARSETSIZE, i requires 0 <= i < CHARSETSIZE =>
        if offset <= i < offset + size then cs[i - offset] else deflt)
    }
  }

  /** The operands of ISet, ITestSet and ISpan: `offset` counts bits, `size` counts instruction slots
      of four bytes, `buff` is the payload. */
  datatype SetOperand = SetOperand(offset: nat, size: nat, deflt: bv8, buff: seq<bv8>)
  {
    predicate Valid() { |buff| == 4 * size }
  }

  /** Slots needed for `l` bytes. */
  function InstSize(l: nat): nat { (l + 3) / 4 }

  /** addcharset */
  function Operand(info: CharsetInfo): (o: SetOperand)
    requires info.Valid()
    ensures o.Valid()
  {
    SetOperand(info.offset * 8, InstSize(info.size), info.deflt,
               seq(4 * InstSize(info.size), i requires 0 <= i < 4 * InstSize(info.size) => info.ByteAt(i)))
  }

  /** charinset: `c` less than the offset wraps around as unsigned and falls out of range. */
  predicate CharInSet(o: SetOperand, c: Byte)
    requires o.Valid()
  {
    if c < o.offset || c - o.offset >= o.size * 4 * 8 then o.deflt != 0
    else Bit(o.buff[(c - o.offset) / 8], (c - o.offset) % 8)
  }

  /** The test the machine makes on the compact operand is membership in the set it was made from. */
  lemma CharInSetCorrect(info: CharsetInfo, c: Byte)
    requires info.Valid()
    ensures CharInSet(Operand(info), c) <==> Has(info.Expand(), c)
  {
    var o := Operand(info);
    if c < o.offset {
      assert c / 8 < info.offset;
    } else if c - o.offset >= o.size * 4 * 8 {
      assert c / 8 >= info.offset + info.size;
    } else {
      assert (c - o.offset) / 8 == c / 8 - info.offset && (c - o.offset) % 8 == c % 8;
    }
  }

  // ----- classifying a set -----

  datatype SetKind = KFail | KAny | KChar(c: Byte) | KSet(info: CharsetInfo)

  /** First index from i on whose byte is not v. */
  function ScanUp(cs: Charset, v: bv8, i: nat): (j: nat)
    requires i <= CHARSETSIZE
    ensures i <= j <= CHARSETSIZE
    ensures forall k :: i <= k < j ==> cs[k] == v
    ensures j < CHARSETSIZE ==> cs[j] != v
    decreases CHARSETSIZE - i
  {
    if i < CHARSETSIZE && cs[i] == v then ScanUp(cs, v, i + 1) else i
  }

  /** Last index from i down whose byte is not v. */
  function ScanDown(cs: Charset, v: bv8, i: nat, low: nat): (j: nat)
    requires low <= i < CHARSETSIZE && cs[low] != v
    ensures low <= j <= i && cs[j] != v
    ensures forall k :: j < k <= i ==> cs[k] == v
    decreases i
  {
    if cs[i] == v then ScanDown(cs, v, i - 1, low) else i
  }

  predicate OneBit(b: bv8) { b & (b - 1) == 0 }

  /** Index of the only bit of b, added to c. */
  function OnlyBit(c: nat, b: bv8): (r: nat)
    requires b != 0 && OneBit(b)
    ensures c <= r < c + 8 && forall k :: 0 <= k < 8 ==> (Bit(b, k) <==> k == r - c)
  {
    var c1, b1 := if b & 0xF0 != 0 then c + 4 else c, if b & 0xF0 != 0 then b >> 4 else b;
    var c2, b2 := if b1 & 0x0C != 0 then c1 + 2 else c1, if b1 & 0x0C != 0 then b1 >> 2 else b1;
    if b2 & 0x02 != 0 then c2 + 1 else c2
  }

  /** A set all of whose ones are the single bit of byte i holds exactly that character. */
  lemma SingletonByte(cs: Charset, i: nat)
    requires i < CHARSETSIZE && cs[i] != 0 && OneBit(cs[i])
    requires forall k :: 0 <= k < CHARSETSIZE && k != i ==> cs[k] == 0
    ensures forall a: Byte :: Has(cs, a) <==> a == OnlyBit(8 * i, cs[i])
  {
    forall a: Byte ensures Has(cs, a) <==> a == OnlyBit(8 * i, cs[i]) {
      if a / 8 != i { assert cs[a / 8] == 0; }
    }
  }

  /** Narrowest compact form: the range of ones or the range of zeros, whichever is shorter. */
  function Narrow(cs: Charset, low1: nat, high1: nat, low0: nat, high0: nat): (info: CharsetInfo)
    requires low1 <= high1 < CHARSETSIZE && low0 <= high0 < CHARSETSIZE
    requires forall k :: 0 <= k < CHARSETSIZE && !(low1 <= k <= high1) ==> cs[k] == 0
    requires forall k :: 0 <= k < CHARSETSIZE && !(low0 <= k <= high0) ==> cs[k] == 0xFF
    ensures info.Valid() && info.Expand() == cs
  {
    if high1 - low1 <= high0 - low0 then
      CharsetInfo(cs[low1..high1 + 1], low1, high1 - low1 + 1, 0)
    else
      CharsetInfo(cs[low0..high0 + 1], low0, high0 - low0 + 1, 0xFF)
  }

  /** charsettype: empty, full, singleton, or a compact set. */
  function CharsetType(cs: Charset): (k: SetKind)
    ensures k.KSet? ==> k.info.Valid() && k.info.Expand() == cs
  {
    var low1 := ScanUp(cs, 0, 0);
    if low1 == CHARSETSIZE then KFail
    else
      var high1 := ScanDown(cs, 0, CHARSETSIZE - 1, low1);
      if low1 == high1 && OneBit(cs[low1]) then KChar(OnlyBit(low1 * 8, cs[low1]))
      else
        var low0 := ScanUp(cs, 0xFF, 0);
        if low0 == CHARSETSIZE then KAny
        else KSet(Narrow(cs, low1, high1, low0, ScanDown(cs, 0xFF, CHARSETSIZE - 1, low0)))
  }

  lemma EmptyKind(cs: Charset)
    ensures CharsetType(cs).KFail? <==> forall c: Byte :: !Has(cs, c)
  {
    var low1 := ScanUp(cs, 0, 0);
    if low1 < CHARSETSIZE {
      var c := SomeBit(cs, low1);
      assert Has(cs, c);
    } else {
      forall c: Byte ensures !Has(cs, c) { assert cs[c / 8] == 0; }
    }
  }

  lemma FullKind(cs: Charset)
    ensures CharsetType(cs).KAny? <==> forall c: Byte :: Has(cs, c)
  {
    var low0 := ScanUp(cs, 0xFF, 0);
    if low0 < CHARSETSIZE {
      var c := SomeClearBit(cs, low0);
      assert !Has(cs, c);
    } else {
      assert cs[0] == 0xFF && cs[1] == 0xFF;
      forall c: Byte ensures Has(cs, c) { assert cs[c / 8] == 0xFF; }
    }
  }

  lemma SingletonKind(cs: Charset)
    requires CharsetType(cs).KChar?
    ensures forall c: Byte :: Has(cs, c) <==> c == CharsetType(cs).c
  {
    SingletonByte(cs, ScanUp(cs, 0, 0));
  }

  /** The kind says exactly what the set holds. */
  lemma CharsetTypeCorrect(cs: Charset)
    ensures CharsetType(cs).KFail? <==> forall c: Byte :: !Has(cs, c)
    ensures CharsetType(cs).KAny? <==> forall c: Byte :: Has(cs, c)
    ensures CharsetType(cs).KChar? ==> forall c: Byte :: Has(cs, c) <==> c == CharsetType(cs).c
  {
    EmptyKind(cs);
    FullKind(cs);
    if CharsetType(cs).KChar? { SingletonKind(cs); }
  }

  ghost function SomeBit(cs: Charset, i: nat): (c: Byte)
    requires i < CHARSETSIZE && cs[i] != 0
    ensures Has(cs, c)
  {
    var b := cs[i];
    var k := if Bit(b, 0) then 0 else if Bit(b, 1) then 1 else if Bit(b, 2) then 2 else if Bit(b, 3) then 3
             else if Bit(b, 4) then 4 else if Bit(b, 5) then 5 else if Bit(b, 6) then 6 else 7;
    8 * i + k
  }

  ghost function SomeClearBit(cs: Charset, i: nat): (c: Byte)
    requires i < CHARSETSIZE && cs[i] != 0xFF
    ensures !Has(cs, c)
  {
    var b := cs[i];
    var k := if !Bit(b, 0) then 0 else if !Bit(b, 1) then 1 else if !Bit(b, 2) then 2 else if !Bit(b, 3) then 3
             else if !Bit(b, 4) then 4 else if !Bit(b, 5) then 5 else if !Bit(b, 6) then 6 else 7;
    8 * i + k
  }

  /** charsettype as the scanning loops of the source. */
  method ClassifySet(cs: Charset) returns (k: SetKind)
    ensures k == CharsetType(cs)
  {
    var low1 := 0;
    while low1 < CHARSETSIZE && cs[low1] == 0
      invariant low1 <= CHARSETSIZE
      invariant ScanUp(cs, 0, low1) == ScanUp(cs, 0, 0)
    {
      low1 := low1 + 1;
    }
    if low1 == CHARSETSIZE { return KFail; }
    var high1 := CHARSETSIZE - 1;
    while cs[high1] == 0
      invariant low1 <= high1 < CHARSETSIZE
      invariant ScanDown(cs, 0, high1, low1) == ScanDown(cs, 0, CHARSETSIZE - 1, low1)
      decreases high1
    {
      high1 := high1 - 1;
    }
    if low1 == high1 && OneBit(cs[low1]) { return KChar(OnlyBit(low1 * 8, cs[low1])); }
    var low0 := 0;
    while low0 < CHARSETSIZE && cs[low0] == 0xFF
      invariant low0 <= CHARSETSIZE
      invariant ScanUp(cs, 0xFF, low0) == ScanUp(cs, 0xFF, 0)
    {
      low0 := low0 + 1;
    }
    if low0 == CHARSETSIZE { return KAny; }
    var high0 := CHARSETSIZE - 1;
    while cs[high0] == 0xFF
      invariant low0 <= high0 < CHARSETSIZE
      invariant ScanDown(cs, 0xFF, high0, low0) == ScanDown(cs, 0xFF, CHARSETSIZE - 1, low0)
      decreases high0
    {
      high0 := high0 - 1;
    }
    return KSet(Narrow(cs, low1, high1, low0, high0));
  }
}
