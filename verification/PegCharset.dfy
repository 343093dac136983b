/**
 Character sets as LPeg stores them (lpcset.c): a 256-bit map, compacted in trees and instructions
 to the byte range that differs from a default value.
 */
module PegCharset {
  import opened Prelude
  import opened PegTree

  const CHARSETSIZE := 32

  type Bits = s: seq<bv8> | |s| == CHARSETSIZE witness seq(CHARSETSIZE, _ => 0)

  predicate TestBit(b: bv8, k: nat)
    requires k < 8
  {
    (b >> k) & 1 == 1
  }

  /** testchar */
  predicate TestChar(buff: seq<bv8>, c: nat)
    requires c / 8 < |buff|
  {
    TestBit(buff[c / 8], c % 8)
  }

  /** What charsettype returns about a regular set; offset and size are in bytes. */
  datatype Info = Info(offset: nat, size: nat, deflt: bv8)

  datatype Kind = EmptySet | SingleChar(c: nat) | AllChars | Regular(info: Info)

  /** Least index from i on whose byte is not v (the length when there is none). */
  function FirstNot(cs: seq<bv8>, v: bv8, i: nat): (r: nat)
    requires i <= |cs|
    ensures i <= r <= |cs|
    ensures r < |cs| ==> cs[r] != v
    ensures forall j :: i <= j < r ==> cs[j] == v
    decreases |cs| - i
  {
    if i < |cs| && cs[i] == v then FirstNot(cs, v, i + 1) else i
  }

  /** Greatest index up to i whose byte is not v (-1 when there is none). */
  function LastNot(cs: seq<bv8>, v: bv8, i: int): (r: int)
    requires -1 <= i < |cs|
    ensures -1 <= r <= i
    ensures r >= 0 ==> cs[r] != v
    ensures forall j :: r < j <= i ==> cs[j] == v
    decreases i + 1
  {
    if i >= 0 && cs[i] == v then LastNot(cs, v, i - 1) else i
  }

  /** The byte range that charsettype keeps, and the default outside of it. */
  function Compact(cs: Bits): Info {
    var low1, high1 := FirstNot(cs, 0, 0), LastNot(cs, 0, CHARSETSIZE - 1);
    var low0, high0 := FirstNot(cs, 0xFF, 0), LastNot(cs, 0xFF, CHARSETSIZE - 1);
    if low1 > high1 then Info(0, 0, 0)
    else if low0 > high0 then Info(0, 0, 0xFF)
    else if high1 - low1 <= high0 - low0 then Info(low1, high1 - low1 + 1, 0)
    else Info(low0, high0 - low0 + 1, 0xFF)
  }

  /** Bytes outside of the kept range are the default. */
  predicate Represents(info: Info, cs: Bits) {
    && info.offset + info.size <= CHARSETSIZE
    && (info.deflt == 0 || info.deflt == 0xFF)
    && forall j :: 0 <= j < CHARSETSIZE && !(info.offset <= j < info.offset + info.size) ==> cs[j] == info.deflt
  }

  /** No range of bytes that represents the set is shorter. */
  lemma CompactShortest(info: Info, cs: Bits)
    requires Represents(info, cs)
    ensures Compact(cs).size <= info.size
  {
    hide FirstNot, LastNot;
    var low1, high1 := FirstNot(cs, 0, 0), LastNot(cs, 0, CHARSETSIZE - 1);
    var low0, high0 := FirstNot(cs, 0xFF, 0), LastNot(cs, 0xFF, CHARSETSIZE - 1);
    if info.deflt == 0 && low1 <= high1 {
      assert cs[low1] != 0 && cs[high1] != 0;
    } else if info.deflt == 0xFF && low0 <= high0 {
      assert cs[low0] != 0xFF && cs[high0] != 0xFF;
    }
  }

  lemma CompactRepresents(cs: Bits)
    ensures Represents(Compact(cs), cs)
  {
  }

  /** onlybit */
  function OnlyBit(c: nat, b: bv8): nat {
    var c1, b1 := if b & 0xF0 != 0 then c + 4 else c, if b & 0xF0 != 0 then b >> 4 else b;
    var c2, b2 := if b1 & 0x0C != 0 then c1 + 2 else c1, if b1 & 0x0C != 0 then b1 >> 2 else b1;
    if b2 & 0x02 != 0 then c2 + 1 else c2
  }

  /** A byte with b & (b-1) == 0 has exactly one bit, and onlybit finds it. */
  lemma OneBit(b: bv8, k: nat)
    requires b != 0 && k < 8
    ensures b & (b - 1) == 0 ==> OnlyBit(0, b) < 8 && (TestBit(b, k) <==> k == OnlyBit(0, b))
  {
    if b & (b - 1) == 0 {
      assert b == 1 || b == 2 || b == 4 || b == 8 || b == 16 || b == 32 || b == 64 || b == 128;
    }
  }

  lemma OnlyBitShift(c: nat, b: bv8)
    ensures OnlyBit(c, b) == c + OnlyBit(0, b)
  {
  }

  /** Conversely, a byte with exactly one bit passes that test. */
  lemma OneBitOnly(b: bv8, n: nat)
    requires n < 8 && TestBit(b, n)
    requires forall k :: 0 <= k < 8 && TestBit(b, k) ==> k == n
    ensures b & (b - 1) == 0
  {
    assert n == 0 || !TestBit(b, 0);
    assert n == 1 || !TestBit(b, 1);
    assert n == 2 || !TestBit(b, 2);
    assert n == 3 || !TestBit(b, 3);
    assert n == 4 || !TestBit(b, 4);
    assert n == 5 || !TestBit(b, 5);
    assert n == 6 || !TestBit(b, 6);
    assert n == 7 || !TestBit(b, 7);
  }

  /** A byte other than 0 has a bit, and one other than 0xFF lacks one. */
  lemma SomeBit(b: bv8) returns (j: nat, k: nat)
    ensures j < 8 && k < 8
    ensures b == 0 <==> !TestBit(b, j)
    ensures b == 0xFF <==> TestBit(b, k)
  {
    j := if TestBit(b, 0) then 0 else if TestBit(b, 1) then 1 else if TestBit(b, 2) then 2 else if TestBit(b, 3) then 3
         else if TestBit(b, 4) then 4 else if TestBit(b, 5) then 5 else if TestBit(b, 6) then 6 else 7;
    k := if !TestBit(b, 0) then 0 else if !TestBit(b, 1) then 1 else if !TestBit(b, 2) then 2
      else if !TestBit(b, 3) then 3
         else if !TestBit(b, 4) then 4 else if !TestBit(b, 5) then 5 else if !TestBit(b, 6) then 6 else 7;
  }

  lemma PlainByte(k: nat)
    requires k < 8
    ensures !TestBit(0, k) && TestBit(0xFF, k)
  {
    assert k == 0 || k == 1 || k == 2 || k == 3 || k == 4 || k == 5 || k == 6 || k == 7;
  }

  predicate NoChar(cs: Bits) {
    forall c :: 0 <= c < 256 ==> !TestChar(cs, c)
  }

  predicate EveryChar(cs: Bits) {
    forall c :: 0 <= c < 256 ==> TestChar(cs, c)
  }

  predicate OnlyChar(cs: Bits, c0: nat) {
    c0 < 256 && forall c :: 0 <= c < 256 ==> (TestChar(cs, c) <==> c == c0)
  }

  /** A byte of the map that is neither 0 nor 0xFF shows in the set. */
  lemma ByteShows(cs: Bits, j: nat)
    requires j < CHARSETSIZE
    ensures cs[j] != 0 ==> exists c :: 0 <= c < 256 && c / 8 == j && TestChar(cs, c)
    ensures cs[j] != 0xFF ==> !EveryChar(cs)
  {
    var a, b := SomeBit(cs[j]);
    assert (8 * j + a) / 8 == j && (8 * j + a) % 8 == a;
    assert (8 * j + b) / 8 == j && (8 * j + b) % 8 == b;
    assert TestChar(cs, 8 * j + a) == TestBit(cs[j], a);
    assert TestChar(cs, 8 * j + b) == TestBit(cs[j], b);
  }

  /** A set whose only byte is at j. */
  lemma SingleByte(cs: Bits, j: nat)
    requires j < CHARSETSIZE && cs[j] != 0
    requires forall i :: 0 <= i < CHARSETSIZE && i != j ==> cs[i] == 0
    ensures cs[j] & (cs[j] - 1) == 0 ==> OnlyChar(cs, OnlyBit(8 * j, cs[j]))
    ensures cs[j] & (cs[j] - 1) != 0 ==> forall c0 :: !OnlyChar(cs, c0)
  {
    var b := cs[j];
    OnlyBitShift(8 * j, b);
    if b & (b - 1) == 0 {
      var c1 := OnlyBit(8 * j, b);
      forall c | 0 <= c < 256
        ensures TestChar(cs, c) <==> c == c1
      {
        PlainByte(c % 8);
        OneBit(b, c % 8);
      }
      OneBit(b, 0);
    } else {
      forall c0 | OnlyChar(cs, c0)
        ensures false
      {
        OnlyOneBit(cs, j, c0);
      }
    }
  }

  lemma OnlyOneBit(cs: Bits, j: nat, c0: nat)
    requires j < CHARSETSIZE && cs[j] != 0 && OnlyChar(cs, c0)
    ensures c0 / 8 == j && cs[j] & (cs[j] - 1) == 0
  {
    ByteShows(cs, j);
    var b := cs[j];
    forall k | 0 <= k < 8 && TestBit(b, k)
      ensures k == c0 % 8
    {
      assert (8 * j + k) / 8 == j && (8 * j + k) % 8 == k;
      assert TestChar(cs, 8 * j + k);
    }
    OneBitOnly(b, c0 % 8);
  }

  /** The first byte of a set that is not 'filler', or CHARSETSIZE. */
  method ScanUp(cs: Bits, filler: bv8) returns (low: nat)
    ensures low == FirstNot(cs, filler, 0) && low <= CHARSETSIZE && (low < CHARSETSIZE ==> cs[low] != filler)
    ensures forall k :: 0 <= k < low ==> cs[k] == filler
  {
    low := 0;
    while low < CHARSETSIZE && cs[low] == filler
      invariant low <= CHARSETSIZE && FirstNot(cs, filler, low) == FirstNot(cs, filler, 0)
      invariant forall k :: 0 <= k < low ==> cs[k] == filler
    {
      low := low + 1;
    }
  }

  /** The last byte that is not 'filler'. */
  method ScanDown(cs: Bits, filler: bv8, low: nat) returns (high: nat)
    requires low < CHARSETSIZE && cs[low] != filler
    ensures low <= high < CHARSETSIZE && high == LastNot(cs, filler, CHARSETSIZE - 1) && cs[high] != filler
    ensures forall k :: high < k < CHARSETSIZE ==> cs[k] == filler
  {
    high := CHARSETSIZE - 1;
    while cs[high] == filler
      invariant low <= high < CHARSETSIZE && LastNot(cs, filler, high) == LastNot(cs, filler, CHARSETSIZE - 1)
      invariant forall k :: high < k < CHARSETSIZE ==> cs[k] == filler
      decreases high
    {
      high := high - 1;
    }
  }

  /** charsettype: classifies a set exactly, and compacts a regular one. */
  method CharsetType(cs: Bits) returns (k: Kind)
    ensures k.EmptySet? <==> NoChar(cs)
    ensures k.AllChars? <==> EveryChar(cs)
    ensures k.SingleChar? ==> OnlyChar(cs, k.c)
    ensures k.Regular? ==> k.info == Compact(cs) && k.info.size > 0 && forall c0 :: !OnlyChar(cs, c0)
  {
    hide TestChar, TestBit, EveryChar, NoChar, OnlyChar, OnlyBit, FirstNot, LastNot;
    var low1 := ScanUp(cs, 0);
    if low1 == CHARSETSIZE {
      AllZero(cs);
      return EmptySet;
    }
    NotEmpty(cs, low1);
    var high1 := ScanDown(cs, 0, low1);
    if low1 == high1 {
      SingleByte(cs, low1);
      var b := cs[low1];
      if b & (b - 1) == 0 {
        var c := OnlyBit(low1 * 8, b);
        NotEvery(cs, c);
        return SingleChar(c);
      }
    } else {
      NotSingle(cs, low1, high1);
    }
    var low0 := ScanUp(cs, 0xFF);
    if low0 == CHARSETSIZE {
      AllOnes(cs);
      return AllChars;
    }
    ByteShows(cs, low0);
    var high0 := ScanDown(cs, 0xFF, low0);
    NotFull(cs, low0);
    if high1 - low1 <= high0 - low0 {
      return Regular(Info(low1, high1 - low1 + 1, 0));
    } else {
      return Regular(Info(low0, high0 - low0 + 1, 0xFF));
    }
  }

  lemma NotFull(cs: Bits, j: nat)
    requires j < CHARSETSIZE && cs[j] != 0xFF
    ensures !EveryChar(cs)
  {
    ByteShows(cs, j);
  }

  lemma AllZero(cs: Bits)
    requires forall j :: 0 <= j < CHARSETSIZE ==> cs[j] == 0
    ensures NoChar(cs) && !EveryChar(cs)
  {
    forall c | 0 <= c < 256
      ensures !TestChar(cs, c)
    {
      PlainByte(c % 8);
    }
    assert !TestChar(cs, 0);
  }

  lemma AllOnes(cs: Bits)
    requires forall j :: 0 <= j < CHARSETSIZE ==> cs[j] == 0xFF
    ensures EveryChar(cs)
  {
    forall c | 0 <= c < 256
      ensures TestChar(cs, c)
    {
      PlainByte(c % 8);
    }
  }

  lemma NotEmpty(cs: Bits, j: nat)
    requires j < CHARSETSIZE && cs[j] != 0
    ensures !NoChar(cs)
  {
    ByteShows(cs, j);
  }

  lemma NotEvery(cs: Bits, c0: nat)
    requires OnlyChar(cs, c0)
    ensures !EveryChar(cs)
  {
    assert !TestChar(cs, if c0 == 0 then 1 else 0);
  }

  lemma NotSingle(cs: Bits, j: nat, k: nat)
    requires j < k < CHARSETSIZE && cs[j] != 0 && cs[k] != 0
    ensures forall c0 :: !OnlyChar(cs, c0)
  {
    forall c0 | OnlyChar(cs, c0)
      ensures false
    {
      OnlyOneBit(cs, j, c0);
      OnlyOneBit(cs, k, c0);
    }
  }

  // ----- the compact form in an instruction -----

  /** A charset as an instruction carries it: offset in bits, size in instruction words. */
  datatype SetInstr = SetInstr(offset: nat, size: nat, deflt: bv8, buff: seq<bv8>)

  /** instsize: instruction words for n bytes. */
  function InstSize(n: nat): nat {
    (n + 3) / 4
  }

  /** getbytefromcharset */
  function GetByte(cs: Bits, info: Info, i: nat): bv8
    requires info.offset + info.size <= CHARSETSIZE
  {
    if i < info.size then cs[info.offset + i] else info.deflt
  }

  /** The instruction form of a set. */
  function Encode(cs: Bits, info: Info): (r: SetInstr)
    requires info.offset + info.size <= CHARSETSIZE
    ensures |r.buff| == r.size * 4
  {
    SetInstr(info.offset * 8, InstSize(info.size), info.deflt,
      seq(InstSize(info.size) * 4, i requires i >= 0 => GetByte(cs, info, i)))
  }

  /** addcharset */
  method AddCharset(cs: Bits, info: Info) returns (r: SetInstr)
    requires Represents(info, cs)
    ensures r == Encode(cs, info)
    ensures forall c :: 0 <= c < 256 ==> (CharInSet(r, c) <==> TestChar(cs, c))
  {
    var isize := InstSize(info.size);
    var buff: seq<bv8> := [];
    for i := 0 to isize * 4
      invariant |buff| == i && forall j :: 0 <= j < i ==> buff[j] == GetByte(cs, info, j)
    {
      buff := buff + [GetByte(cs, info, i)];
    }
    r := SetInstr(info.offset * 8, isize, info.deflt, buff);
    assert r.buff == Encode(cs, info).buff;
    forall c | 0 <= c < 256
      ensures CharInSet(r, c) <==> TestChar(cs, c)
    {
      CharInSetSound(cs, info, c);
    }
  }

  /** charinset: the subtraction wraps around as a 32-bit unsigned integer. */
  predicate CharInSet(i: SetInstr, c: nat)
    requires |i.buff| == i.size * 4
  {
    var d := (c - i.offset) % 0x1_0000_0000;
    if d >= i.size * 4 * 8 then i.deflt != 0 else TestChar(i.buff, d)
  }

  /** Membership in the instruction is membership in the original 256-bit set. */
  lemma CharInSetSound(cs: Bits, info: Info, c: nat)
    requires Represents(info, cs) && c < 256
    ensures CharInSet(Encode(cs, info), c) <==> TestChar(cs, c)
  {
    hide TestBit;
    var r := Encode(cs, info);
    PlainByte(c % 8);
    var j := c / 8;
    if c < r.offset {
      assert (c - r.offset) % 0x1_0000_0000 == c - r.offset + 0x1_0000_0000;
      assert j < info.offset;
    } else {
      var d := c - r.offset;
      assert d % 0x1_0000_0000 == d;
      assert d / 8 == j - info.offset && d % 8 == c % 8;
    }
  }

  // ----- the compact form in a tree -----

  /** newcharset (the bitmap kept in a TSet node). */
  function TreeBuffer(cs: Bits, info: Info): seq<bv8>
    requires Represents(info, cs)
  {
    cs[info.offset..info.offset + info.size]
  }

  /** tocharset on a TSet node gives back the set that newcharset compacted. */
  method ToBits(info: Info, buffer: seq<bv8>, ghost cs: Bits) returns (r: Bits)
    requires Represents(info, cs) && buffer == TreeBuffer(cs, info)
    ensures r == cs
  {
    r := seq(CHARSETSIZE, _ => info.deflt);
    for i := 0 to info.size
      invariant forall j :: 0 <= j < CHARSETSIZE ==>
        r[j] == if info.offset <= j < info.offset + i then cs[j] else info.deflt
    {
      r := r[info.offset + i := buffer[i]];
    }
  }

  // ----- sets of bytes as bit maps -----

  function BitIf(b: bool, v: bv8): bv8 {
    if b then v else 0
  }

  /** Byte j of the bit map of a set. */
  function ByteOf(cs: Charset, j: nat): bv8
    requires j < CHARSETSIZE
  {
    BitIf(8 * j in cs, 1) | BitIf(8 * j + 1 in cs, 2) | BitIf(8 * j + 2 in cs, 4) | BitIf(8 * j + 3 in cs, 8) |
    BitIf(8 * j + 4 in cs, 16) | BitIf(8 * j + 5 in cs, 32) | BitIf(8 * j + 6 in cs, 64) | BitIf(8 * j + 7 in cs, 128)
  }

  function BitsOf(cs: Charset): Bits {
    seq(CHARSETSIZE, j requires 0 <= j < CHARSETSIZE => ByteOf(cs, j))
  }

  lemma BitsOfSound(cs: Charset, c: Byte)
    ensures TestChar(BitsOf(cs), c) <==> c in cs
  {
    var j, k := c / 8, c % 8;
    assert BitsOf(cs)[j] == ByteOf(cs, j);
    assert k == 0 || k == 1 || k == 2 || k == 3 || k == 4 || k == 5 || k == 6 || k == 7;
  }

  /** Instruction words that the bitmap of a set takes. */
  function SetSlots(cs: Charset): nat {
    InstSize(Compact(BitsOf(cs)).size)
  }

  /** The instruction form in which the generator stores a set of bytes. */
  function InstrForm(cs: Charset): (r: SetInstr)
    ensures |r.buff| == r.size * 4
  {
    CompactRepresents(BitsOf(cs));
    Encode(BitsOf(cs), Compact(BitsOf(cs)))
  }

  /** The instruction form of a set of bytes answers membership in the set. */
  lemma InstrFormSound(cs: Charset, c: Byte)
    ensures CharInSet(InstrForm(cs), c) <==> c in cs
  {
    CompactRepresents(BitsOf(cs));
    CharInSetSound(BitsOf(cs), Compact(BitsOf(cs)), c);
    BitsOfSound(cs, c);
  }

  /** cs_equal compares instruction forms; that decides equality of the sets. */
  lemma CsEqualSound(a: Charset, b: Charset)
    ensures InstrForm(a) == InstrForm(b) <==> a == b
  {
    hide InstrForm; hide CharInSet;
    if InstrForm(a) == InstrForm(b) {
      forall c: Byte
        ensures c in a <==> c in b
      {
        InstrFormSound(a, c);
        InstrFormSound(b, c);
      }
    }
  }
}
