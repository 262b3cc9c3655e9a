/** PCI base-register sizing and the configuration-space copy of `bus/pci.c`, with the byte
    order macros of `common/endian.h`. Where a lemma takes the width `w` of a register, required
    to be 32, that keeps the solver from unrolling the definitions. */
module Pci {
  import opened Bits
  import opened Machine

  // ---------- byte order ----------

  /** The long made of four bytes, the most significant first. */
  function MakeLong(a: Byte, b: Byte, c: Byte, d: Byte): Long {
    a * 0x100_0000 + b * 0x1_0000 + c * 0x100 + d
  }

  /** Byte `j` of a long in the big-endian memory of the machine. */
  function ByteOf(v: Long, j: nat): Byte {
    if j == 0 then v / 0x100_0000
    else if j == 1 then v / 0x1_0000 % 0x100
    else if j == 2 then v / 0x100 % 0x100
    else v % 0x100
  }

  /** `LE_LONG`: the low byte moves to the top, and so on. */
  function LeLong(v: Long): Long {
    MakeLong(v % 0x100, v / 0x100 % 0x100, v / 0x1_0000 % 0x100, v / 0x100_0000)
  }

  /** `LE_WORD` */
  function LeWord(v: Word): Word {
    v % 0x100 * 0x100 + v / 0x100
  }

  lemma BytesOfMade(a: Byte, b: Byte, c: Byte, d: Byte)
    ensures ByteOf(MakeLong(a, b, c, d), 0) == a
    ensures ByteOf(MakeLong(a, b, c, d), 1) == b
    ensures ByteOf(MakeLong(a, b, c, d), 2) == c
    ensures ByteOf(MakeLong(a, b, c, d), 3) == d
  {
    var v := MakeLong(a, b, c, d);
    assert v / 0x100 == a * 0x1_0000 + b * 0x100 + c;
    assert v / 0x1_0000 == a * 0x100 + b;
    assert v / 0x100_0000 == a;
  }

  lemma MadeOfBytes(v: Long)
    ensures MakeLong(ByteOf(v, 0), ByteOf(v, 1), ByteOf(v, 2), ByteOf(v, 3)) == v
  {
    assert v / 0x1_0000 == v / 0x100 / 0x100;
    assert v / 0x100_0000 == v / 0x1_0000 / 0x100;
  }

  lemma SwapsMade(a: Byte, b: Byte, c: Byte, d: Byte)
    ensures LeLong(MakeLong(a, b, c, d)) == MakeLong(d, c, b, a)
  {
    BytesOfMade(a, b, c, d);
  }

  lemma SwapsTwice(a: Byte, b: Byte, c: Byte, d: Byte, v: Long)
    requires v == MakeLong(a, b, c, d)
    ensures LeLong(LeLong(v)) == v
  {
    SwapsMade(a, b, c, d);
    SwapsMade(d, c, b, a);
  }

  lemma SwapsWord(hi: Byte, lo: Byte)
    ensures LeWord(hi * 0x100 + lo) == lo * 0x100 + hi
  {}

  /** Both macros undo themselves. */
  lemma LeInvolutions(v: Long, w: Word)
    ensures LeLong(LeLong(v)) == v && LeWord(LeWord(w)) == w
  {
    LongSwapsBack(v);
    WordSwapsBack(w);
  }

  lemma LongSwapsBack(v: Long)
    ensures LeLong(LeLong(v)) == v
  {
    MadeOfBytes(v);
    SwapsTwice(ByteOf(v, 0), ByteOf(v, 1), ByteOf(v, 2), ByteOf(v, 3), v);
  }

  lemma WordSwapsBack(w: Word)
    ensures LeWord(LeWord(w)) == w
  {
    SwapsWord(w / 0x100, w % 0x100);
    SwapsWord(w % 0x100, w / 0x100);
  }

  /** In numbers: memory is big-endian, and the macros reverse the bytes. */
  lemma LongInNumbers(a: Byte, b: Byte, c: Byte, d: Byte, v: Long)
    requires v == 0x100_0000 * (a as nat) + 0x1_0000 * (b as nat) + 0x100 * (c as nat) + d
    ensures ByteOf(v, 0) == a && ByteOf(v, 1) == b && ByteOf(v, 2) == c && ByteOf(v, 3) == d
    ensures LeLong(v) == 0x100_0000 * (d as nat) + 0x1_0000 * (c as nat) + 0x100 * (b as nat) + a
  {
    BytesOfMade(a, b, c, d);
    SwapsMade(a, b, c, d);
  }

  lemma WordInNumbers(hi: Byte, lo: Byte, w: Word)
    requires w == 0x100 * (hi as nat) + lo
    ensures LeWord(w) == 0x100 * (lo as nat) + hi
  {
    SwapsWord(hi, lo);
  }

  lemma Reversed(v: Long)
    ensures forall j | 0 <= j < 4 :: ByteOf(LeLong(v), j) == ByteOf(v, 3 - j)
  {
    BytesOfMade(ByteOf(v, 3), ByteOf(v, 2), ByteOf(v, 1), ByteOf(v, 0));
  }

  /** The byte at an offset of a buffer of longs. */
  function ByteAt(buffer: seq<Long>, o: nat): Byte
    requires o < 4 * |buffer|
  {
    ByteOf(buffer[o / 4], o % 4)
  }

  /** `GET_LE_WORD_S` */
  function GetLeWord(buffer: seq<Long>, o: nat): Word
    requires o + 2 <= 4 * |buffer|
  {
    ByteAt(buffer, o + 1) * 0x100 + ByteAt(buffer, o)
  }

  /** `GET_LE_LONG_S` */
  function GetLeLong(buffer: seq<Long>, o: nat): Long
    requires o + 4 <= 4 * |buffer|
  {
    MakeLong(ByteAt(buffer, o + 3), ByteAt(buffer, o + 2), ByteAt(buffer, o + 1), ByteAt(buffer, o))
  }

  lemma OffsetParts(i: nat, j: nat)
    requires j < 4
    ensures (4 * i + j) / 4 == i && (4 * i + j) % 4 == j
  {}

  lemma ByteAtIs(buffer: seq<Long>, i: nat, j: nat, o: nat)
    requires i < |buffer| && j < 4 && o == 4 * i + j
    ensures ByteAt(buffer, o) == ByteOf(buffer[i], j)
  {
    OffsetParts(i, j);
  }

  lemma LeLongBytes(v: Long)
    ensures LeLong(v) == MakeLong(ByteOf(v, 3), ByteOf(v, 2), ByteOf(v, 1), ByteOf(v, 0))
  {}

  /** The macro reverses the bytes of a long. */
  lemma LongField(buffer: seq<Long>, i: nat, o: nat)
    requires i < |buffer| && o == 4 * i
    ensures GetLeLong(buffer, o) == LeLong(buffer[i])
  {
    ByteAtIs(buffer, i, 0, o);
    ByteAtIs(buffer, i, 1, o + 1);
    ByteAtIs(buffer, i, 2, o + 2);
    ByteAtIs(buffer, i, 3, o + 3);
    LeLongBytes(buffer[i]);
  }

  /** Or of one half of it, from byte `j` on. */
  lemma WordField(buffer: seq<Long>, i: nat, j: nat, o: nat)
    requires i < |buffer| && j < 3 && o == 4 * i + j
    ensures GetLeWord(buffer, o) == ByteOf(buffer[i], j + 1) * 0x100 + ByteOf(buffer[i], j)
  {
    ByteAtIs(buffer, i, j, o);
    ByteAtIs(buffer, i, j + 1, o + 1);
  }

  lemma Halves(v: Long)
    ensures ByteOf(LeLong(v), 1) * 0x100 + ByteOf(LeLong(v), 0) == v % 0x1_0000
    ensures ByteOf(LeLong(v), 3) * 0x100 + ByteOf(LeLong(v), 2) == v / 0x1_0000
  {
    Reversed(v);
    MadeOfBytes(v);
  }

  // ---------- copying the configuration space ----------

  /** The number of longs the device answers before its first failing read. */
  function Answered(device: seq<Option<Long>>): (n: nat)
    ensures n <= |device|
    ensures forall i | 0 <= i < n :: device[i].Some?
    ensures n < |device| ==> device[n].None?
  {
    if device == [] || device[0].None? then 0 else 1 + Answered(device[1..])
  }

  /** Reads the 32 longs of the header, `device[i]` being what a read at `4 * i` returns. */
  method ReadConfig(device: seq<Option<Long>>, buffer: array<Long>) returns (n: nat)
    requires |device| == 32 && buffer.Length == 32
    modifies buffer
    ensures n == 4 * Answered(device)
    ensures Copied(device, buffer[..], n)
    ensures forall i | n / 4 <= i < 32 :: buffer[i] == old(buffer[i])
  {
    var i := 0;
    while i < 32
      invariant 0 <= i <= 32
      invariant forall j | 0 <= j < i :: device[j].Some? && buffer[j] == LeLong(device[j].value)
      invariant forall j | i <= j < 32 :: buffer[j] == old(buffer[j])
    {
      if device[i].None? {
        AnsweredIs(device, i);
        return 4 * i;
      }
      buffer[i] := LeLong(device[i].value);
      i := i + 1;
    }
    AnsweredIs(device, 32);
    return 0x80;
  }

  lemma {:induction false} AnsweredIs(device: seq<Option<Long>>, i: nat)
    requires i <= |device| && forall j | 0 <= j < i :: device[j].Some?
    requires i < |device| ==> device[i].None?
    ensures Answered(device) == i
  {
    if i > 0 {
      AnsweredIs(device[1..], i - 1);
    }
  }

  predicate Copied(device: seq<Option<Long>>, buffer: seq<Long>, n: nat) {
    && |device| == |buffer| && n <= 4 * |buffer|
    && forall i | 0 <= i < |buffer| && 4 * i < n :: device[i].Some? && buffer[i] == LeLong(device[i].value)
  }

  /** Fields taken from the copy with the little-endian macros are the device's registers:
      the long at an offset, and its low and high half. */
  lemma ConfigRoundTrip(device: seq<Option<Long>>, buffer: seq<Long>, n: nat, i: nat)
    requires Copied(device, buffer, n) && 4 * i < n && i < |buffer|
    ensures device[i].Some?
    ensures GetLeLong(buffer, 4 * i) == device[i].value
    ensures GetLeWord(buffer, 4 * i) == device[i].value % 0x1_0000
    ensures GetLeWord(buffer, 4 * i + 2) == device[i].value / 0x1_0000
  {
    LongField(buffer, i, 4 * i);
    WordField(buffer, i, 0, 4 * i);
    WordField(buffer, i, 2, 4 * i + 2);
    Halves(device[i].value);
    LeInvolutions(device[i].value, 0);
  }

  // ---------- sizing a base register ----------

  const ALL_ONES: Long := 0xffff_ffff

  /** The bits from `lo` up to `hi` are all set. */
  ghost predicate AllSet(v: nat, lo: nat, hi: nat) {
    forall n | lo <= n < hi :: Bit(v, n)
  }

  /** What a register with its low `k` bits wired to `fixed` keeps of a word. */
  function Stored(v: nat, k: nat, fixed: nat): (r: nat)
    ensures r % 2 == if k == 0 then v % 2 else fixed % 2
  {
    if k == 0 then v
    else
      LowestDigit(Stored(v / 2, k - 1, fixed / 2), fixed % 2);
      2 * Stored(v / 2, k - 1, fixed / 2) + fixed % 2
  }

  lemma LowestDigit(above: nat, digit: nat)
    requires digit < 2
    ensures (2 * above + digit) % 2 == digit
  {}

  /** Every bit is the one written or the wired one. */
  lemma {:induction false} StoredBits(v: nat, k: nat, fixed: nat, n: nat)
    ensures Bit(Stored(v, k, fixed), n) == if n < k then Bit(fixed, n) else Bit(v, n)
  {
    if k > 0 && n > 0 {
      StoredBits(v / 2, k - 1, fixed / 2, n - 1);
      assert Stored(v, k, fixed) / 2 == Stored(v / 2, k - 1, fixed / 2);
    }
  }

  lemma {:induction false} StoredAgain(v: nat, k: nat, fixed: nat)
    ensures Stored(Stored(v, k, fixed), k, fixed) == Stored(v, k, fixed)
  {
    if k > 0 {
      StoredAgain(v / 2, k - 1, fixed / 2);
    }
  }

  lemma {:induction false} StoredFits(v: nat, k: nat, fixed: nat, w: nat)
    requires v < Power(w) && k <= w
    ensures Stored(v, k, fixed) < Power(w)
  {
    if k > 0 {
      StoredFits(v / 2, k - 1, fixed / 2, w - 1);
    }
  }

  /** A base register: its low `k` bits are wired to `fixed`, the others can be written. */
  class BaseRegister {
    const k: nat
    const fixed: nat
    var value: nat

    /** The register has 32 bits, and holds nothing a write could not leave in it. */
    ghost predicate Valid()
      reads this
    {
      k <= 32 && Stored(value, k, fixed) == value
    }

    method ReadLong() returns (v: nat)
      ensures v == value
    {
      v := value;
    }

    method WriteLong(v: nat)
      requires k <= 32
      modifies this
      ensures Valid() && value == Stored(v, k, fixed)
    {
      value := Stored(v, k, fixed);
      StoredAgain(v, k, fixed);
    }

    /** `pci_read_mem_size`: writes all ones, reads back, restores, looks for a clear bit. The result
        is 0 when the highest of the 32 bits reads as zero, as in a register that is not there, or
        all of them read as one; otherwise `h` is the highest that reads as zero. */
    method ReadMemSize() returns (result: nat, ghost h: nat)
      requires Valid()
      modifies this
      ensures value == old(value)
      ensures result == 0 <==> (k == 32 && !Bit(fixed, 31)) || AllSet(fixed, 0, k)
      ensures 1 <= k <= 31 ==> (result == Power(k) <==> !Bit(fixed, k - 1)) && result <= Power(k)
      ensures result != 0 ==>
                h < 31 && h < k && result == Power(h + 1) && !Bit(fixed, h) && AllSet(fixed, h + 1, k)
    {
      if 1 <= k <= 31 {
        MemSizeExact(k, fixed);
      }
      h := AnswerIs(k, fixed, Stored(ALL_ONES, k, fixed), 32);
      var oldRegister := ReadLong();
      WriteLong(0xffff_ffff);
      var size := ReadLong();
      WriteLong(oldRegister);
      if size == 0 || size == 0xffff_ffff {
        result := 0;
        return;
      }
      var numBits := 31;
      while numBits > 0
        invariant 0 <= numBits <= 31
        invariant HighestZero(size, 31) == HighestZero(size, numBits)
      {
        if !Bit(size, numBits) {
          break;
        }
        numBits := numBits - 1;
      }
      result := ShiftedOne(numBits + 1);
    }
  }

  /** `1 << n` in 32 bits; a one shifted out is lost. */
  function ShiftedOne(n: nat): nat {
    if n < 32 then Power(n) else 0
  }

  /** The highest clear bit from `n` down, not looking at bit 0. */
  function HighestZero(size: nat, n: nat): (r: nat)
    ensures r <= n
    ensures r == 0 || !Bit(size, r)
    ensures forall m | r < m <= n :: Bit(size, m)
  {
    if n == 0 || !Bit(size, n) then n else HighestZero(size, n - 1)
  }

  /** The size the scan gives for a word read back. */
  function MemSize(size: nat): nat {
    if size == 0 || size == ALL_ONES then 0 else ShiftedOne(HighestZero(size, 31) + 1)
  }

  lemma AllOnesIs(w: nat)
    requires w == 32
    ensures ALL_ONES == Ones(w) && ALL_ONES + 1 == Power(w)
  {
    FourOnes(w - 32, 0);
    FourOnes(w - 28, 0xf);
    FourOnes(w - 24, 0xff);
    FourOnes(w - 20, 0xfff);
    FourOnes(w - 16, 0xffff);
    FourOnes(w - 12, 0xf_ffff);
    FourOnes(w - 8, 0xff_ffff);
    FourOnes(w - 4, 0xfff_ffff);
    OnesBelow(w);
  }

  /** The word read back by the probe: ones, above the wired bits. */
  lemma ProbeBits(k: nat, fixed: nat, n: nat, w: nat)
    requires n < w == 32
    ensures Bit(Stored(ALL_ONES, k, fixed), n) == if n < k then Bit(fixed, n) else true
  {
    StoredBits(ALL_ONES, k, fixed, n);
    AllOnesIs(w);
    OnesBit(w, n);
  }

  /** With the highest wired bit clear, the scan stops there. */
  lemma StopsBelow(k: nat, fixed: nat, size: nat, w: nat)
    requires w == 32 && 1 <= k <= 31 && size == Stored(ALL_ONES, k, fixed) && !Bit(fixed, k - 1)
    ensures MemSize(size) == Power(k)
  {
    ProbeBits(k, fixed, k - 1, w);
    ProbeBits(k, fixed, 31, w);
    ZeroBits(31);
    AllOnesIs(w);
    OnesBit(w, k - 1);
    var r := HighestZero(size, 31);
    ProbeBits(k, fixed, r, w);
  }

  /** With every wired bit set nothing looks different from an absent register. */
  lemma AllWired(fixed: nat, size: nat, w: nat)
    requires w == 32 && size == Stored(ALL_ONES, 1, fixed) && Bit(fixed, 0)
    ensures size == ALL_ONES
  {
    AllOnesIs(w);
    StoredFits(ALL_ONES, 1, fixed, w);
    forall n | 0 <= n < w ensures Bit(size, n) == Bit(ALL_ONES, n) {
      ProbeBits(1, fixed, n, w);
      OnesBit(w, n);
    }
    SameBits(size, ALL_ONES, w);
  }

  /** With the highest wired bit set, the scan goes on below it. */
  lemma RunsPast(k: nat, fixed: nat, size: nat, w: nat)
    requires w == 32 && 1 <= k <= 31 && size == Stored(ALL_ONES, k, fixed) && Bit(fixed, k - 1)
    ensures MemSize(size) < Power(k)
  {
    var r := HighestZero(size, 31);
    ProbeBits(k, fixed, r, w);
    ProbeBits(k, fixed, k - 1, w);
    if k == 1 {
      AllWired(fixed, size, w);
    } else {
      PowerGrows(r + 1, k);
    }
  }

  /** For a register that decodes two to the `k` addresses the result is that size exactly
      when the highest wired bit reads as zero; otherwise it is smaller. */
  lemma MemSizeExact(k: nat, fixed: nat)
    requires 1 <= k <= 31
    ensures MemSize(Stored(ALL_ONES, k, fixed)) == Power(k) <==> !Bit(fixed, k - 1)
    ensures MemSize(Stored(ALL_ONES, k, fixed)) <= Power(k)
  {
    if !Bit(fixed, k - 1) {
      StopsBelow(k, fixed, Stored(ALL_ONES, k, fixed), 32);
    } else {
      RunsPast(k, fixed, Stored(ALL_ONES, k, fixed), 32);
    }
  }

  /** What the scan answers in any case: 0 when the highest bit reads as zero, which a register with
      a bit to write has not, or when all bits read as one; otherwise twice the value of the highest
      bit that reads as zero. */
  lemma AnswerIs(k: nat, fixed: nat, size: nat, w: nat) returns (h: nat)
    requires k <= w == 32 && size == Stored(ALL_ONES, k, fixed)
    ensures MemSize(size) == 0 <==> (k == 32 && !Bit(fixed, 31)) || AllSet(fixed, 0, k)
    ensures MemSize(size) != 0 ==>
              h < 31 && h < k && MemSize(size) == Power(h + 1) && !Bit(fixed, h) && AllSet(fixed, h + 1, k)
  {
    forall n | 0 <= n < w ensures Bit(size, n) == if n < k then Bit(fixed, n) else true {
      ProbeBits(k, fixed, n, w);
    }
    AllOnesExactly(k, fixed, size, w);
    ZeroBits(31);
    h := HighestZero(size, 31);
    ScanIs(size, h);
    assert Bit(size, 31) == if 31 < k then Bit(fixed, 31) else true;
    if size != 0 && size != ALL_ONES && h < 31 {
      assert Bit(size, h) == if h < k then Bit(fixed, h) else true;
      if Bit(size, h) {
        forall n | 0 <= n < k ensures Bit(fixed, n) {
          assert Bit(size, n) == Bit(fixed, n);
        }
      }
      forall n | h < n < k ensures Bit(fixed, n) {
        assert Bit(size, n) == Bit(fixed, n);
      }
    }
  }

  /** A register that is not there reads as zero, and has no size. */
  lemma AbsentRegister(w: nat)
    requires w == 32
    ensures Stored(ALL_ONES, w, 0) == 0 && MemSize(Stored(ALL_ONES, w, 0)) == 0
  {
    AllOnesIs(w);
    NothingStored(ALL_ONES, w);
  }

  lemma {:induction false} NothingStored(v: nat, k: nat)
    requires v < Power(k)
    ensures Stored(v, k, 0) == 0
  {
    if k > 0 {
      NothingStored(v / 2, k - 1);
    }
  }

  lemma AllOnesExactly(k: nat, fixed: nat, size: nat, w: nat)
    requires k <= w == 32 && size == Stored(ALL_ONES, k, fixed)
    requires forall n | 0 <= n < w :: Bit(size, n) == if n < k then Bit(fixed, n) else true
    ensures size == ALL_ONES <==> AllSet(fixed, 0, k)
  {
    AllOnesIs(w);
    StoredFits(ALL_ONES, k, fixed, w);
    forall n | 0 <= n < w ensures Bit(ALL_ONES, n) {
      OnesBit(w, n);
    }
    if size == ALL_ONES {
      forall n | 0 <= n < k ensures Bit(fixed, n) {
        assert Bit(size, n) == Bit(fixed, n);
      }
    }
    if AllSet(fixed, 0, k) {
      SameBits(size, ALL_ONES, w);
    }
  }

  lemma ScanIs(size: nat, h: nat)
    requires h == HighestZero(size, 31)
    ensures MemSize(size) == if size == 0 || size == ALL_ONES || h == 31 then 0 else Power(h + 1)
  {
    assert Power(h + 1) == 2 * Power(h);
  }

  /** The registers of the PCI Local Bus Specification, section 6.2.5.1, are sized right: memory
      (bit 0 clear, the prefetchable bit 3 clear if it is the highest wired one), or input and
      output (bit 0 set, bit 1 clear). */
  lemma WiredSizes(k: nat, fixed: nat)
    requires (5 <= k <= 31 && fixed < 16 && fixed % 2 == 0) || (k == 4 && fixed < 8 && fixed % 2 == 0)
             || (2 <= k <= 31 && fixed == 1)
    ensures MemSize(Stored(ALL_ONES, k, fixed)) == Power(k)
  {
    assert Power(3) == 8 && Power(4) == 16 && Power(1) == 2;
    if 5 < k {
      PowerGrows(4, k - 1);
    }
    if 2 < k {
      PowerGrows(1, k - 1);
    }
    BitAbove(fixed, k - 1);
    MemSizeExact(k, fixed);
  }

  /** Prefetchable memory of 16 bytes, whose highest wired bit is set, is sized as 8. */
  lemma PrefetchableSixteen()
    ensures MemSize(Stored(ALL_ONES, 4, 8)) == 8 && Power(4) == 16
  {
    assert Power(3) == 8;
    assert Stored(0x1fff_ffff, 1, 1) == Stored(0x1fff_ffff, 0, 0);
    assert Stored(0x7fff_ffff, 3, 4) == Stored(0x7fff_ffff, 2, 0);
    MemSizeExact(3, 0);
  }

  // ---------- the disabled sizing ----------

  /** The disabled `pci_size`, for a word with a significant bit: the lowest of them, less one. */
  function PciSize(base: nat, mask: nat): int
    requires 0 < And(mask, base) <= ALL_ONES
  {
    var size := And(mask, base);
    And(size, ALL_ONES - (size - 1)) - 1
  }

  /** The value of the lowest bit set. */
  function LowBit(v: nat): nat
    requires v > 0
  {
    if v % 2 == 1 then 1 else 2 * LowBit(v / 2)
  }

  lemma {:induction false} AndComplement(v: nat, w: nat)
    requires v <= Ones(w)
    ensures And(v, Ones(w) - v) == 0
  {
    if v > 0 {
      AndComplement(v / 2, w - 1);
      assert (Ones(w) - v) / 2 == Ones(w - 1) - v / 2;
    }
  }

  lemma {:induction false} LowestBit(v: nat, w: nat)
    requires 0 < v <= Ones(w)
    ensures And(v, Ones(w) - (v - 1)) == LowBit(v)
  {
    if v % 2 == 1 {
      assert (Ones(w) - (v - 1)) / 2 == Ones(w - 1) - v / 2;
      AndComplement(v / 2, w - 1);
    } else {
      assert (Ones(w) - (v - 1)) / 2 == Ones(w - 1) - (v / 2 - 1);
      LowestBit(v / 2, w - 1);
    }
  }

  lemma AndDouble(a: nat, v: nat)
    ensures And(2 * a, v) == 2 * And(a, v / 2)
  {
    if a > 0 {
      assert (2 * a) / 2 == a && (2 * a) % 2 == 0;
    }
  }

  lemma AndFour(a: nat, v: nat)
    ensures And(4 * a, v) == 4 * And(a, v / 4)
  {
    AndTwice(a, 2 * a, v, v / 2);
    assert v / 2 / 2 == v / 4;
  }

  lemma AndTwice(a: nat, b: nat, v: nat, u: nat)
    requires b == 2 * a && u == v / 2
    ensures And(2 * b, v) == 4 * And(a, u / 2)
  {
    AndDouble(b, v);
    AndDouble(a, u);
  }

  lemma Sixteenth(x: nat, y: nat)
    requires x / 4 == y
    ensures x / 16 == y / 4
  {}

  lemma AndSixteen(a: nat, b: nat, v: nat, u: nat)
    requires b == 4 * a && u == v / 4
    ensures And(4 * b, v) == 16 * And(a, v / 16)
  {
    Sixteenth(v, u);
    AndFour(b, v);
    AndFour(a, u);
  }

  /** The mask clears the low four bits. */
  lemma MemoryMask(v: nat, a: nat, w: nat)
    requires a == Ones(w) && v / 16 <= a
    ensures And(16 * a, v) == 16 * (v / 16)
  {
    AndSixteen(a, 4 * a, v, v / 4);
    AndOnes(v / 16, w);
  }

  lemma {:induction false} LowBitOfProbe(k: nat, w: nat)
    requires k < w
    ensures Stored(Ones(w), k, 0) > 0 && LowBit(Stored(Ones(w), k, 0)) == Power(k)
  {
    if k > 0 {
      assert Ones(w) / 2 == Ones(w - 1);
      LowBitOfProbe(k - 1, w - 1);
    }
  }

  lemma StoredQuarter(v: nat, k: nat, fixed: nat)
    requires k >= 2
    ensures Stored(v, k, fixed) / 4 == Stored(v / 4, k - 2, fixed / 4)
    ensures fixed == 0 ==> Stored(v, k, fixed) == 4 * Stored(v / 4, k - 2, 0)
  {
    var half := Stored(v / 2, k - 1, fixed / 2);
    assert Stored(v, k, fixed) == 2 * half + fixed % 2;
    assert half == 2 * Stored(v / 2 / 2, k - 2, fixed / 2 / 2) + fixed / 2 % 2;
  }

  lemma StoredSixteenth(v: nat, k: nat, fixed: nat, u: nat, j: nat)
    requires 4 <= k && u == v / 4 && j == k - 2
    ensures Stored(v, k, fixed) / 16 == Stored(u / 4, j - 2, fixed / 16)
    ensures fixed == 0 ==> Stored(v, k, fixed) == 16 * Stored(u / 4, j - 2, 0)
  {
    StoredQuarter(v, k, fixed);
    StoredQuarter(u, j, fixed / 4);
    Sixteenth(fixed, fixed / 4);
    Sixteenth(Stored(v, k, fixed), Stored(u, j, fixed / 4));
  }

  lemma FlagsAside(v: nat, k: nat, fixed: nat, top: nat)
    requires 4 <= k && fixed < 16 && top == Stored(v / 4 / 4, k - 4, 0)
    ensures Stored(v, k, fixed) / 16 == top
  {
    StoredSixteenth(v, k, fixed, v / 4, k - 2);
  }

  lemma FlagsClear(v: nat, k: nat, top: nat)
    requires 4 <= k && top == Stored(v / 4 / 4, k - 4, 0)
    ensures Stored(v, k, 0) == 16 * top
  {
    StoredSixteenth(v, k, 0, v / 4, k - 2);
  }

  /** The significant bits read back do not depend on the four flags. */
  lemma ProbeAboveFlags(v: nat, k: nat, fixed: nat)
    requires 4 <= k && fixed < 16
    ensures 16 * (Stored(v, k, fixed) / 16) == Stored(v, k, 0)
  {
    FlagsAside(v, k, fixed, Stored(v / 4 / 4, k - 4, 0));
    FlagsClear(v, k, Stored(v / 4 / 4, k - 4, 0));
  }

  lemma SignificantBits(k: nat, fixed: nat, w: nat, ones: nat)
    requires 4 <= k < w + 4 && fixed < 16 && ones == Ones(w + 4)
    ensures And(16 * Ones(w), Stored(ones, k, fixed)) == Stored(ones, k, 0)
  {
    OnesBelow(w + 4);
    StoredFits(ones, k, fixed, w + 4);
    FourOnes(w, Ones(w));
    MemoryMask(Stored(ones, k, fixed), Ones(w), w);
    ProbeAboveFlags(ones, k, fixed);
  }

  lemma ProbeSize(k: nat, fixed: nat, w: nat)
    requires 4 <= k < w + 4 && fixed < 16
    ensures var size := And(16 * Ones(w), Stored(Ones(w + 4), k, fixed));
            0 < size <= Ones(w + 4) && And(size, Ones(w + 4) - (size - 1)) == Power(k)
  {
    SignificantBits(k, fixed, w, Ones(w + 4));
    ProbeLowest(k, w + 4, Stored(Ones(w + 4), k, 0));
  }

  lemma ProbeLowest(k: nat, w: nat, size: nat)
    requires k < w && size == Stored(Ones(w), k, 0)
    ensures 0 < size <= Ones(w) && And(size, Ones(w) - (size - 1)) == Power(k)
  {
    OnesBelow(w);
    StoredFits(Ones(w), k, 0, w);
    LowBitOfProbe(k, w);
    LowestBit(size, w);
  }

  lemma PciSizeIs(base: nat, mask: nat, size: nat, p: int)
    requires size == And(mask, base) && 0 < size <= ALL_ONES && And(size, ALL_ONES - (size - 1)) == p
    ensures PciSize(base, mask) + 1 == p
  {}

  lemma MaskIs(w: nat)
    requires w == 32
    ensures 16 * Ones(w - 4) == 0xffff_fff0
  {
    AllOnesIs(w);
    FourOnes(w - 4, Ones(w - 4));
  }

  /** For memory registers the two ways of sizing agree. */
  lemma SizesAgree(k: nat, fixed: nat, w: nat)
    requires w == 32
    requires (5 <= k <= 31 && fixed < 16 && fixed % 2 == 0) || (k == 4 && fixed < 8 && fixed % 2 == 0)
    ensures 0 < And(0xffff_fff0, Stored(ALL_ONES, k, fixed)) <= ALL_ONES
    ensures PciSize(Stored(ALL_ONES, k, fixed), 0xffff_fff0) + 1 == MemSize(Stored(ALL_ONES, k, fixed))
  {
    AllOnesIs(w);
    MaskIs(w);
    WiredSizes(k, fixed);
    ProbeSize(k, fixed, w - 4);
    PciSizeIs(Stored(ALL_ONES, k, fixed), 0xffff_fff0, And(0xffff_fff0, Stored(ALL_ONES, k, fixed)), Power(k));
  }
}
