/** Scanning and reporting the joypads of `joystick/joypad.c`, up to its main loop. Where a lemma
    takes a number that it then requires to be a constant, that keeps the solver from unrolling
    the definitions. */
module Joypad {
  import opened Bits
  import opened Machine
  import opened Teamtap

  // ---------- scanning ----------

  /** What the two port registers read. */
  datatype Reading = Reading(fires: Word, directions: Word)

  /** The word that selects line `k % 4` of pad `k / 4`. */
  function MaskAt(k: nat): Word
    requires k < 32
  {
    if k < 16 then 0xfff0 + Selector(k) else 0xff0f + 16 * Selector(k - 16)
  }

  function Selector(k: nat): (n: nat)
    requires k < 16
    ensures n < 16
  {
    match k
    case 0 => 0xe case 1 => 0xd case 2 => 0xb case 3 => 7
    case 4 => 0 case 5 => 1 case 6 => 2 case 7 => 3
    case 8 => 4 case 9 => 5 case 10 => 6 case 11 => 8
    case 12 => 9 case 13 => 0xa case 14 => 0xc case 15 => 0xf
  }

  /** Each port is asked for each of its sixteen lines once, the other port being left off. */
  lemma EveryLineOnce(port: nat, k: nat, l: nat)
    requires port < 2 && k < 16 && l < 16
    ensures MaskAt(16 * port + k) == MaskAt(16 * port + l) <==> k == l
    ensures port == 0 ==> MaskAt(k) / 16 == 0xfff
    ensures port == 1 ==> MaskAt(16 + k) % 16 == 0xf && MaskAt(16 + k) / 0x100 == 0xff
  {}

  /** One line of a pad: two fire bits and four direction bits, set when the key is down. */
  datatype Line = Line(fire: nat, directions: nat) {
    predicate Valid() {
      fire < 4 && directions < 16
    }
  }

  /** The keys are active low; the first port is in the low bits, the second in the high. */
  function LineOf(port: nat, r: Reading): (l: Line)
    ensures l.Valid()
  {
    if port == 0 then Line(3 - r.fires % 4, 15 - r.directions / 0x100 % 16)
    else Line(3 - r.fires / 4 % 4, 15 - r.directions / 0x1000)
  }

  /** The lines of pad `pad` when the hardware answers selector words with `io`. */
  function LineAt(io: Word -> Reading, pad: nat, j: nat): (l: Line)
    requires pad < 8 && j < 4
    ensures l.Valid()
  {
    LineOf(pad / 4, io(MaskAt(4 * pad + j)))
  }

  /** `v << 4 * j` and `v << 2 * j` */
  function Nibbles(v: nat, j: nat): nat
    requires j < 4
  {
    match j case 0 => v case 1 => 0x10 * v case 2 => 0x100 * v case 3 => 0x1000 * v
  }

  function Pairs(v: nat, j: nat): nat
    requires j < 4
  {
    match j case 0 => v case 1 => 4 * v case 2 => 16 * v case 3 => 64 * v
  }

  /** The word made of the first `n` lines. */
  function Assembled(io: Word -> Reading, pad: nat, n: nat): nat
    requires pad < 8 && n <= 4
  {
    if n == 0 then 0
    else
      Assembled(io, pad, n - 1)
      + Pairs(LineAt(io, pad, n - 1).fire * 0x1_0000, n - 1)
      + Nibbles(LineAt(io, pad, n - 1).directions, n - 1)
  }

  /** Line `j` taken out of a pad word. */
  function Extracted(word: nat, j: nat): Line
    requires j < 4
  {
    Line(PairAt(word / 0x1_0000, j), NibbleAt(word % 0x1_0000, j))
  }

  function NibbleAt(v: nat, j: nat): nat {
    if j == 0 then v % 16 else NibbleAt(v / 16, j - 1)
  }

  function PairAt(v: nat, j: nat): nat {
    if j == 0 then v % 4 else PairAt(v / 4, j - 1)
  }

  /** Four numbers laid next to each other. */
  function FourNibbles(a: nat, b: nat, c: nat, d: nat): nat {
    a + 16 * (b + 16 * (c + 16 * d))
  }

  function FourPairs(a: nat, b: nat, c: nat, d: nat): nat {
    a + 4 * (b + 4 * (c + 4 * d))
  }

  lemma NibblesApart(a: nat, b: nat, c: nat, d: nat)
    requires a < 16 && b < 16 && c < 16 && d < 16
    ensures var v := FourNibbles(a, b, c, d);
            v < 0x1_0000 && NibbleAt(v, 0) == a && NibbleAt(v, 1) == b && NibbleAt(v, 2) == c && NibbleAt(v, 3) == d
  {
    assert NibbleAt(c + 16 * d, 1) == d && NibbleAt(c + 16 * d, 0) == c;
    var v := b + 16 * (c + 16 * d);
    assert v / 16 == c + 16 * d;
    assert NibbleAt(v, 2) == d && NibbleAt(v, 1) == c && NibbleAt(v, 0) == b;
    assert (a + 16 * v) / 16 == v;
  }

  lemma PairsApart(a: nat, b: nat, c: nat, d: nat)
    requires a < 4 && b < 4 && c < 4 && d < 4
    ensures var v := FourPairs(a, b, c, d);
            v < 0x100 && PairAt(v, 0) == a && PairAt(v, 1) == b && PairAt(v, 2) == c && PairAt(v, 3) == d
  {
    assert PairAt(c + 4 * d, 1) == d && PairAt(c + 4 * d, 0) == c;
    var v := b + 4 * (c + 4 * d);
    assert v / 4 == c + 4 * d;
    assert PairAt(v, 2) == d && PairAt(v, 1) == c && PairAt(v, 0) == b;
    assert (a + 4 * v) / 4 == v;
  }

  /** The directions fill the low sixteen bits, the fires the eight above them. */
  lemma AssembledIs(io: Word -> Reading, pad: nat, n: nat)
    requires pad < 8 && n == 4
    ensures Assembled(io, pad, n)
         == FourNibbles(LineAt(io, pad, 0).directions, LineAt(io, pad, 1).directions,
                        LineAt(io, pad, 2).directions, LineAt(io, pad, 3).directions)
          + FourPairs(LineAt(io, pad, 0).fire, LineAt(io, pad, 1).fire,
                      LineAt(io, pad, 2).fire, LineAt(io, pad, 3).fire) * 0x1_0000
  {
    FirstLines(io, pad, n - 2);
    assert Assembled(io, pad, n - 1) == Assembled(io, pad, n - 2)
      + 16 * (LineAt(io, pad, 2).fire * 0x1_0000) + 0x100 * LineAt(io, pad, 2).directions;
  }

  lemma FirstLines(io: Word -> Reading, pad: nat, n: nat)
    requires pad < 8 && n == 2
    ensures Assembled(io, pad, n)
         == LineAt(io, pad, 0).directions + 16 * LineAt(io, pad, 1).directions
          + (LineAt(io, pad, 0).fire + 4 * LineAt(io, pad, 1).fire) * 0x1_0000
  {
    assert Assembled(io, pad, n - 2) == 0;
    assert Assembled(io, pad, n - 1)
        == LineAt(io, pad, 0).fire * 0x1_0000 + LineAt(io, pad, 0).directions;
  }

  lemma HalvesApart(low: nat, high: nat)
    requires low < 0x1_0000
    ensures (low + high * 0x1_0000) % 0x1_0000 == low && (low + high * 0x1_0000) / 0x1_0000 == high
  {}

  lemma LinesApart(a: Line, b: Line, c: Line, d: Line, low: nat, high: nat)
    requires a.Valid() && b.Valid() && c.Valid() && d.Valid()
    requires low == FourNibbles(a.directions, b.directions, c.directions, d.directions)
    requires high == FourPairs(a.fire, b.fire, c.fire, d.fire)
    ensures var w := low + high * 0x1_0000;
            w < 0x100_0000
            && Extracted(w, 0) == a && Extracted(w, 1) == b && Extracted(w, 2) == c && Extracted(w, 3) == d
  {
    NibblesApart(a.directions, b.directions, c.directions, d.directions);
    PairsApart(a.fire, b.fire, c.fire, d.fire);
    HalvesApart(low, high);
  }

  /** Nothing of the four readings of a pad is lost in the 24 bits of its word `w`, on either
      port: they can be taken out again. */
  lemma PackingLossless(io: Word -> Reading, pad: nat, a: Line, b: Line, c: Line, d: Line, w: nat)
    requires pad < 8 && w == Assembled(io, pad, 4)
    requires a == LineAt(io, pad, 0) && b == LineAt(io, pad, 1) && c == LineAt(io, pad, 2) && d == LineAt(io, pad, 3)
    ensures w < 0x100_0000
    ensures Extracted(w, 0) == a && Extracted(w, 1) == b && Extracted(w, 2) == c && Extracted(w, 3) == d
  {
    AssembledIs(io, pad, 4);
    LinesApart(a, b, c, d, FourNibbles(a.directions, b.directions, c.directions, d.directions),
               FourPairs(a.fire, b.fire, c.fire, d.fire));
  }

  // ---------- what the hardware's answers become ----------

  lemma BitsOfParts(low: nat, high: nat, w: nat, p: nat, v: nat, n: nat)
    requires p == Power(w) && low < p && v == low + high * p
    ensures Bit(v, n) == if n < w then Bit(low, n) else Bit(high, n - w)
  {
    LeftIsProduct(high, w);
    BitsApart(low, high, w, n);
  }

  lemma {:induction false} Complement(x: nat, n: nat, i: nat)
    requires i < n && x <= Ones(n)
    ensures Bit(Ones(n) - x, i) == !Bit(x, i)
  {
    HalfComplement(Ones(n - 1), x);
    if i > 0 {
      Complement(x / 2, n - 1, i - 1);
    }
  }

  lemma HalfComplement(o: nat, x: nat)
    requires x <= 1 + 2 * o
    ensures (1 + 2 * o - x) / 2 == o - x / 2 && (1 + 2 * o - x) % 2 == 1 - x % 2
  {}

  lemma SmallPowers()
    ensures Power(2) == 4 && Power(4) == 16 && Power(8) == 0x100 && Power(12) == 0x1000 && Power(16) == 0x1_0000
    ensures Ones(2) == 3 && Ones(4) == 15
  {
    assert Power(10) == 0x400;
  }

  lemma NibbleBits(a: nat, b: nat, c: nat, d: nat, i: nat)
    requires a < 16 && b < 16 && c < 16 && d < 16 && i < 4
    ensures var v := FourNibbles(a, b, c, d);
            Bit(v, i) == Bit(a, i) && Bit(v, 4 + i) == Bit(b, i)
            && Bit(v, 8 + i) == Bit(c, i) && Bit(v, 12 + i) == Bit(d, i)
  {
    SmallPowers();
    var cd := c + 16 * d;
    var bcd := b + 16 * cd;
    var v := a + 16 * bcd;
    BitsOfParts(c, d, 4, 16, cd, i);
    BitsOfParts(c, d, 4, 16, cd, 4 + i);
    BitsOfParts(b, cd, 4, 16, bcd, i);
    BitsOfParts(b, cd, 4, 16, bcd, 4 + i);
    BitsOfParts(b, cd, 4, 16, bcd, 8 + i);
    BitsOfParts(a, bcd, 4, 16, v, i);
    BitsOfParts(a, bcd, 4, 16, v, 4 + i);
    BitsOfParts(a, bcd, 4, 16, v, 8 + i);
    BitsOfParts(a, bcd, 4, 16, v, 12 + i);
  }

  lemma PairBits(a: nat, b: nat, c: nat, d: nat, i: nat)
    requires a < 4 && b < 4 && c < 4 && d < 4 && i < 2
    ensures var v := FourPairs(a, b, c, d);
            Bit(v, i) == Bit(a, i) && Bit(v, 2 + i) == Bit(b, i)
            && Bit(v, 4 + i) == Bit(c, i) && Bit(v, 6 + i) == Bit(d, i)
  {
    SmallPowers();
    var cd := c + 4 * d;
    var bcd := b + 4 * cd;
    var v := a + 4 * bcd;
    BitsOfParts(c, d, 2, 4, cd, i);
    BitsOfParts(c, d, 2, 4, cd, 2 + i);
    BitsOfParts(b, cd, 2, 4, bcd, i);
    BitsOfParts(b, cd, 2, 4, bcd, 2 + i);
    BitsOfParts(b, cd, 2, 4, bcd, 4 + i);
    BitsOfParts(a, bcd, 2, 4, v, i);
    BitsOfParts(a, bcd, 2, 4, v, 2 + i);
    BitsOfParts(a, bcd, 2, 4, v, 4 + i);
    BitsOfParts(a, bcd, 2, 4, v, 6 + i);
  }

  lemma RestBit(u: nat, w: nat, p: nat, i: nat)
    requires i < w && p == Power(w)
    ensures u % p <= Ones(w) && Bit(Ones(w) - u % p, i) == !Bit(u, i)
  {
    Parts(u, p);
    OnesBelow(w);
    Complement(u % p, w, i);
    BitsOfParts(u % p, u / p, w, p, u, i);
  }

  lemma ShiftedBit(v: nat, n: nat, p: nat, u: nat, i: nat)
    requires p == Power(n) && u == v / p
    ensures Bit(u, i) == Bit(v, n + i)
  {
    Parts(v, p);
    BitsOfParts(v % p, u, n, p, v, n + i);
  }

  lemma FieldBit(v: nat, n: nat, p: nat, w: nat, q: nat, u: nat, i: nat)
    requires p == Power(n) && q == Power(w) && i < w && u == v / p
    ensures u % q <= Ones(w) && Bit(Ones(w) - u % q, i) == !Bit(v, n + i)
  {
    RestBit(u, w, q, i);
    ShiftedBit(v, n, p, u, i);
  }

  /** A key is down when its bit in the reading is clear. */
  lemma DirectionBits(port: nat, r: Reading, i: nat)
    requires port < 2 && i < 4
    ensures Bit(LineOf(port, r).directions, i) == !Bit(r.directions, (if port == 0 then 8 else 12) + i)
  {
    SmallPowers();
    if port == 0 {
      FieldBit(r.directions, 8, 0x100, 4, 16, r.directions / 0x100, i);
    } else {
      FieldBit(r.directions, 12, 0x1000, 4, 16, r.directions / 0x1000, i);
      assert r.directions / 0x1000 % 16 == r.directions / 0x1000;
    }
  }

  lemma FireBits(port: nat, r: Reading, i: nat)
    requires port < 2 && i < 2
    ensures Bit(LineOf(port, r).fire, i) == !Bit(r.fires, (if port == 0 then 0 else 2) + i)
  {
    SmallPowers();
    if port == 0 {
      RestBit(r.fires, 2, 4, i);
    } else {
      FieldBit(r.fires, 2, 4, 2, 4, r.fires / 4, i);
    }
  }

  lemma LineBits(port: nat, r: Reading, i: nat)
    requires port < 2
    ensures i < 4 ==> Bit(LineOf(port, r).directions, i) == !Bit(r.directions, (if port == 0 then 8 else 12) + i)
    ensures i < 2 ==> Bit(LineOf(port, r).fire, i) == !Bit(r.fires, (if port == 0 then 0 else 2) + i)
  {
    if i < 4 {
      DirectionBits(port, r, i);
    }
    if i < 2 {
      FireBits(port, r, i);
    }
  }

  /** The words that select the lines, in numbers. */
  lemma MasksAre(k: nat)
    requires k < 32
    ensures MaskAt(k) == [0xfffe, 0xfffd, 0xfffb, 0xfff7, 0xfff0, 0xfff1, 0xfff2, 0xfff3,
                          0xfff4, 0xfff5, 0xfff6, 0xfff8, 0xfff9, 0xfffa, 0xfffc, 0xffff,
                          0xffef, 0xffdf, 0xffbf, 0xff7f, 0xff0f, 0xff1f, 0xff2f, 0xff3f,
                          0xff4f, 0xff5f, 0xff6f, 0xff8f, 0xff9f, 0xffaf, 0xffcf, 0xffff][k]
  {}

  lemma WordBits(a: Line, b: Line, c: Line, d: Line, w: nat, i: nat)
    requires a.Valid() && b.Valid() && c.Valid() && d.Valid()
    requires w == FourNibbles(a.directions, b.directions, c.directions, d.directions)
                  + FourPairs(a.fire, b.fire, c.fire, d.fire) * 0x1_0000
    ensures i < 4 ==>
              && Bit(w, i) == Bit(a.directions, i) && Bit(w, 4 + i) == Bit(b.directions, i)
              && Bit(w, 8 + i) == Bit(c.directions, i) && Bit(w, 12 + i) == Bit(d.directions, i)
    ensures i < 2 ==>
              && Bit(w, 16 + i) == Bit(a.fire, i) && Bit(w, 18 + i) == Bit(b.fire, i)
              && Bit(w, 20 + i) == Bit(c.fire, i) && Bit(w, 22 + i) == Bit(d.fire, i)
  {
    var low := FourNibbles(a.directions, b.directions, c.directions, d.directions);
    var high := FourPairs(a.fire, b.fire, c.fire, d.fire);
    NibblesApart(a.directions, b.directions, c.directions, d.directions);
    if i < 4 {
      NibbleBits(a.directions, b.directions, c.directions, d.directions, i);
      LowHalf(low, high, w, i);
    }
    if i < 2 {
      PairBits(a.fire, b.fire, c.fire, d.fire, i);
      HighHalf(low, high, w, i);
    }
  }

  lemma LowHalf(low: nat, high: nat, w: nat, i: nat)
    requires low < 0x1_0000 && w == low + high * 0x1_0000 && i < 4
    ensures Bit(w, i) == Bit(low, i) && Bit(w, 4 + i) == Bit(low, 4 + i)
    ensures Bit(w, 8 + i) == Bit(low, 8 + i) && Bit(w, 12 + i) == Bit(low, 12 + i)
  {
    SmallPowers();
    BitsOfParts(low, high, 16, 0x1_0000, w, i);
    BitsOfParts(low, high, 16, 0x1_0000, w, 4 + i);
    BitsOfParts(low, high, 16, 0x1_0000, w, 8 + i);
    BitsOfParts(low, high, 16, 0x1_0000, w, 12 + i);
  }

  lemma HighHalf(low: nat, high: nat, w: nat, i: nat)
    requires low < 0x1_0000 && w == low + high * 0x1_0000
    ensures Bit(w, 16 + i) == Bit(high, i) && Bit(w, 18 + i) == Bit(high, 2 + i)
    ensures Bit(w, 20 + i) == Bit(high, 4 + i) && Bit(w, 22 + i) == Bit(high, 6 + i)
  {
    SmallPowers();
    BitsOfParts(low, high, 16, 0x1_0000, w, 16 + i);
    BitsOfParts(low, high, 16, 0x1_0000, w, 18 + i);
    BitsOfParts(low, high, 16, 0x1_0000, w, 20 + i);
    BitsOfParts(low, high, 16, 0x1_0000, w, 22 + i);
  }

  /** Every bit of a pad's word, from the answers `r` to the four words that select its lines: a
      direction bit is the inverted bit of the direction reading, from bit 8 on for the first port
      and 12 for the second, and a fire bit that of the fire reading, from bit 0 on or 2. */
  lemma PadBits(io: Word -> Reading, pad: nat, j: nat, i: nat, r: Reading)
    requires pad < 8 && j < 4
    requires r == io([0xfffe, 0xfffd, 0xfffb, 0xfff7, 0xfff0, 0xfff1, 0xfff2, 0xfff3,
                      0xfff4, 0xfff5, 0xfff6, 0xfff8, 0xfff9, 0xfffa, 0xfffc, 0xffff,
                      0xffef, 0xffdf, 0xffbf, 0xff7f, 0xff0f, 0xff1f, 0xff2f, 0xff3f,
                      0xff4f, 0xff5f, 0xff6f, 0xff8f, 0xff9f, 0xffaf, 0xffcf, 0xffff][4 * pad + j])
    ensures i < 4 ==> (Bit(Assembled(io, pad, 4), 4 * j + i) <==> !Bit(r.directions, (if pad < 4 then 8 else 12) + i))
    ensures i < 2 ==> (Bit(Assembled(io, pad, 4), 16 + 2 * j + i) <==> !Bit(r.fires, (if pad < 4 then 0 else 2) + i))
  {
    MasksAre(4 * pad + j);
    AssembledIs(io, pad, 4);
    LineBits(pad / 4, r, i);
    LinesOfWord(LineAt(io, pad, 0), LineAt(io, pad, 1), LineAt(io, pad, 2), LineAt(io, pad, 3),
                Assembled(io, pad, 4), j, i, LineAt(io, pad, j));
  }

  lemma LinesOfWord(a: Line, b: Line, c: Line, d: Line, w: nat, j: nat, i: nat, line: Line)
    requires a.Valid() && b.Valid() && c.Valid() && d.Valid() && j < 4
    requires w == FourNibbles(a.directions, b.directions, c.directions, d.directions)
                  + FourPairs(a.fire, b.fire, c.fire, d.fire) * 0x1_0000
    requires line == match j case 0 => a case 1 => b case 2 => c case 3 => d
    ensures i < 4 ==> Bit(w, 4 * j + i) == Bit(line.directions, i)
    ensures i < 2 ==> Bit(w, 16 + 2 * j + i) == Bit(line.fire, i)
  {
    WordBits(a, b, c, d, w, i);
  }

  lemma Parts(v: nat, p: nat)
    requires p > 0
    ensures v % p < p && v == v % p + v / p * p && v / p >= 0
  {
    var q, r := DivisionParts(v, p);
  }

  /** Reads one pad, line by line. */
  method UpdatePad(pads: array<nat>, io: Word -> Reading, i: nat)
    requires pads.Length == 8 && i < 8
    modifies pads
    ensures forall k | 0 <= k < 8 :: pads[k] == if k == i then Assembled(io, i, 4) else old(pads[k])
  {
    pads[i] := 0;
    var j := 0;
    while j < 4
      invariant 0 <= j <= 4
      invariant pads[i] == Assembled(io, i, j)
      invariant forall k | 0 <= k < 8 && k != i :: pads[k] == old(pads[k])
    {
      var line := ReadLine(io, i, j);
      assert Assembled(io, i, j + 1)
          == Assembled(io, i, j) + Pairs(line.fire * 0x1_0000, j) + Nibbles(line.directions, j);
      pads[i] := pads[i] + Pairs(line.fire * 0x1_0000, j) + Nibbles(line.directions, j);
      j := j + 1;
    }
  }

  /** Selects a line and reads it. */
  method ReadLine(io: Word -> Reading, i: nat, j: nat) returns (line: Line)
    requires i < 8 && j < 4
    ensures line == LineAt(io, i, j)
  {
    var r := io(MaskAt(i * 4 + j));
    if i < 4 {
      line := Line(3 - r.fires % 4, 15 - r.directions / 0x100 % 16);
    } else {
      line := Line(3 - r.fires / 4 % 4, 15 - r.directions / 0x1000 % 16);
    }
  }

  method UpdateJoypads(pads: array<nat>, io: Word -> Reading)
    requires pads.Length == 8
    modifies pads
    ensures forall i | 0 <= i < 8 :: pads[i] == Assembled(io, i, 4)
  {
    var i := 0;
    while i < 8
      invariant 0 <= i <= 8
      invariant forall k | 0 <= k < i :: pads[k] == Assembled(io, k, 4)
    {
      UpdatePad(pads, io, i);
      i := i + 1;
    }
  }

  // ---------- reporting ----------

  /** `& global_joypad_mask` */
  function Masked(word: nat): nat {
    And(word, 0xab_ffff)
  }

  /** The mask drops the three undefined buttons and nothing else. */
  lemma MaskedBits(word: nat, k: nat)
    ensures Bit(Masked(word), k) <==> Bit(word, k) && (k < 18 || k == 19 || k == 21 || k == 23)
  {
    AndBits(word, 0xab_ffff, k);
    MaskBits(0xab_ffff, k);
  }

  lemma MaskBits(m: nat, k: nat)
    requires m == 0xab_ffff
    ensures Bit(m, k) <==> (k < 18 || k == 19 || k == 21 || k == 23)
  {
    MaskParts();
    BitsApart(0xffff, 0xab, 16, k);
    if k < 16 {
      OnesBit(16, k);
    } else {
      HighMaskBits(k - 16);
    }
  }

  lemma MaskParts()
    ensures 0xffff == Ones(16) && 0xffff < Power(16) && Left(0xab, 16) == 0xab_0000
  {
    OnesBelow(16);
    assert Ones(8) == 0xff;
    assert Left(0xab, 8) == 0xab00;
  }

  lemma HighMaskBits(n: nat)
    ensures Bit(0xab, n) <==> (n < 2 || n == 3 || n == 5 || n == 7)
  {
    if n < 8 {
      assert Bit(0xab, 0) && Bit(0xab, 1) && !Bit(0xab, 2) && Bit(0xab, 3);
      assert !Bit(0xab, 4) && Bit(0xab, 5) && !Bit(0xab, 6) && Bit(0xab, 7);
    } else {
      assert Power(8) == 256 && Left(0, 8) == 0;
      BitsApart(0xab, 0, 8, n);
      ZeroBits(n - 8);
    }
  }

  /** The masked words of the four pads of a port. */
  function FrameOf(pads: seq<nat>, port: nat): Frame
    requires |pads| == 8 && port < 2
  {
    [pads[4 * port], pads[4 * port + 1], pads[4 * port + 2], pads[4 * port + 3]]
  }

  function GhostsOf(row: Row, j: nat): nat
    requires 1 <= j < 4
  {
    match j case 1 => row.ghosts1 case 2 => row.ghosts2 case 3 => row.ghosts3
  }

  /** `detect_teamtap` */
  method DetectTeamtap(pads: array<nat>, verdicts: array<Verdict>, port: nat)
    requires pads.Length == 8 && verdicts.Length == 2 && port < 2
    modifies verdicts
    ensures verdicts[1 - port] == old(verdicts[1 - port])
    ensures var v := Decide(FrameOf(pads[..], port)); verdicts[port] == if v == Maybe then old(verdicts[port]) else v
  {
    var i := 1;
    ghost var f := FrameOf(pads[..], port);
    while i < 4
      invariant 1 <= i <= 4 && f == FrameOf(pads[..], port)
      invariant forall k | 1 <= k < i :: f[k] == 0 || f[0] != 0
      invariant verdicts[..] == old(verdicts[..])
    {
      if pads[port * 4 + i] != 0 && pads[port * 4] == 0 {
        assert f[i] != 0;
        verdicts[port] := Yes;
        return;
      }
      i := i + 1;
    }
    CheckGhosts(pads, verdicts, port);
  }

  /** Looks for the key pressed in the table, and for its ghosts on the other pads. */
  method CheckGhosts(pads: array<nat>, verdicts: array<Verdict>, port: nat)
    requires pads.Length == 8 && verdicts.Length == 2 && port < 2 && !OtherPad(FrameOf(pads[..], port))
    modifies verdicts
    ensures verdicts[1 - port] == old(verdicts[1 - port])
    ensures var v := Decide(FrameOf(pads[..], port)); verdicts[port] == if v == Maybe then old(verdicts[port]) else v
  {
    var i := 0;
    ghost var f := FrameOf(pads[..], port);
    while i < 20
      invariant 0 <= i <= 20 && verdicts[..] == old(verdicts[..])
      invariant FindRow(f[0], 0) == FindRow(f[0], i)
    {
      if pads[port * 4] == RowAt(i).key {
        var withTeamtap := WithTeamtap(pads, port, RowAt(i));
        verdicts[port] := if withTeamtap then Yes else No;
        break;
      }
      i := i + 1;
    }
  }

  method WithTeamtap(pads: array<nat>, port: nat, row: Row) returns (r: bool)
    requires pads.Length == 8 && port < 2
    ensures r == !Ghosted(FrameOf(pads[..], port), row)
  {
    r := true;
    var j := 1;
    ghost var f := FrameOf(pads[..], port);
    while j < 4
      invariant 1 <= j <= 4 && f == FrameOf(pads[..], port)
      invariant r == !(exists k | 1 <= k < j :: Shows(f[k], GhostsOf(row, k)))
    {
      if And(pads[port * 4 + j], GhostsOf(row, j)) == GhostsOf(row, j) {
        assert Shows(f[j], GhostsOf(row, j));
        r := false;
      }
      j := j + 1;
    }
    assert GhostsOf(row, 1) == row.ghosts1 && GhostsOf(row, 2) == row.ghosts2 && GhostsOf(row, 3) == row.ghosts3;
  }

  datatype Report = Report(pad: nat, word: nat)

  /** The reports of the first `n` pads of a port whose words differ from those remembered. */
  function Differing(f: Frame, memory: Frame, port: nat, n: nat): seq<Report>
    requires n <= 4
  {
    if n == 0 then []
    else if f[n - 1] == memory[n - 1] then Differing(f, memory, port, n - 1)
    else Differing(f, memory, port, n - 1) + [Report(4 * port + n - 1, f[n - 1])]
  }

  /** What the program remembers of the run of a port. */
  function Memory(run: Run): Frame {
    [Remembered(run, 0), Remembered(run, 1), Remembered(run, 2), Remembered(run, 3)]
  }

  /** What the program lists at the last frame of a run. */
  function Listed(run: Run, port: nat): seq<Report>
    requires run.Then?
  {
    Differing(run.last, Memory(run.before), port, if VerdictAfter(run) == No then 1 else 4)
  }

  /** The words a list of reports gives for one pad. */
  function WordsOf(reports: seq<Report>, pad: nat): seq<nat> {
    if reports == [] then []
    else
      var n := |reports| - 1;
      WordsOf(reports[..n], pad) + (if reports[n].pad == pad then [reports[n].word] else [])
  }

  lemma OneMoreReport(reports: seq<Report>, r: Report, pad: nat)
    ensures WordsOf(reports + [r], pad) == WordsOf(reports, pad) + (if r.pad == pad then [r.word] else [])
  {
    assert (reports + [r])[..|reports|] == reports;
  }

  lemma {:induction false} DifferingWords(f: Frame, memory: Frame, port: nat, n: nat, pad: nat)
    requires n <= 4 && pad < 4
    ensures WordsOf(Differing(f, memory, port, n), 4 * port + pad)
         == if pad < n && f[pad] != memory[pad] then [f[pad]] else []
  {
    if n > 0 {
      DifferingWords(f, memory, port, n - 1, pad);
      OneMoreReport(Differing(f, memory, port, n - 1), Report(4 * port + n - 1, f[n - 1]), 4 * port + pad);
    }
  }

  /** For each pad the list holds what the run reports for it at this frame. */
  lemma ListedAreReports(run: Run, port: nat, pad: nat)
    requires run.Then? && pad < 4
    ensures WordsOf(Listed(run, port), 4 * port + pad) == Reported(run, pad)
  {
    DifferingWords(run.last, Memory(run.before), port, if VerdictAfter(run) == No then 1 else 4, pad);
  }

  /** Reports the pads of one port whose word has changed. */
  method DisplayPort(pads: array<nat>, prev: array<nat>, verdict: Verdict, port: nat, ghost run: Run)
    returns (reports: seq<Report>)
    requires pads.Length == 8 && prev.Length == 8 && pads != prev && port < 2
    requires run.Then? && run.last == FrameOf(pads[..], port) && verdict == VerdictAfter(run)
    requires FrameOf(prev[..], port) == Memory(run.before)
    modifies prev
    ensures FrameOf(prev[..], port) == Memory(run) && reports == Listed(run, port)
    ensures FrameOf(prev[..], 1 - port) == old(FrameOf(prev[..], 1 - port))
  {
    var numPads := 4;
    if verdict == No {
      numPads := 1;
    }
    reports := DisplayPads(pads, prev, port, numPads, Memory(run.before));
  }

  method DisplayPads(pads: array<nat>, prev: array<nat>, port: nat, numPads: nat, ghost memory: Frame)
    returns (reports: seq<Report>)
    requires pads.Length == 8 && prev.Length == 8 && pads != prev && port < 2 && numPads <= 4
    requires memory == FrameOf(prev[..], port)
    modifies prev
    ensures reports == Differing(FrameOf(pads[..], port), memory, port, numPads)
    ensures forall i | 0 <= i < 8 ::
      prev[i] == if 4 * port <= i < 4 * port + numPads then pads[i] else old(prev[i])
  {
    var k := 0;
    reports := [];
    ghost var f := FrameOf(pads[..], port);
    while k < numPads
      invariant 0 <= k <= numPads && reports == Differing(f, memory, port, k)
      invariant forall i | 0 <= i < 8 :: prev[i] == if 4 * port <= i < 4 * port + k then pads[i] else old(prev[i])
    {
      var i := 4 * port + k;
      assert f[k] == pads[i] && memory[k] == prev[i];
      if pads[i] != prev[i] {
        reports := reports + [Report(i, pads[i])];
        prev[i] := pads[i];
      }
      k := k + 1;
    }
  }

  method MaskPads(pads: array<nat>)
    requires pads.Length == 8
    modifies pads
    ensures forall i | 0 <= i < 8 :: pads[i] == Masked(old(pads[i]))
  {
    var i := 0;
    while i < 8
      invariant 0 <= i <= 8
      invariant forall k | 0 <= k < 8 :: pads[k] == if k < i then Masked(old(pads[k])) else old(pads[k])
    {
      pads[i] := And(pads[i], 0xab_ffff);
      i := i + 1;
    }
  }

  /** Settles the verdict of a port while it is open. */
  method SettlePort(pads: array<nat>, verdicts: array<Verdict>, port: nat)
    requires pads.Length == 8 && verdicts.Length == 2 && port < 2
    modifies verdicts
    ensures verdicts[port] == Settle(old(verdicts[port]), FrameOf(pads[..], port))
    ensures verdicts[1 - port] == old(verdicts[1 - port])
  {
    if verdicts[port] == Maybe {
      DetectTeamtap(pads, verdicts, port);
    }
  }

  /** What the program keeps of the run of a port. */
  predicate Follows(verdicts: seq<Verdict>, prev: seq<nat>, port: nat, run: Run) {
    && |verdicts| == 2 && |prev| == 8 && port < 2
    && verdicts[port] == VerdictAfter(run) && FrameOf(prev, port) == Memory(run)
  }

  method DisplayPorts(pads: array<nat>, prev: array<nat>, verdict0: Verdict, verdict1: Verdict,
                      ghost run0: Run, ghost run1: Run) returns (reports0: seq<Report>, reports1: seq<Report>)
    requires pads.Length == 8 && prev.Length == 8 && pads != prev
    requires run0.Then? && run0.last == FrameOf(pads[..], 0) && verdict0 == VerdictAfter(run0)
    requires run1.Then? && run1.last == FrameOf(pads[..], 1) && verdict1 == VerdictAfter(run1)
    requires FrameOf(prev[..], 0) == Memory(run0.before) && FrameOf(prev[..], 1) == Memory(run1.before)
    modifies prev
    ensures FrameOf(prev[..], 0) == Memory(run0) && FrameOf(prev[..], 1) == Memory(run1)
    ensures reports0 == Listed(run0, 0) && reports1 == Listed(run1, 1)
  {
    reports0 := DisplayPort(pads, prev, verdict0, 0, run0);
    reports1 := DisplayPort(pads, prev, verdict1, 1, run1);
  }

  /** Masks the words and settles the open verdicts. */
  method MaskAndSettle(pads: array<nat>, verdicts: array<Verdict>)
    requires pads.Length == 8 && verdicts.Length == 2
    modifies pads, verdicts
    ensures forall i | 0 <= i < 8 :: pads[i] == Masked(old(pads[i]))
    ensures verdicts[0] == Settle(old(verdicts[0]), FrameOf(pads[..], 0))
    ensures verdicts[1] == Settle(old(verdicts[1]), FrameOf(pads[..], 1))
  {
    MaskPads(pads);
    SettlePort(pads, verdicts, 0);
    SettlePort(pads, verdicts, 1);
  }

  /** The joypad part of `DisplayLogicalValues`: masks the words, settles the open verdicts,
      reports. The run of each port grows by one frame. */
  method DisplayLogicalValues(pads: array<nat>, prev: array<nat>, verdicts: array<Verdict>,
                              ghost run0: Run, ghost run1: Run)
    returns (reports0: seq<Report>, reports1: seq<Report>, ghost next0: Run, ghost next1: Run)
    requires pads.Length == 8 && prev.Length == 8 && pads != prev && verdicts.Length == 2
    requires Follows(verdicts[..], prev[..], 0, run0) && Follows(verdicts[..], prev[..], 1, run1)
    modifies pads, prev, verdicts
    ensures forall i | 0 <= i < 8 :: pads[i] == Masked(old(pads[i]))
    ensures next0 == Then(run0, FrameOf(pads[..], 0)) && next1 == Then(run1, FrameOf(pads[..], 1))
    ensures Follows(verdicts[..], prev[..], 0, next0) && Follows(verdicts[..], prev[..], 1, next1)
    ensures reports0 == Listed(next0, 0) && reports1 == Listed(next1, 1)
  {
    MaskAndSettle(pads, verdicts);
    next0, next1 := Then(run0, FrameOf(pads[..], 0)), Then(run1, FrameOf(pads[..], 1));
    reports0, reports1 := DisplayPorts(pads, prev, verdicts[0], verdicts[1], next0, next1);
  }

  // ---------- the whole program ----------

  /** Before the first frame both verdicts are open and all words remembered are zero. */
  lemma FollowsStart(verdicts: seq<Verdict>, prev: seq<nat>)
    requires verdicts == [Maybe, Maybe] && prev == [0, 0, 0, 0, 0, 0, 0, 0]
    ensures Follows(verdicts, prev, 0, Start) && Follows(verdicts, prev, 1, Start)
  {}

  /** The eight masked words of a frame. */
  function PadWords(io: Word -> Reading): (words: seq<nat>)
    ensures |words| == 8
  {
    seq(8, i requires 0 <= i < 8 => Masked(Assembled(io, i, 4)))
  }

  /** The runs of both ports, one frame longer. */
  function NextRuns(runs: seq<Run>, words: seq<nat>): (next: seq<Run>)
    requires |runs| == 2 && |words| == 8
    ensures |next| == 2
  {
    [Then(runs[0], FrameOf(words, 0)), Then(runs[1], FrameOf(words, 1))]
  }

  lemma {:induction false} WordsJoin(a: seq<Report>, b: seq<Report>, pad: nat)
    ensures WordsOf(a + b, pad) == WordsOf(a, pad) + WordsOf(b, pad)
    decreases |b|
  {
    if b == [] {
      assert a + b == a;
    } else {
      var n := |b| - 1;
      assert a + b == a + b[..n] + [b[n]];
      WordsJoin(a, b[..n], pad);
      OneMoreReport(a + b[..n], b[n], pad);
    }
  }

  /** What has been listed for a port is, pad by pad, what its run reports. */
  predicate Told(reports: seq<Report>, run: Run, port: nat) {
    forall pad | 0 <= pad < 4 :: WordsOf(reports, 4 * port + pad) == Reports(run, pad)
  }

  lemma ToldMore(reports: seq<Report>, run: Run, port: nat)
    requires run.Then? && Told(reports, run.before, port)
    ensures Told(reports + Listed(run, port), run, port)
  {
    forall pad | 0 <= pad < 4
      ensures WordsOf(reports + Listed(run, port), 4 * port + pad) == Reports(run, pad)
    {
      WordsJoin(reports, Listed(run, port), 4 * port + pad);
      ListedAreReports(run, port, pad);
    }
  }

  method ReadPads(pads: array<nat>, io: Word -> Reading, ghost words: seq<nat>)
    requires pads.Length == 8 && words == PadWords(io)
    modifies pads
    ensures Unmasked(pads[..], words)
  {
    UpdateJoypads(pads, io);
  }

  predicate Unmasked(pads: seq<nat>, words: seq<nat>) {
    |pads| == |words| == 8 && forall i | 0 <= i < 8 :: Masked(pads[i]) == words[i]
  }

  method ShowFrame(pads: array<nat>, prev: array<nat>, verdicts: array<Verdict>,
                   ghost words: seq<nat>, ghost run0: Run, ghost run1: Run)
    returns (reports0: seq<Report>, reports1: seq<Report>, ghost next0: Run, ghost next1: Run)
    requires pads.Length == 8 && prev.Length == 8 && pads != prev && verdicts.Length == 2
    requires Unmasked(pads[..], words)
    requires Follows(verdicts[..], prev[..], 0, run0) && Follows(verdicts[..], prev[..], 1, run1)
    modifies pads, prev, verdicts
    ensures next0 == Then(run0, FrameOf(words, 0)) && next1 == Then(run1, FrameOf(words, 1))
    ensures Follows(verdicts[..], prev[..], 0, next0) && Follows(verdicts[..], prev[..], 1, next1)
    ensures reports0 == Listed(next0, 0) && reports1 == Listed(next1, 1)
  {
    reports0, reports1, next0, next1 := DisplayLogicalValues(pads, prev, verdicts, run0, run1);
    assert pads[..] == words;
  }

  /** The program's variables are those after the run of a port, and the list is what it told. */
  ghost predicate Stands(verdicts: seq<Verdict>, prev: seq<nat>, port: nat, run: Run, list: seq<Report>) {
    Follows(verdicts, prev, port, run) && Told(list, run, port)
  }

  /** Both ports stand so. */
  ghost predicate AllStand(verdicts: seq<Verdict>, prev: seq<nat>, runs: seq<Run>, lists: seq<seq<Report>>) {
    |runs| == |lists| == 2 && forall port | 0 <= port < 2 :: Stands(verdicts, prev, port, runs[port], lists[port])
  }

  /** One turn of the main loop: reads the pads and displays them. */
  method Turn(pads: array<nat>, prev: array<nat>, verdicts: array<Verdict>, io: Word -> Reading,
              lists: seq<seq<Report>>, ghost words: seq<nat>, ghost runs: seq<Run>)
    returns (more: seq<seq<Report>>)
    requires pads.Length == 8 && prev.Length == 8 && pads != prev && verdicts.Length == 2
    requires words == PadWords(io) && AllStand(verdicts[..], prev[..], runs, lists)
    modifies pads, prev, verdicts
    ensures AllStand(verdicts[..], prev[..], NextRuns(runs, words), more)
  {
    ghost var p, v := prev[..], verdicts[..];
    ReadPads(pads, io, words);
    assert prev[..] == p && verdicts[..] == v;
    more := ShowBoth(pads, prev, verdicts, lists, words, runs);
  }

  method ShowBoth(pads: array<nat>, prev: array<nat>, verdicts: array<Verdict>, lists: seq<seq<Report>>,
                  ghost words: seq<nat>, ghost runs: seq<Run>) returns (more: seq<seq<Report>>)
    requires pads.Length == 8 && prev.Length == 8 && pads != prev && verdicts.Length == 2
    requires Unmasked(pads[..], words) && AllStand(verdicts[..], prev[..], runs, lists)
    modifies pads, prev, verdicts
    ensures AllStand(verdicts[..], prev[..], NextRuns(runs, words), more)
  {
    assert Stands(verdicts[..], prev[..], 0, runs[0], lists[0]) && Stands(verdicts[..], prev[..], 1, runs[1], lists[1]);
    var list0, list1;
    ghost var next0, next1;
    list0, list1, next0, next1 := ShowFrame(pads, prev, verdicts, words, runs[0], runs[1]);
    ToldMore(lists[0], next0, 0);
    ToldMore(lists[1], next1, 1);
    more := [lists[0] + list0, lists[1] + list1];
    BothStand(verdicts[..], prev[..], [next0, next1], more);
  }

  lemma BothStand(verdicts: seq<Verdict>, prev: seq<nat>, runs: seq<Run>, lists: seq<seq<Report>>)
    requires |runs| == |lists| == 2
    requires Stands(verdicts, prev, 0, runs[0], lists[0]) && Stands(verdicts, prev, 1, runs[1], lists[1])
    ensures AllStand(verdicts, prev, runs, lists)
  {}

  lemma StandsStart(verdicts: seq<Verdict>, prev: seq<nat>)
    requires verdicts == [Maybe, Maybe] && prev == [0, 0, 0, 0, 0, 0, 0, 0]
    ensures AllStand(verdicts, prev, [Start, Start], [[], []])
  {
    FollowsStart(verdicts, prev);
  }

  /** The runs of both ports after every frame. */
  ghost predicate Trail(runs: seq<seq<Run>>, frames: seq<seq<nat>>) {
    && |runs| == |frames| + 1 && (forall n | 0 <= n < |runs| :: |runs[n]| == 2)
    && (forall n | 0 <= n < |frames| :: |frames[n]| == 8)
    && runs[0] == [Start, Start]
    && forall n | 0 <= n < |frames| :: runs[n + 1] == NextRuns(runs[n], frames[n])
  }

  lemma {:induction false} TrailOf(frames: seq<seq<nat>>) returns (runs: seq<seq<Run>>)
    requires forall n | 0 <= n < |frames| :: |frames[n]| == 8
    ensures Trail(runs, frames)
  {
    if frames == [] {
      runs := [[Start, Start]];
    } else {
      var n := |frames| - 1;
      var before := TrailOf(frames[..n]);
      runs := before + [NextRuns(before[n], frames[n])];
    }
  }

  /** The words of every frame while the hardware reads `ios`. */
  function FramesRead(ios: seq<Word -> Reading>): (frames: seq<seq<nat>>)
    ensures |frames| == |ios| && forall n | 0 <= n < |ios| :: frames[n] == PadWords(ios[n])
  {
    seq(|ios|, n requires 0 <= n < |ios| => PadWords(ios[n]))
  }

  /** The words of one pad in the first `n` frames. */
  function Column(frames: seq<seq<nat>>, n: nat, pad: nat): seq<nat>
    requires n <= |frames| && pad < 8 && forall i | 0 <= i < |frames| :: |frames[i]| == 8
  {
    if n == 0 then [] else Column(frames, n - 1, pad) + [frames[n - 1][pad]]
  }

  lemma {:induction false} TrailWords(runs: seq<seq<Run>>, frames: seq<seq<nat>>, n: nat, port: nat, pad: nat)
    requires Trail(runs, frames) && n <= |frames| && port < 2 && pad < 4
    ensures Words(runs[n][port], pad) == Column(frames, n, 4 * port + pad)
  {
    if n > 0 {
      TrailWords(runs, frames, n - 1, port, pad);
      assert runs[n - 1 + 1] == NextRuns(runs[n - 1], frames[n - 1]);
    }
  }

  /** So the first pad of a port is listed whenever its masked word changes, and the others are
      too while the verdict is not that there is no teamtap. */
  lemma SessionChanges(runs: seq<seq<Run>>, frames: seq<seq<nat>>, list: seq<Report>, port: nat, pad: nat)
    requires Trail(runs, frames) && port < 2 && pad < 4 && Told(list, runs[|frames|][port], port)
    requires pad == 0 || VerdictAfter(runs[|frames|][port]) != No
    ensures WordsOf(list, 4 * port + pad) == Changes(Column(frames, |frames|, 4 * port + pad))
  {
    ReportsAreChanges(runs[|frames|][port], pad);
    TrailWords(runs, frames, |frames|, port, pad);
  }

  /** The main loop until the escape key: over the whole session each pad is listed with exactly
      the words its run reports. */
  method Watch(ios: seq<Word -> Reading>) returns (lists: seq<seq<Report>>, ghost runs: seq<seq<Run>>)
    ensures Trail(runs, FramesRead(ios)) && |lists| == 2
    ensures forall port | 0 <= port < 2 :: Told(lists[port], runs[|ios|][port], port)
  {
    var pads, prev, verdicts := new nat[8](_ => 0), new nat[8](_ => 0), new Verdict[2](_ => Maybe);
    StandsStart(verdicts[..], prev[..]);
    runs := TrailOf(FramesRead(ios));
    lists := Display(pads, prev, verdicts, ios, FramesRead(ios), runs);
    StandTold(verdicts[..], prev[..], runs[|ios|], lists);
  }

  lemma StandTold(verdicts: seq<Verdict>, prev: seq<nat>, runs: seq<Run>, lists: seq<seq<Report>>)
    requires AllStand(verdicts, prev, runs, lists)
    ensures forall port | 0 <= port < 2 :: Told(lists[port], runs[port], port)
  {
    assert Stands(verdicts, prev, 0, runs[0], lists[0]) && Stands(verdicts, prev, 1, runs[1], lists[1]);
  }

  method Display(pads: array<nat>, prev: array<nat>, verdicts: array<Verdict>, ios: seq<Word -> Reading>,
                 ghost frames: seq<seq<nat>>, ghost runs: seq<seq<Run>>) returns (lists: seq<seq<Report>>)
    requires pads.Length == 8 && prev.Length == 8 && pads != prev && verdicts.Length == 2
    requires |frames| == |ios| && forall n | 0 <= n < |ios| :: frames[n] == PadWords(ios[n])
    requires Trail(runs, frames) && AllStand(verdicts[..], prev[..], [Start, Start], [[], []])
    modifies pads, prev, verdicts
    ensures AllStand(verdicts[..], prev[..], runs[|ios|], lists)
  {
    lists := [[], []];
    var n := 0;
    while n < |ios|
      invariant 0 <= n <= |ios| && AllStand(verdicts[..], prev[..], runs[n], lists)
    {
      lists := Turn(pads, prev, verdicts, ios[n], lists, frames[n], runs[n]);
      n := n + 1;
    }
  }
}
