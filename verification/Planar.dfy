/** Interleaved bit planes: sixteen pixels are one word per plane, and a pixel's colour is
    its bit in each of them, plane 0 lowest. Where a lemma takes a number of bits that it then
    requires to be a constant, that keeps the solver from unrolling the definitions. */
module Planar {
  import opened Bits
  import opened Machine
  import opened Rows

  function PutWord(w: Word, j: nat, on: bool): Word
    requires j < 16
  {
    assert Power(16) == 0x1_0000 by {
      assert Power(4) == 16;
      assert Power(8) == 256;
      assert Power(12) == 4096;
    }
    PutInRange(w, j, on, 16);
    Put(w, j, on)
  }

  lemma OnesWord()
    ensures Ones(16) == 0xffff
  {
    assert Ones(4) == 15;
    assert Ones(8) == 255;
    assert Ones(12) == 4095;
  }

  // ---------- pixels of a line ----------

  predicate Depth(planes: nat) {
    planes == 1 || planes == 2 || planes == 4 || planes == 8
  }

  /** The word of pixel `x` in plane `i`, counted from the start of the line. */
  function PlaneWord(planes: nat, x: nat, i: nat): nat
  {
    Blocks(planes, x / 16) + i
  }

  /** The bit in plane `i` of pixel `x` of the line that starts at word `base`. */
  function Decode(m: seq<Word>, base: nat, planes: nat, x: nat, i: nat): bool
    requires base + PlaneWord(planes, x, i) < |m|
  {
    Bit(m[base + PlaneWord(planes, x, i)], 15 - x % 16)
  }

  /** In numbers: the planes of a group are its consecutive words, the leftmost of its sixteen
      pixels the highest bit of each. */
  lemma DecodeIs(m: seq<Word>, base: nat, planes: nat, x: nat, i: nat, k: nat)
    requires k == base + x / 16 * planes + i < |m|
    ensures base + PlaneWord(planes, x, i) == k
    ensures Decode(m, base, planes, x, i) <==> m[k] / Power(15 - x % 16) % 2 == 1
    ensures x % 16 == 0 ==> (Decode(m, base, planes, x, i) <==> m[k] >= 0x8000)
    ensures x % 16 == 15 ==> (Decode(m, base, planes, x, i) <==> m[k] % 2 == 1)
  {
    BlocksIsProduct(planes, x / 16);
    BitIsParity(m[k], 15 - x % 16);
    TopPower();
  }

  lemma TopPower()
    ensures Power(15) == 0x8000 && Power(0) == 1
  {
    assert Power(5) == 32 && Power(10) == 1024;
  }

  /** The colour number of a pixel from plane `i` up. */
  function PixelFrom(m: seq<Word>, base: nat, planes: nat, x: nat, i: nat): nat
    requires i <= planes && base + PlaneWord(planes, x, planes) <= |m|
    decreases planes - i
  {
    if i == planes then 0
    else (if Decode(m, base, planes, x, i) then 1 else 0) + 2 * PixelFrom(m, base, planes, x, i + 1)
  }

  function Pixel(m: seq<Word>, base: nat, planes: nat, x: nat): nat
    requires base + PlaneWord(planes, x, planes) <= |m|
  {
    PixelFrom(m, base, planes, x, 0)
  }

  /** The lowest `n` bits of a number. */
  function Low(c: nat, n: nat): nat {
    if n == 0 then 0 else c % 2 + 2 * Low(c / 2, n - 1)
  }

  lemma LowTwice(c: nat, n: nat)
    ensures Low(c, n + 2) == c % 4 + 4 * Low(c / 4, n)
  {
    assert Low(c / 2, n + 1) == c / 2 % 2 + 2 * Low(c / 2 / 2, n);
    assert c / 2 / 2 == c / 4;
  }

  lemma Digits2(c: nat)
    ensures c % 2 + 2 * (c / 2 % 2) == c % 4
  {}

  lemma Digits4(c: nat)
    ensures c % 4 + 4 * (c / 4 % 4) == c % 16
  {
    var q, r := c / 16, c % 16;
    assert c / 4 == 4 * q + r / 4;
  }

  lemma Digits16(c: nat)
    ensures c % 16 + 16 * (c / 16 % 16) == c % 256
  {
    var q, r := c / 256, c % 256;
    assert c / 16 == 16 * q + r / 16;
  }

  lemma LowIsModulo2(c: nat, n: nat)
    ensures n == 1 ==> Low(c, n) == c % 2
    ensures n == 2 ==> Low(c, n) == c % 4
  {
    if n == 2 {
      LowTwice(c, n - 2);
      Digits2(c);
    }
  }

  lemma LowIsModulo4(c: nat, n: nat)
    requires n == 4
    ensures Low(c, n) == c % 16
  {
    LowTwice(c, n - 2);
    LowIsModulo2(c / 4, n - 2);
    Digits4(c);
  }

  lemma LowFourTimes(c: nat, n: nat)
    ensures Low(c, n + 4) == c % 16 + 16 * Low(c / 16, n)
  {
    LowTwice(c, n + 2);
    LowTwice(c / 4, n);
    assert c / 4 / 4 == c / 16;
    Digits4(c);
  }

  lemma LowIsModulo8(c: nat, n: nat)
    requires n == 8
    ensures Low(c, n) == c % 256
  {
    LowFourTimes(c, n - 4);
    LowIsModulo4(c / 16, n - 4);
    Digits16(c);
  }

  /** How many colours there are. */
  function Colours(planes: nat): nat {
    match planes
    case 1 => 2
    case 2 => 4
    case 4 => 16
    case _ => 256
  }

  lemma LowIsModulo(c: nat, planes: nat)
    requires Depth(planes)
    ensures Low(c, planes) == c % Colours(planes)
  {
    LowIsModulo2(c, planes);
    if planes == 4 {
      LowIsModulo4(c, planes);
    } else if planes == 8 {
      LowIsModulo8(c, planes);
    }
  }

  lemma {:induction false} PixelIsLow(m: seq<Word>, base: nat, planes: nat, x: nat, i: nat, c: nat)
    requires i <= planes && base + PlaneWord(planes, x, planes) <= |m|
    requires forall k | i <= k < planes :: Decode(m, base, planes, x, k) == Bit(c, k - i)
    ensures PixelFrom(m, base, planes, x, i) == Low(c, planes - i)
    decreases planes - i
  {
    if i < planes {
      assert Decode(m, base, planes, x, i) == Bit(c, 0);
      forall k | i + 1 <= k < planes ensures Decode(m, base, planes, x, k) == Bit(c / 2, k - (i + 1)) {
        assert Bit(c, k - i) == Bit(c / 2, k - i - 1);
      }
      PixelIsLow(m, base, planes, x, i + 1, c / 2);
    }
  }

  /** A pixel whose bits are those of a number has that number as its colour. */
  lemma PixelOfBits(m: seq<Word>, base: nat, planes: nat, x: nat, c: nat)
    requires Depth(planes) && base + PlaneWord(planes, x, planes) <= |m|
    requires forall k | 0 <= k < planes :: Decode(m, base, planes, x, k) == Bit(c, k)
    ensures Pixel(m, base, planes, x) == c % Colours(planes)
  {
    PixelIsLow(m, base, planes, x, 0, c);
    LowIsModulo(c, planes);
  }

  // ---------- plotting ----------

  /** Writes the bits of colour `c` from plane `i` on, at bit `j` of the words from `w`. */
  function PutPlanes(m: seq<Word>, w: nat, j: nat, c: nat, i: nat, planes: nat): (r: seq<Word>)
    requires i <= planes && w + planes <= |m| && j < 16
    ensures |r| == |m|
    decreases planes - i
  {
    if i == planes then m
    else PutPlanes(m[w + i := PutWord(m[w + i], j, Bit(c, i))], w, j, c, i + 1, planes)
  }

  /** The memory after plotting pixel `x` of the line at `base`. */
  function Plotted(m: seq<Word>, base: nat, planes: nat, x: nat, c: nat): (r: seq<Word>)
    requires base + PlaneWord(planes, x, planes) <= |m|
    ensures |r| == |m|
  {
    PutPlanes(m, base + PlaneWord(planes, x, 0), 15 - x % 16, c, 0, planes)
  }

  lemma {:induction false} PutPlanesWords(m: seq<Word>, w: nat, j: nat, c: nat, i: nat, planes: nat, k: nat)
    requires i <= planes && w + planes <= |m| && j < 16 && k < |m|
    ensures PutPlanes(m, w, j, c, i, planes)[k]
         == if w + i <= k < w + planes then PutWord(m[k], j, Bit(c, k - w)) else m[k]
    decreases planes - i
  {
    if i < planes {
      PutPlanesWords(m[w + i := PutWord(m[w + i], j, Bit(c, i))], w, j, c, i + 1, planes, k);
    }
  }

  /** Two pixels share their words exactly when they are in the same group of sixteen. */
  lemma SharedWords(planes: nat, x: nat, z: nat, i: nat)
    requires i < planes
    ensures var w, k := PlaneWord(planes, x, 0), PlaneWord(planes, z, i);
            if x / 16 == z / 16 then k == w + i else !(w <= k < w + planes)
  {
    if x / 16 < z / 16 {
      BlocksApart(planes, x / 16, z / 16);
    } else if z / 16 < x / 16 {
      BlocksApart(planes, z / 16, x / 16);
    }
  }

  lemma PutWordBit(w: Word, j: nat, on: bool, k: nat)
    requires j < 16
    ensures Bit(PutWord(w, j, on), k) == if k == j then on else Bit(w, k)
  {
    PutBit(w, j, on, k);
  }

  /** Plotting gives the pixel its colour and leaves every other pixel of the line alone. */
  lemma PlotDecodes(m: seq<Word>, base: nat, planes: nat, x: nat, c: nat, z: nat, i: nat)
    requires i < planes
    requires base + PlaneWord(planes, x, planes) <= |m| && base + PlaneWord(planes, z, i) < |m|
    ensures Decode(Plotted(m, base, planes, x, c), base, planes, z, i)
         == if z == x then Bit(c, i) else Decode(m, base, planes, z, i)
  {
    PlottedWord(m, base, planes, x, c, z, i);
    WordDecodes(m[base + PlaneWord(planes, z, i)], x, c, z, i);
  }

  lemma PlottedWord(m: seq<Word>, base: nat, planes: nat, x: nat, c: nat, z: nat, i: nat)
    requires i < planes
    requires base + PlaneWord(planes, x, planes) <= |m| && base + PlaneWord(planes, z, i) < |m|
    ensures Plotted(m, base, planes, x, c)[base + PlaneWord(planes, z, i)]
         == if x / 16 == z / 16 then PutWord(m[base + PlaneWord(planes, z, i)], 15 - x % 16, Bit(c, i))
            else m[base + PlaneWord(planes, z, i)]
  {
    SharedWords(planes, x, z, i);
    WordAfter(m, base + PlaneWord(planes, x, 0), 15 - x % 16, c, planes,
              base + PlaneWord(planes, z, i), i, x / 16 == z / 16);
  }

  lemma WordAfter(m: seq<Word>, w: nat, j: nat, c: nat, planes: nat, k: nat, i: nat, shared: bool)
    requires w + planes <= |m| && j < 16 && k < |m| && i < planes
    requires if shared then k == w + i else !(w <= k < w + planes)
    ensures PutPlanes(m, w, j, c, 0, planes)[k] == if shared then PutWord(m[k], j, Bit(c, i)) else m[k]
  {
    PutPlanesWords(m, w, j, c, 0, planes, k);
  }

  lemma WordDecodes(w: Word, x: nat, c: nat, z: nat, i: nat)
    ensures Bit(if x / 16 == z / 16 then PutWord(w, 15 - x % 16, Bit(c, i)) else w, 15 - z % 16)
         == if z == x then Bit(c, i) else Bit(w, 15 - z % 16)
  {
    SamePixel(x, z);
    PutWordBit(w, 15 - x % 16, Bit(c, i), 15 - z % 16);
  }

  lemma SamePixel(x: nat, z: nat)
    ensures x == z <==> x / 16 == z / 16 && 15 - x % 16 == 15 - z % 16
  {}

  /** Reading the pixel back gives the colour modulo the number of colours; reading any
      other pixel of the line gives what it was. */
  lemma PlotRoundTrip(m: seq<Word>, base: nat, planes: nat, x: nat, c: nat)
    requires Depth(planes) && base + PlaneWord(planes, x, planes) <= |m|
    ensures Pixel(Plotted(m, base, planes, x, c), base, planes, x) == c % Colours(planes)
    ensures forall z: nat | z != x && base + PlaneWord(planes, z, planes) <= |m| ::
              Pixel(Plotted(m, base, planes, x, c), base, planes, z) == Pixel(m, base, planes, z)
  {
    var r := Plotted(m, base, planes, x, c);
    forall i | 0 <= i < planes ensures Decode(r, base, planes, x, i) == Bit(c, i) {
      PlotDecodes(m, base, planes, x, c, x, i);
    }
    PixelOfBits(r, base, planes, x, c);
    forall z: nat | z != x && base + PlaneWord(planes, z, planes) <= |m|
      ensures Pixel(r, base, planes, z) == Pixel(m, base, planes, z)
    {
      OthersKept(m, base, planes, x, c, z, 0);
    }
  }

  lemma {:induction false} OthersKept(m: seq<Word>, base: nat, planes: nat, x: nat, c: nat, z: nat, i: nat)
    requires i <= planes && z != x
    requires base + PlaneWord(planes, x, planes) <= |m| && base + PlaneWord(planes, z, planes) <= |m|
    ensures PixelFrom(Plotted(m, base, planes, x, c), base, planes, z, i) == PixelFrom(m, base, planes, z, i)
    decreases planes - i
  {
    if i < planes {
      PlotDecodes(m, base, planes, x, c, z, i);
      OthersKept(m, base, planes, x, c, z, i + 1);
    }
  }

  /** `RGB_Plot2`, `RGB_Plot4` and `RGB_Plot8`, which differ in the number of planes only. */
  method Plot(buffer: array<Word>, base: nat, planes: nat, x: nat, color: nat)
    requires Depth(planes) && base + PlaneWord(planes, x, planes) <= buffer.Length
    modifies buffer
    ensures buffer[..] == Plotted(old(buffer[..]), base, planes, x, color)
  {
    var w := base + PlaneWord(planes, x, 0);
    var j := 15 - x % 16;
    var i := 0;
    while i < planes
      invariant 0 <= i <= planes
      invariant PutPlanes(buffer[..], w, j, color, i, planes) == Plotted(old(buffer[..]), base, planes, x, color)
    {
      ghost var m := buffer[..];
      buffer[w + i] := PutWord(buffer[w + i], j, Bit(color, i));
      assert buffer[..] == m[w + i := PutWord(m[w + i], j, Bit(color, i))];
      i := i + 1;
    }
  }
}
