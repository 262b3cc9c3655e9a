/** `RGB_DrawBar` on packed pixels, byte by byte: a pixel is the big-endian bytes of its colour,
    and the pitch need not be the length of a line. */
module Packed {
  import opened Bits
  import opened Framebuffers
  import opened Machine
  import opened Ramps
  import opened Rows
  import opened TrueColour

  // ---------- one pixel ----------

  /** The number in `n` bytes, the most significant first. */
  function PixelAt(m: seq<Byte>, o: nat, n: nat): nat
    requires o + n <= |m|
  {
    if n == 0 then 0 else 0x100 * PixelAt(m, o, n - 1) + m[o + n - 1]
  }

  /** In numbers: the first byte is the most significant. */
  lemma PixelIs(m: seq<Byte>, o: nat)
    ensures o + 1 <= |m| ==> PixelAt(m, o, 1) == m[o]
    ensures o + 2 <= |m| ==> PixelAt(m, o, 2) == 0x100 * (m[o] as nat) + m[o + 1]
    ensures o + 3 <= |m| ==> PixelAt(m, o, 3) == 0x1_0000 * (m[o] as nat) + 0x100 * (m[o + 1] as nat) + m[o + 2]
    ensures o + 4 <= |m| ==>
              PixelAt(m, o, 4) == 0x100_0000 * (m[o] as nat) + 0x1_0000 * (m[o + 1] as nat)
                                  + 0x100 * (m[o + 2] as nat) + m[o + 3]
  {
    if o + 1 <= |m| {
      assert PixelAt(m, o, 1) == 0x100 * PixelAt(m, o, 0) + m[o];
    }
    if o + 2 <= |m| {
      assert PixelAt(m, o, 2) == 0x100 * PixelAt(m, o, 1) + m[o + 1];
    }
    if o + 3 <= |m| {
      assert PixelAt(m, o, 3) == 0x100 * PixelAt(m, o, 2) + m[o + 2];
    }
  }

  /** The memory with a colour stored in `n` bytes. */
  function PutPixel(m: seq<Byte>, o: nat, n: nat, color: nat): (r: seq<Byte>)
    requires o + n <= |m|
    ensures |r| == |m| && forall k | 0 <= k < |m| && !(o <= k < o + n) :: r[k] == m[k]
    decreases n
  {
    if n == 0 then m else PutPixel(m[o + n - 1 := color % 0x100], o, n - 1, color / 0x100)
  }

  /** What `n` bytes keep of a colour. */
  function Cut(color: nat, n: nat): nat {
    if n == 0 then 0 else 0x100 * Cut(color / 0x100, n - 1) + color % 0x100
  }

  /** Bytes that are the same, wherever they are, hold the same pixel. */
  lemma {:induction false} SameBytes(m: seq<Byte>, o: nat, m': seq<Byte>, o': nat, n: nat)
    requires o + n <= |m| && o' + n <= |m'| && m[o..o + n] == m'[o'..o' + n]
    ensures PixelAt(m, o, n) == PixelAt(m', o', n)
  {
    if n > 0 {
      var bytes := m[o..o + n];
      assert m[o..o + (n - 1)] == bytes[..n - 1] && m'[o'..o' + (n - 1)] == bytes[..n - 1];
      SameBytes(m, o, m', o', n - 1);
      assert m[o + (n - 1)] == bytes[n - 1] && m'[o' + (n - 1)] == bytes[n - 1];
    }
  }

  lemma {:induction false} PutReads(m: seq<Byte>, o: nat, n: nat, color: nat)
    requires o + n <= |m|
    ensures PixelAt(PutPixel(m, o, n, color), o, n) == Cut(color, n)
    decreases n
  {
    if n > 0 {
      PutReads(m[o + n - 1 := color % 0x100], o, n - 1, color / 0x100);
    }
  }

  lemma {:induction false} CutStep(color: nat, n: nat, high: nat)
    requires high == Cut(color / 0x100, n)
    ensures Cut(color, n + 1) == 0x100 * high + color % 0x100
  {}

  lemma CutTwo(color: nat)
    ensures Cut(color, 1) == color % 0x100 && Cut(color, 2) == color % 0x1_0000
  {
    CutStep(color, 0, 0);
    CutStep(color / 0x100, 0, 0);
    CutStep(color, 1, color / 0x100 % 0x100);
    CarryByte(color);
  }

  lemma CarryByte(color: nat)
    ensures 0x100 * (color / 0x100 % 0x100) + color % 0x100 == color % 0x1_0000
  {
    var q, r := color / 0x1_0000, color % 0x1_0000;
    assert color / 0x100 == 0x100 * q + r / 0x100;
  }

  lemma CutThree(color: nat)
    ensures Cut(color, 3) == color % 0x100_0000
  {
    CutTwo(color / 0x100);
    CutStep(color, 2, color / 0x100 % 0x1_0000);
    CarryWord(color);
  }

  lemma CarryWord(color: nat)
    ensures 0x100 * (color / 0x100 % 0x1_0000) + color % 0x100 == color % 0x100_0000
  {
    var q, r := color / 0x100_0000, color % 0x100_0000;
    assert color / 0x100 == 0x1_0000 * q + r / 0x100;
  }

  lemma Carry(color: nat)
    ensures 0x100 * (color / 0x100 % 0x100_0000) + color % 0x100 == color % 0x1_0000_0000
  {
    var q, r := color / 0x1_0000_0000, color % 0x1_0000_0000;
    assert color / 0x100 == 0x100_0000 * q + r / 0x100;
  }

  lemma CutFour(color: nat)
    ensures Cut(color, 4) == color % 0x1_0000_0000
  {
    CutThree(color / 0x100);
    CutStep(color, 3, color / 0x100 % 0x100_0000);
    Carry(color);
  }

  /** The bytes keep the colour modulo their range. */
  lemma CutIsCell(color: nat, pixsize: nat)
    requires 1 <= pixsize <= 4
    ensures Cut(color, pixsize) == Cell(pixsize, color)
  {
    if pixsize <= 2 {
      CutTwo(color);
    } else if pixsize == 3 {
      CutThree(color);
    } else {
      CutFour(color);
    }
  }

  // ---------- one line ----------

  /** The memory with the colours `cs` stored one after the other from `at` on. */
  function Painted(m: seq<Byte>, at: nat, n: nat, cs: seq<nat>): (r: seq<Byte>)
    requires at + Blocks(n, |cs|) <= |m|
    ensures |r| == |m| && forall k | 0 <= k < |m| && !(at <= k < at + Blocks(n, |cs|)) :: r[k] == m[k]
  {
    if cs == [] then m
    else
      var last := |cs| - 1;
      PutPixel(Painted(m, at, n, cs[..last]), at + Blocks(n, last), n, cs[last])
  }

  lemma {:induction false} PaintedReads(m: seq<Byte>, at: nat, n: nat, cs: seq<nat>, i: nat)
    requires at + Blocks(n, |cs|) <= |m| && i < |cs|
    ensures at + Blocks(n, i) + n <= |m|
    ensures PixelAt(Painted(m, at, n, cs), at + Blocks(n, i), n) == Cut(cs[i], n)
  {
    var last := |cs| - 1;
    var before := Painted(m, at, n, cs[..last]);
    BlocksApart(n, i, |cs|);
    if i == last {
      PutReads(before, at + Blocks(n, last), n, cs[last]);
    } else {
      BlocksApart(n, i, last);
      PaintedReads(m, at, n, cs[..last], i);
      var r, o := Painted(m, at, n, cs), at + Blocks(n, i);
      assert r[o..o + n] == before[o..o + n];
      SameBytes(r, o, before, o, n);
    }
  }

  lemma PaintedThere(m: seq<Byte>, at: nat, n: nat, cs: seq<nat>, i: nat, o: nat)
    requires at + Blocks(n, |cs|) <= |m| && i < |cs| && o == at + Blocks(n, i)
    ensures o + n <= |m| && PixelAt(Painted(m, at, n, cs), o, n) == Cut(cs[i], n)
  {
    PaintedReads(m, at, n, cs, i);
  }

  // ---------- the whole bar ----------

  /** The screen: its size in pixels, the bytes of a pixel, and the bytes from line to line. */
  datatype Screen = Screen(width: nat, height: nat, pixsize: nat, pitch: nat)

  predicate Fits(s: Screen, size: nat) {
    && s.width > 0 && s.height > 0 && 1 <= s.pixsize <= 4
    && Blocks(s.pixsize, s.width) <= s.pitch && RowStart(s.pitch, s.height) <= size
  }

  /** A box inside the screen which is neither one pixel wide nor one high. It may have no height,
      and then no width either: its last column or row is the one before its first. */
  predicate Drawable(s: Screen, b: Box, size: nat) {
    && Fits(s, size)
    && b.x1 != b.x2 && b.y1 != b.y2 && b.x1 <= b.x2 + 1 && (b.x2 < b.x1 ==> b.y2 < b.y1)
    && b.x1 < s.width && b.x2 < s.width && b.y1 < s.height && b.y2 < s.height
  }

  /** How many columns of the top line are copied down: all but the last. */
  function Copied(b: Box): nat {
    if b.x1 < b.x2 then b.x2 - b.x1 else 0
  }

  /** The top line lies in its row, and the rows of the bar in the memory. */
  lemma LineFits(s: Screen, b: Box, size: nat)
    requires Drawable(s, b, size)
    ensures Blocks(s.pixsize, b.x1) + Blocks(s.pixsize, b.x2 - b.x1 + 1) <= Blocks(s.pixsize, s.width) <= s.pitch
    ensures Blocks(s.pixsize, b.x1) + Blocks(s.pixsize, Copied(b)) <= Blocks(s.pixsize, s.width)
    ensures RowStart(s.pitch, b.y1) + s.pitch <= size && RowStart(s.pitch, b.y2) + s.pitch <= size
  {
    BlocksSplit(s.pixsize, b.x1, b.x2 + 1);
    BlocksOrdered(s.pixsize, b.x2 + 1, s.width);
    BlocksOrdered(s.pixsize, Copied(b), b.x2 - b.x1 + 1);
    BlocksApart(s.pitch, b.y1, s.height);
    BlocksApart(s.pitch, b.y2, s.height);
  }

  /** Where the top line starts. */
  function LineAt(s: Screen, b: Box): nat {
    RowStart(s.pitch, b.y1) + Blocks(s.pixsize, b.x1)
  }

  /** The memory with the top line of the bar drawn, in the colours of columns `x1` to `x2`. */
  function TopLine(m: seq<Byte>, s: Screen, b: Box, cs: seq<nat>): (r: seq<Byte>)
    requires Drawable(s, b, |m|) && |cs| == b.x2 - b.x1 + 1
    ensures |r| == |m|
  {
    LineFits(s, b, |m|);
    Painted(m, LineAt(s, b), s.pixsize, cs)
  }

  /** The memory after the whole bar: the top line is copied down, without its last column. */
  function BarMemory(m: seq<Byte>, s: Screen, b: Box, cs: seq<nat>): (r: seq<Byte>)
    requires Drawable(s, b, |m|) && |cs| == b.x2 - b.x1 + 1
    ensures |r| == |m|
  {
    LineFits(s, b, |m|);
    CopyRows(TopLine(m, s, b, cs), s.pitch, b.y1, Blocks(s.pixsize, b.x1), Blocks(s.pixsize, Copied(b)), b.y1 + 1, b.y2)
  }

  /** Byte `i` of pixel `z` is among the pixels from `x1` up to `x2` exactly when `z` is. */
  lemma PixelBetween(n: nat, x1: nat, x2: nat, z: nat, i: nat)
    requires x1 <= x2 && i < n
    ensures Blocks(n, x1) <= Blocks(n, z) + i < Blocks(n, x1) + Blocks(n, x2 - x1) <==> x1 <= z < x2
  {
    BlocksSplit(n, x1, x2);
    if z < x1 {
      BlocksApart(n, z, x1);
    } else if z < x2 {
      BlocksOrdered(n, x1, z);
      BlocksApart(n, z, x2);
    } else {
      BlocksOrdered(n, x2, z);
    }
  }

  lemma PixelInRow(s: Screen, y: nat, z: nat, size: nat)
    requires Fits(s, size) && y < s.height && z < s.width
    ensures Blocks(s.pixsize, z) + s.pixsize <= s.pitch
    ensures RowStart(s.pitch, y) + Blocks(s.pixsize, z) + s.pixsize <= size
  {
    BlocksApart(s.pixsize, z, s.width);
    BlocksApart(s.pitch, y, s.height);
  }

  /** A column of the bar on the top line. */
  lemma PaintedPixel(m: seq<Byte>, s: Screen, b: Box, cs: seq<nat>, z: nat, o: nat)
    requires Drawable(s, b, |m|) && |cs| == b.x2 - b.x1 + 1 && b.x1 <= z <= b.x2
    requires o == RowStart(s.pitch, b.y1) + Blocks(s.pixsize, z) && o + s.pixsize <= |m|
    ensures PixelAt(TopLine(m, s, b, cs), o, s.pixsize) == Cut(cs[z - b.x1], s.pixsize)
  {
    LineFits(s, b, |m|);
    ColumnOffset(s, b, z, LineAt(s, b), o);
    PaintedThere(m, LineAt(s, b), s.pixsize, cs, z - b.x1, o);
  }

  lemma ColumnOffset(s: Screen, b: Box, z: nat, at: nat, o: nat)
    requires b.x1 <= z && at == LineAt(s, b)
    requires o == RowStart(s.pitch, b.y1) + Blocks(s.pixsize, z)
    ensures at + Blocks(s.pixsize, z - b.x1) == o
  {
    BlocksSplit(s.pixsize, b.x1, z);
  }

  /** Any other pixel ends before the columns painted, or starts behind them. */
  lemma BesideTop(s: Screen, b: Box, y: nat, z: nat, size: nat, at: nat, o: nat)
    requires Drawable(s, b, size) && y < s.height && z < s.width
    requires y != b.y1 || !(b.x1 <= z <= b.x2)
    requires at == LineAt(s, b)
    requires o == RowStart(s.pitch, y) + Blocks(s.pixsize, z)
    ensures o + s.pixsize <= at || at + Blocks(s.pixsize, b.x2 - b.x1 + 1) <= o
  {
    LineFits(s, b, size);
    PixelInRow(s, y, z, size);
    BlocksSplit(s.pixsize, b.x1, b.x2 + 1);
    if y < b.y1 {
      BlocksApart(s.pitch, y, b.y1);
    } else if y > b.y1 {
      BlocksApart(s.pitch, b.y1, y);
      BlocksOrdered(s.pixsize, b.x2 + 1, s.width);
    } else if z < b.x1 {
      BlocksApart(s.pixsize, z, b.x1);
    } else {
      BlocksOrdered(s.pixsize, b.x2 + 1, z);
    }
  }

  lemma PaintedBeside(m: seq<Byte>, at: nat, n: nat, cs: seq<nat>, o: nat)
    requires at + Blocks(n, |cs|) <= |m| && o + n <= |m|
    requires o + n <= at || at + Blocks(n, |cs|) <= o
    ensures PixelAt(Painted(m, at, n, cs), o, n) == PixelAt(m, o, n)
  {
    var r := Painted(m, at, n, cs);
    assert r[o..o + n] == m[o..o + n];
    SameBytes(r, o, m, o, n);
  }

  lemma Untouched(m: seq<Byte>, s: Screen, b: Box, cs: seq<nat>, y: nat, z: nat, o: nat)
    requires Drawable(s, b, |m|) && |cs| == b.x2 - b.x1 + 1 && y < s.height && z < s.width
    requires y != b.y1 || !(b.x1 <= z <= b.x2)
    requires o == RowStart(s.pitch, y) + Blocks(s.pixsize, z) && o + s.pixsize <= |m|
    ensures PixelAt(TopLine(m, s, b, cs), o, s.pixsize) == PixelAt(m, o, s.pixsize)
  {
    LineFits(s, b, |m|);
    BesideTop(s, b, y, z, |m|, LineAt(s, b), o);
    PaintedBeside(m, LineAt(s, b), s.pixsize, cs, o);
  }

  /** A pixel after the top line is drawn. */
  lemma TopPixel(m: seq<Byte>, s: Screen, b: Box, cs: seq<nat>, y: nat, z: nat, o: nat)
    requires Drawable(s, b, |m|) && |cs| == b.x2 - b.x1 + 1 && y < s.height && z < s.width
    requires o == RowStart(s.pitch, y) + Blocks(s.pixsize, z) && o + s.pixsize <= |m|
    ensures PixelAt(TopLine(m, s, b, cs), o, s.pixsize)
         == if y == b.y1 && b.x1 <= z <= b.x2 then Cut(cs[z - b.x1], s.pixsize) else PixelAt(m, o, s.pixsize)
  {
    if y == b.y1 && b.x1 <= z <= b.x2 {
      PaintedPixel(m, s, b, cs, z, o);
    } else {
      Untouched(m, s, b, cs, y, z, o);
    }
  }

  /** A row of bytes inside the span is copied, one outside is not. */
  lemma CopiedBytes(m: seq<Byte>, s: Screen, b: Box, cs: seq<nat>, y: nat, z: nat, source: nat,
                    o: nat, o': nat, top: seq<Byte>, r: seq<Byte>)
    requires Drawable(s, b, |m|) && |cs| == b.x2 - b.x1 + 1 && y < s.height && z < s.width
    requires source == if b.y1 < y <= b.y2 && b.x1 <= z < b.x2 then b.y1 else y
    requires top == TopLine(m, s, b, cs) && r == BarMemory(m, s, b, cs)
    requires o == RowStart(s.pitch, y) + Blocks(s.pixsize, z) && o + s.pixsize <= |m|
    requires o' == RowStart(s.pitch, source) + Blocks(s.pixsize, z) && o' + s.pixsize <= |m|
    ensures r[o..o + s.pixsize] == top[o'..o' + s.pixsize]
  {
    var a, a' := r[o..o + s.pixsize], top[o'..o' + s.pixsize];
    PixelInRow(s, y, z, |m|);
    forall i | 0 <= i < s.pixsize ensures a[i] == a'[i] {
      ByteOfPixel(m, s, b, cs, y, z, source, i, o, o');
      assert a[i] == r[o + i] && a'[i] == top[o' + i];
    }
  }

  lemma ByteOfPixel(m: seq<Byte>, s: Screen, b: Box, cs: seq<nat>, y: nat, z: nat, source: nat, i: nat,
                    o: nat, o': nat)
    requires Drawable(s, b, |m|) && |cs| == b.x2 - b.x1 + 1 && i < s.pixsize
    requires Blocks(s.pixsize, z) + s.pixsize <= s.pitch
    requires source == if b.y1 < y <= b.y2 && b.x1 <= z < b.x2 then b.y1 else y
    requires o == RowStart(s.pitch, y) + Blocks(s.pixsize, z) && o + i < |m|
    requires o' == RowStart(s.pitch, source) + Blocks(s.pixsize, z) && o' + i < |m|
    ensures BarMemory(m, s, b, cs)[o + i] == TopLine(m, s, b, cs)[o' + i]
  {
    CopiedByte(m, s, b, cs, y, z, source, i, Blocks(s.pixsize, z) + i);
  }

  lemma CopiedByte(m: seq<Byte>, s: Screen, b: Box, cs: seq<nat>, y: nat, z: nat, source: nat, i: nat, w: nat)
    requires Drawable(s, b, |m|) && |cs| == b.x2 - b.x1 + 1 && i < s.pixsize && w < s.pitch
    requires source == if b.y1 < y <= b.y2 && b.x1 <= z < b.x2 then b.y1 else y
    requires w == Blocks(s.pixsize, z) + i && RowStart(s.pitch, y) + w < |m|
    ensures RowStart(s.pitch, source) + w < |m|
    ensures BarMemory(m, s, b, cs)[RowStart(s.pitch, y) + w] == TopLine(m, s, b, cs)[RowStart(s.pitch, source) + w]
  {
    ColumnCopied(s.pixsize, b, z, i);
    BarByte(m, s, b, cs, y, w, Blocks(s.pixsize, b.x1), Blocks(s.pixsize, Copied(b)));
  }

  lemma ColumnCopied(n: nat, b: Box, z: nat, i: nat)
    requires i < n
    ensures Blocks(n, b.x1) <= Blocks(n, z) + i < Blocks(n, b.x1) + Blocks(n, Copied(b)) <==> b.x1 <= z < b.x2
  {
    PixelBetween(n, b.x1, b.x1 + Copied(b), z, i);
  }

  /** Every pixel of the screen after the bar: the colours of all columns on the top line, those
      of all but the last on the lines below, everything else as it was. */
  lemma BarPixels(m: seq<Byte>, s: Screen, b: Box, cs: seq<nat>, y: nat, z: nat, o: nat)
    requires Drawable(s, b, |m|) && |cs| == b.x2 - b.x1 + 1 && y < s.height && z < s.width
    requires o == RowStart(s.pitch, y) + Blocks(s.pixsize, z)
    ensures o + s.pixsize <= |m|
    ensures PixelAt(BarMemory(m, s, b, cs), o, s.pixsize)
         == if (y == b.y1 && b.x1 <= z <= b.x2) || (b.y1 < y <= b.y2 && b.x1 <= z < b.x2)
            then Cell(s.pixsize, cs[z - b.x1])
            else PixelAt(m, o, s.pixsize)
  {
    var source := if b.y1 < y <= b.y2 && b.x1 <= z < b.x2 then b.y1 else y;
    PixelInRow(s, y, z, |m|);
    PixelInRow(s, source, z, |m|);
    CopiedPixel(m, s, b, cs, y, z, source, o, RowStart(s.pitch, source) + Blocks(s.pixsize, z));
    if b.x1 <= z <= b.x2 {
      CutIsCell(cs[z - b.x1], s.pixsize);
    }
  }

  lemma CopiedPixel(m: seq<Byte>, s: Screen, b: Box, cs: seq<nat>, y: nat, z: nat, source: nat, o: nat, o': nat)
    requires Drawable(s, b, |m|) && |cs| == b.x2 - b.x1 + 1 && y < s.height && z < s.width
    requires source == if b.y1 < y <= b.y2 && b.x1 <= z < b.x2 then b.y1 else y
    requires o == RowStart(s.pitch, y) + Blocks(s.pixsize, z) && o + s.pixsize <= |m|
    requires o' == RowStart(s.pitch, source) + Blocks(s.pixsize, z) && o' + s.pixsize <= |m|
    ensures PixelAt(BarMemory(m, s, b, cs), o, s.pixsize)
         == if source == b.y1 && b.x1 <= z <= b.x2 then Cut(cs[z - b.x1], s.pixsize) else PixelAt(m, o', s.pixsize)
  {
    FromTop(m, s, b, cs, y, z, source, o, o', TopLine(m, s, b, cs), BarMemory(m, s, b, cs));
    TopPixel(m, s, b, cs, source, z, o');
  }

  lemma FromTop(m: seq<Byte>, s: Screen, b: Box, cs: seq<nat>, y: nat, z: nat, source: nat,
                o: nat, o': nat, top: seq<Byte>, r: seq<Byte>)
    requires Drawable(s, b, |m|) && |cs| == b.x2 - b.x1 + 1 && y < s.height && z < s.width
    requires source == if b.y1 < y <= b.y2 && b.x1 <= z < b.x2 then b.y1 else y
    requires top == TopLine(m, s, b, cs) && r == BarMemory(m, s, b, cs)
    requires o == RowStart(s.pitch, y) + Blocks(s.pixsize, z) && o + s.pixsize <= |m|
    requires o' == RowStart(s.pitch, source) + Blocks(s.pixsize, z) && o' + s.pixsize <= |m|
    ensures PixelAt(r, o, s.pixsize) == PixelAt(top, o', s.pixsize)
  {
    CopiedBytes(m, s, b, cs, y, z, source, o, o', top, r);
    SameBytes(r, o, top, o', s.pixsize);
  }

  /** A byte of the memory after the whole bar. */
  lemma BarByte(m: seq<Byte>, s: Screen, b: Box, cs: seq<nat>, y: nat, w: nat, a: nat, len: nat)
    requires Drawable(s, b, |m|) && |cs| == b.x2 - b.x1 + 1 && w < s.pitch && RowStart(s.pitch, y) + w < |m|
    requires a == Blocks(s.pixsize, b.x1) && len == Blocks(s.pixsize, Copied(b))
    ensures RowStart(s.pitch, b.y1) + w < |m|
    ensures BarMemory(m, s, b, cs)[RowStart(s.pitch, y) + w]
         == if b.y1 < y <= b.y2 && a <= w < a + len
            then TopLine(m, s, b, cs)[RowStart(s.pitch, b.y1) + w]
            else TopLine(m, s, b, cs)[RowStart(s.pitch, y) + w]
  {
    CopiedCell(TopLine(m, s, b, cs), s, b, y, w, a, len);
  }

  lemma CopiedCell(top: seq<Byte>, s: Screen, b: Box, y: nat, w: nat, a: nat, len: nat)
    requires Drawable(s, b, |top|) && w < s.pitch && RowStart(s.pitch, y) + w < |top|
    requires a == Blocks(s.pixsize, b.x1) && len == Blocks(s.pixsize, Copied(b))
    ensures a + len <= s.pitch && RowStart(s.pitch, b.y1) + w < |top| && RowStart(s.pitch, b.y2) + s.pitch <= |top|
    ensures CopyRows(top, s.pitch, b.y1, a, len, b.y1 + 1, b.y2)[RowStart(s.pitch, y) + w]
         == if b.y1 < y <= b.y2 && a <= w < a + len then top[RowStart(s.pitch, b.y1) + w]
            else top[RowStart(s.pitch, y) + w]
  {
    LineFits(s, b, |top|);
    CopyRowsCell(top, s.pitch, b.y1, a, len, b.y1 + 1, b.y2, y, w);
  }

  /** The padding of a line, and everything behind the screen, is left alone. */
  lemma BarFrame(m: seq<Byte>, s: Screen, b: Box, cs: seq<nat>, y: nat, w: nat)
    requires Drawable(s, b, |m|) && |cs| == b.x2 - b.x1 + 1 && w < s.pitch && RowStart(s.pitch, y) + w < |m|
    requires y >= s.height || w >= Blocks(s.pixsize, s.width)
    ensures BarMemory(m, s, b, cs)[RowStart(s.pitch, y) + w] == m[RowStart(s.pitch, y) + w]
  {
    LineFits(s, b, |m|);
    BarByte(m, s, b, cs, y, w, Blocks(s.pixsize, b.x1), Blocks(s.pixsize, Copied(b)));
    RowCell(s.pitch, Blocks(s.pixsize, b.x1), Blocks(s.pixsize, b.x2 - b.x1 + 1), b.y1, y, w);
  }

  // ---------- the colours ----------

  /** A packed framebuffer: eight bits index the palette, more are true colour. */
  predicate PackedFormat(fb: Framebuffer) {
    && fb.format.Packed?
    && ((fb.bpp == 8 && fb.pixsize == 1)
        || (TrueColourDepth(fb.bpp) && fb.pixsize == InitFramebuffer(0, 0, fb.bpp).pixsize))
  }

  /** The colour of column `x` of a bar from `x1` to `x2`. */
  function ColumnColour(fb: Framebuffer, component: Component, x: nat, x1: nat, x2: nat): nat
    requires x1 <= x && x1 < x2
  {
    if fb.bpp == 8 then Colour(8, component, x, x1, x2) else Shade(fb, component, x, x1, x2)
  }

  /** Those of columns `x1` to `x2`. */
  function ColumnColours(fb: Framebuffer, component: Component, x1: nat, x2: nat): (cs: seq<nat>)
    requires x1 != x2 && x1 <= x2 + 1
    ensures |cs| == x2 - x1 + 1
    ensures forall i | 0 <= i < |cs| :: cs[i] == ColumnColour(fb, component, x1 + i, x1, x2)
  {
    seq<nat>(x2 - x1 + 1, i requires 0 <= i < x2 - x1 + 1 => ColumnColour(fb, component, x1 + i, x1, x2))
  }

  function ScreenOf(fb: Framebuffer): Screen {
    Screen(fb.width, fb.height, fb.pixsize, fb.pitch)
  }

  /** The colour of every column but the last is stored in full; a true colour lies inside its
      component's mask and reads back as the shade's leading bits. */
  lemma ColumnStored(fb: Framebuffer, component: Component, z: nat, x1: nat, x2: nat, color: nat)
    requires PackedFormat(fb) && (fb.bpp == 8 || InitialLayout(fb))
    requires x1 <= z < x2 && color == ColumnColour(fb, component, z, x1, x2)
    ensures Cell(fb.pixsize, color) == color
    ensures fb.bpp != 8 ==>
              var c := ChannelOf(fb.layout, component);
              Within(color, c.mask) && Right(color, c.shift) == Right(Ramp(z - x1, 256, x2 - x1), c.loss)
  {
    if fb.bpp == 8 {
      RampBelow(z - x1, 85, x2 - x1);
    } else {
      ShadesInMask(fb, component, z, x1, x2);
    }
  }

  /** Every pixel of the clipped rectangle but its last column holds that colour. */
  lemma BarShades(m: seq<Byte>, fb: Framebuffer, rect: Rect, component: Component, y: nat, z: nat, o: nat)
    requires PackedFormat(fb) && (fb.bpp == 8 || InitialLayout(fb)) && Fits(ScreenOf(fb), |m|)
    requires var b := BoxOf(fb.width, fb.height, rect); b.x1 <= z < b.x2 && b.y1 < b.y2 && b.y1 <= y <= b.y2
    requires o == RowStart(fb.pitch, y) + Blocks(fb.pixsize, z)
    ensures var s := ScreenOf(fb);
            var b := BoxOf(fb.width, fb.height, rect);
            Drawable(s, b, |m|) && o + fb.pixsize <= |m|
            && PixelAt(BarMemory(m, s, b, ColumnColours(fb, component, b.x1, b.x2)), o, fb.pixsize)
               == ColumnColour(fb, component, z, b.x1, b.x2)
  {
    var s := ScreenOf(fb);
    var b := BoxOf(fb.width, fb.height, rect);
    ColumnStored(fb, component, z, b.x1, b.x2, ColumnColour(fb, component, z, b.x1, b.x2));
    ColumnPixel(m, s, b, ColumnColours(fb, component, b.x1, b.x2), y, z, o, ColumnColour(fb, component, z, b.x1, b.x2));
  }

  /** The same in numbers: what the pixel `p` of a bar is on 8, 15, 16, 24 and 32 bits. */
  lemma BarNumbers(m: seq<Byte>, fb: Framebuffer, b: Box, component: Component, y: nat, z: nat, o: nat, p: nat)
    requires PackedFormat(fb) && (fb.bpp == 8 || InitialLayout(fb)) && Drawable(ScreenOf(fb), b, |m|)
    requires b.x1 <= z < b.x2 && (y == b.y1 || b.y1 < y <= b.y2)
    requires o == RowStart(fb.pitch, y) + Blocks(fb.pixsize, z) && o + fb.pixsize <= |m|
    requires p == PixelAt(BarMemory(m, ScreenOf(fb), b, ColumnColours(fb, component, b.x1, b.x2)), o, fb.pixsize)
    ensures fb.bpp == 8 ==>
              && p == (z - b.x1) * 85 / (b.x2 - b.x1)
                      + (match component case Red => 1 case Green => 86 case Blue => 171)
              && match component case Red => 1 <= p <= 85 case Green => 86 <= p <= 170 case Blue => 171 <= p <= 255
    ensures fb.bpp != 8 ==>
              var t := (z - b.x1) * 256 / (b.x2 - b.x1);
              p == if fb.bpp == 15 then match component case Red => 0x400 * (t / 8)
                                                        case Green => 0x20 * (t / 8)
                                                        case Blue => t / 8
                   else if fb.bpp == 16 then match component case Red => 0x800 * (t / 8)
                                                             case Green => 0x20 * (t / 4)
                                                             case Blue => t / 8
                   else match component case Red => 0x1_0000 * t case Green => 0x100 * t case Blue => t
  {
    BarPixelIs(m, fb, b, component, y, z, o);
    if fb.bpp == 8 {
      PaletteColour(8, component, z, b.x1, b.x2);
    } else {
      FieldIs(fb, component, Ramp(z - b.x1, 256, b.x2 - b.x1));
    }
  }

  lemma BarPixelIs(m: seq<Byte>, fb: Framebuffer, b: Box, component: Component, y: nat, z: nat, o: nat)
    requires PackedFormat(fb) && (fb.bpp == 8 || InitialLayout(fb)) && Drawable(ScreenOf(fb), b, |m|)
    requires b.x1 <= z < b.x2 && (y == b.y1 || b.y1 < y <= b.y2)
    requires o == RowStart(fb.pitch, y) + Blocks(fb.pixsize, z) && o + fb.pixsize <= |m|
    ensures PixelAt(BarMemory(m, ScreenOf(fb), b, ColumnColours(fb, component, b.x1, b.x2)), o, fb.pixsize)
         == ColumnColour(fb, component, z, b.x1, b.x2)
  {
    var color := ColumnColour(fb, component, z, b.x1, b.x2);
    ColumnStored(fb, component, z, b.x1, b.x2, color);
    ColumnPixel(m, ScreenOf(fb), b, ColumnColours(fb, component, b.x1, b.x2), y, z, o, color);
  }

  lemma ColumnPixel(m: seq<Byte>, s: Screen, b: Box, cs: seq<nat>, y: nat, z: nat, o: nat, color: nat)
    requires Drawable(s, b, |m|) && |cs| == b.x2 - b.x1 + 1 && b.x1 <= z < b.x2
    requires y == b.y1 || b.y1 < y <= b.y2
    requires o == RowStart(s.pitch, y) + Blocks(s.pixsize, z)
    requires cs[z - b.x1] == color && Cell(s.pixsize, color) == color
    ensures o + s.pixsize <= |m| && PixelAt(BarMemory(m, s, b, cs), o, s.pixsize) == color
  {
    BarPixels(m, s, b, cs, y, z, o);
  }

  // ---------- the drawing itself ----------

  lemma {:induction false} ZeroField(n: nat, m: nat)
    ensures Left(Right(0, n), m) == 0
  {
    if n > 0 {
      ZeroField(n - 1, m);
    } else if m > 0 {
      ZeroField(0, m - 1);
    }
  }

  /** The three components of a column put together, two of them zero. */
  method TrueColumn(fb: Framebuffer, component: Component, x: nat, x1: nat, x2: nat) returns (color: nat)
    requires x1 <= x <= x2 && x1 < x2
    ensures color == Shade(fb, component, x, x1, x2)
  {
    var shade := (x - x1) * 256 / (x2 - x1);
    var r, g, b := 0, 0, 0;
    match component {
      case Red => r := shade;
      case Green => g := shade;
      case Blue => b := shade;
    }
    var l := fb.layout;
    ZeroField(l.rloss, l.rshift);
    ZeroField(l.gloss, l.gshift);
    ZeroField(l.bloss, l.bshift);
    color := Left(Right(r, l.rloss), l.rshift);
    color := color + Left(Right(g, l.gloss), l.gshift);
    color := color + Left(Right(b, l.bloss), l.bshift);
  }

  method Column(fb: Framebuffer, component: Component, x: nat, x1: nat, x2: nat, ghost cs: seq<nat>)
    returns (color: nat)
    requires x1 <= x <= x2 && x1 < x2 && cs == ColumnColours(fb, component, x1, x2)
    ensures color == cs[x - x1]
  {
    if fb.bpp == 8 {
      color := RampColumn(8, component, x, x1, x2);
    } else {
      color := TrueColumn(fb, component, x, x1, x2);
    }
  }

  /** The memory with the first `k` of the colours stored. */
  function PaintedTo(m: seq<Byte>, at: nat, n: nat, cs: seq<nat>, k: nat): seq<Byte>
    requires k <= |cs| && at + Blocks(n, |cs|) <= |m|
  {
    BlocksOrdered(n, k, |cs|);
    Painted(m, at, n, cs[..k])
  }

  lemma PaintedMore(m: seq<Byte>, at: nat, n: nat, cs: seq<nat>, k: nat, size: nat)
    requires k < |cs| == size && at + Blocks(n, size) <= |m|
    ensures Blocks(n, k) + n == Blocks(n, k + 1) <= Blocks(n, size)
    ensures |PaintedTo(m, at, n, cs, k)| == |m|
    ensures PaintedTo(m, at, n, cs, k + 1) == PutPixel(PaintedTo(m, at, n, cs, k), at + Blocks(n, k), n, cs[k])
  {
    BlocksOrdered(n, k + 1, size);
    assert cs[..k + 1][..k] == cs[..k];
  }

  /** Stores a byte, a word, three bytes or a long. */
  method Store(buffer: array<Byte>, o: nat, pixsize: nat, color: nat)
    requires 1 <= pixsize <= 4 && o + pixsize <= buffer.Length
    modifies buffer
    ensures buffer[..] == PutPixel(old(buffer[..]), o, pixsize, color)
  {
    var i := pixsize;
    var c := color;
    while i > 0
      invariant 0 <= i <= pixsize
      invariant PutPixel(buffer[..], o, i, c) == PutPixel(old(buffer[..]), o, pixsize, color)
    {
      i := i - 1;
      buffer[o + i] := c % 0x100;
      c := c / 0x100;
    }
  }

  /** The top line, one pixel after the other through a moving pointer. */
  method PaintColumns(buffer: array<Byte>, fb: Framebuffer, component: Component, x1: nat, x2: nat, at: nat,
                      ghost cs: seq<nat>)
    requires x1 != x2 && x1 <= x2 + 1 && 1 <= fb.pixsize <= 4 && cs == ColumnColours(fb, component, x1, x2)
    requires at + Blocks(fb.pixsize, x2 - x1 + 1) <= buffer.Length
    modifies buffer
    ensures buffer[..] == Painted(old(buffer[..]), at, fb.pixsize, cs)
  {
    var x := x1;
    var dst := at;
    ghost var k := 0;
    while x <= x2
      invariant x1 <= x == x1 + k <= x2 + 1 && dst == at + Blocks(fb.pixsize, k)
      invariant buffer[..] == PaintedTo(old(buffer[..]), at, fb.pixsize, cs, k)
    {
      PaintedMore(old(buffer[..]), at, fb.pixsize, cs, k, |cs|);
      var color := Column(fb, component, x, x1, x2, cs);
      Store(buffer, dst, fb.pixsize, color);
      dst := dst + fb.pixsize;
      x := x + 1;
      k := k + 1;
    }
    assert cs[..k] == cs;
  }

  lemma FormatFits(fb: Framebuffer, size: nat)
    requires fb.format.Packed? && (fb.bpp, fb.pixsize) in {(8, 1), (15, 2), (16, 2), (24, 3), (32, 4)}
    requires fb.width > 0 && fb.height > 0 && fb.width * fb.pixsize <= fb.pitch && fb.height * fb.pitch <= size
    ensures PackedFormat(fb) && Fits(ScreenOf(fb), size)
  {
    BlocksIsProduct(fb.pixsize, fb.width);
    BlocksIsProduct(fb.pitch, fb.height);
  }

  /** Draws the bar, unless clipping leaves it one pixel wide or high. */
  method DrawBar(buffer: array<Byte>, fb: Framebuffer, rect: Rect, component: Component)
    requires fb.format.Packed? && (fb.bpp, fb.pixsize) in {(8, 1), (15, 2), (16, 2), (24, 3), (32, 4)}
    requires fb.width > 0 && fb.height > 0
    requires fb.width * fb.pixsize <= fb.pitch && fb.height * fb.pitch <= buffer.Length
    requires var b := BoxOf(fb.width, fb.height, rect); b.x2 < b.x1 ==> b.y2 <= b.y1
    modifies buffer
    ensures var b := BoxOf(fb.width, fb.height, rect);
            if b.x1 == b.x2 || b.y1 == b.y2 then buffer[..] == old(buffer[..])
            else Drawable(ScreenOf(fb), b, buffer.Length)
                 && buffer[..] == BarMemory(old(buffer[..]), ScreenOf(fb), b,
                                            ColumnColours(fb, component, b.x1, b.x2))
  {
    FormatFits(fb, buffer.Length);
    var x1, y1, x2, y2 := ClipCorners(fb.width, fb.height, rect);
    if x1 == x2 || y1 == y2 {
      return;
    }
    DrawInside(buffer, fb, component, x1, y1, x2, y2, BoxOf(fb.width, fb.height, rect),
               ColumnColours(fb, component, x1, x2));
  }

  /** The bar inside the clipped corners. */
  method DrawInside(buffer: array<Byte>, fb: Framebuffer, component: Component, x1: nat, y1: nat, x2: nat, y2: nat,
                    ghost b: Box, ghost cs: seq<nat>)
    requires Drawable(ScreenOf(fb), b, buffer.Length) && b == Box(x1, y1, x2, y2)
    requires cs == ColumnColours(fb, component, x1, x2)
    modifies buffer
    ensures buffer[..] == BarMemory(old(buffer[..]), ScreenOf(fb), b, cs)
  {
    PaintTop(buffer, fb, component, x1, x2, y1, b, cs);
    BarIs(old(buffer[..]), ScreenOf(fb), b, cs, buffer[..], Blocks(fb.pixsize, x1), Blocks(fb.pixsize, Copied(b)));
    CopyBelow(buffer, ScreenOf(fb), x1, x2, y1, y2, Blocks(fb.pixsize, x1), Blocks(fb.pixsize, Copied(b)));
  }

  lemma BarIs(m: seq<Byte>, s: Screen, b: Box, cs: seq<nat>, top: seq<Byte>, a: nat, len: nat)
    requires Drawable(s, b, |m|) && |cs| == b.x2 - b.x1 + 1 && top == TopLine(m, s, b, cs)
    requires a == Blocks(s.pixsize, b.x1) && len == Blocks(s.pixsize, Copied(b))
    ensures a + len <= s.pitch && RowStart(s.pitch, b.y2) + s.pitch <= |top|
    ensures BarMemory(m, s, b, cs) == CopyRows(top, s.pitch, b.y1, a, len, b.y1 + 1, b.y2)
  {
    LineFits(s, b, |m|);
  }

  lemma TopIs(m: seq<Byte>, s: Screen, b: Box, cs: seq<nat>, at: nat)
    requires Drawable(s, b, |m|) && |cs| == b.x2 - b.x1 + 1 && at == LineAt(s, b)
    ensures at + Blocks(s.pixsize, |cs|) <= |m| && TopLine(m, s, b, cs) == Painted(m, at, s.pixsize, cs)
  {
    LineFits(s, b, |m|);
  }

  method PaintTop(buffer: array<Byte>, fb: Framebuffer, component: Component, x1: nat, x2: nat, y1: nat,
                  ghost b: Box, ghost cs: seq<nat>)
    requires Drawable(ScreenOf(fb), b, buffer.Length) && b.x1 == x1 && b.x2 == x2 && b.y1 == y1
    requires cs == ColumnColours(fb, component, x1, x2)
    modifies buffer
    ensures buffer[..] == TopLine(old(buffer[..]), ScreenOf(fb), b, cs)
  {
    var line := LineStart(fb.pitch, y1);
    TopIs(buffer[..], ScreenOf(fb), b, cs, line + Blocks(fb.pixsize, x1));
    PaintColumns(buffer, fb, component, x1, x2, line + Blocks(fb.pixsize, x1), cs);
  }

  /** Recopies the top line; without columns there are no lines below either. */
  method CopyBelow(buffer: array<Byte>, s: Screen, x1: nat, x2: nat, y1: nat, y2: nat, ghost a: nat, ghost len: nat)
    requires a == Blocks(s.pixsize, x1) && len == Blocks(s.pixsize, if x1 < x2 then x2 - x1 else 0)
    requires a + len <= s.pitch && (y1 < y2 ==> RowStart(s.pitch, y2) + s.pitch <= buffer.Length)
    modifies buffer
    ensures buffer[..] == CopyRows(old(buffer[..]), s.pitch, y1, a, len, y1 + 1, y2)
  {
    var line := LineStart(s.pitch, y1);
    var length := if x1 < x2 then Blocks(s.pixsize, x2 - x1) else 0;
    CopyDown(buffer, s.pitch, y1, y2, line + Blocks(s.pixsize, x1), length, a);
  }
}
