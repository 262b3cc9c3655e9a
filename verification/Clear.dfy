/** `RGB_ClearScreen` and `RGB_ClearRect`: exactly which screens and rectangles they clear on bit
    planes, and that they clear any on packed pixels. */
module Clear {
  import opened Bar
  import opened Bits
  import opened Machine
  import Packed
  import opened Planar
  import opened Ramps
  import opened Rows

  // ---------- rectangles on bit planes ----------

  /** A rectangle whose cells lie in the memory; it is not clipped, and may leave the screen. */
  predicate InMemory(s: Screen, rect: Rect, size: nat) {
    && 0 <= rect.x && 0 <= rect.y
    && RowsEnd(s.pitch, Blocks(s.planes, rect.x / 16), Blocks(s.planes, rect.w / 16), rect.y, rect.h) <= size
  }

  /** The memory after clearing: both the start and the width of the rectangle are rounded
      down to a multiple of sixteen. */
  function RectMemory(m: seq<Word>, s: Screen, rect: Rect): (r: seq<Word>)
    requires InMemory(s, rect, |m|)
    ensures |r| == |m|
  {
    FilledRows(m, s.pitch, Blocks(s.planes, rect.x / 16), Blocks(s.planes, rect.w / 16), rect.y, rect.h, 0)
  }

  /** Every word afterwards, wherever the rectangle lies. */
  lemma RectWords(m: seq<Word>, s: Screen, rect: Rect, k: nat)
    requires InMemory(s, rect, |m|) && k < |m|
    ensures RectMemory(m, s, rect)[k]
         == if Covered(s.pitch, Blocks(s.planes, rect.x / 16), Blocks(s.planes, rect.w / 16), rect.y, rect.h, k)
            then 0 else m[k]
  {
    FilledRowsAt(m, s.pitch, Blocks(s.planes, rect.x / 16), Blocks(s.planes, rect.w / 16), rect.y, rect.h, 0, k);
  }

  /** A rectangle inside the screen. */
  predicate Inside(s: Screen, rect: Rect, size: nat) {
    && Planes(s) && RowStart(s.pitch, s.height) <= size
    && 0 <= rect.x && rect.x + rect.w <= s.width && 0 <= rect.y && rect.y + rect.h <= s.height
  }

  lemma SpanInside(s: Screen, rect: Rect, size: nat)
    requires Inside(s, rect, size)
    ensures Blocks(s.planes, rect.x / 16) + Blocks(s.planes, rect.w / 16) <= s.pitch
    ensures InMemory(s, rect, size)
  {
    GroupsInLine(s, rect.x / 16, rect.x / 16 + rect.w / 16);
    if rect.h > 0 {
      BlocksApart(s.pitch, rect.y + rect.h - 1, s.height);
    }
  }

  /** The pixels that are cleared. */
  predicate Wiped(rect: Rect, y: nat, z: nat)
    requires rect.x >= 0
  {
    rect.y <= y < rect.y + rect.h && rect.x / 16 <= z / 16 < rect.x / 16 + rect.w / 16
  }

  /** Every pixel of the screen after clearing. */
  lemma RectPixels(m: seq<Word>, s: Screen, rect: Rect, y: nat, z: nat, i: nat)
    requires Planes(s) && RowStart(s.pitch, s.height) <= |m| && y < s.height && z < s.width && i < s.planes
    requires 0 <= rect.x && rect.x + rect.w <= s.width && 0 <= rect.y && rect.y + rect.h <= s.height
    ensures InMemory(s, rect, |m|) && RowStart(s.pitch, y) + PlaneWord(s.planes, z, i) < |m|
    ensures Decode(RectMemory(m, s, rect), RowStart(s.pitch, y), s.planes, z, i)
         == (!(rect.y <= y < rect.y + rect.h && rect.x / 16 <= z / 16 < rect.x / 16 + rect.w / 16)
             && Decode(m, RowStart(s.pitch, y), s.planes, z, i))
  {
    PixelInLine(s, z, i);
    RectWord(m, s, rect, y, z, i, PlaneWord(s.planes, z, i));
    if Wiped(rect, y, z) {
      ZeroWord(RectMemory(m, s, rect), RowStart(s.pitch, y), s.planes, z, i);
    } else {
      SameWord(RectMemory(m, s, rect), RowStart(s.pitch, y), m, RowStart(s.pitch, y), s.planes, z, i);
    }
  }

  lemma ZeroWord(r: seq<Word>, o: nat, planes: nat, z: nat, i: nat)
    requires o + PlaneWord(planes, z, i) < |r| && r[o + PlaneWord(planes, z, i)] == 0
    ensures !Decode(r, o, planes, z, i)
  {
    ZeroBits(15 - z % 16);
  }

  lemma RectWord(m: seq<Word>, s: Screen, rect: Rect, y: nat, z: nat, i: nat, w: nat)
    requires Inside(s, rect, |m|) && y < s.height && i < s.planes && w == PlaneWord(s.planes, z, i) && w < s.pitch
    ensures InMemory(s, rect, |m|) && RowStart(s.pitch, y) + w < |m|
    ensures RectMemory(m, s, rect)[RowStart(s.pitch, y) + w]
         == if Wiped(rect, y, z) then 0 else m[RowStart(s.pitch, y) + w]
  {
    BlocksApart(s.pitch, y, s.height);
    RectCell(m, s, rect, y, w, Blocks(s.planes, rect.x / 16), Blocks(s.planes, rect.w / 16));
    SpanHolds(s.planes, rect.x / 16, rect.x / 16 + rect.w / 16, z, i);
  }

  lemma RectCell(m: seq<Word>, s: Screen, rect: Rect, y: nat, w: nat, a: nat, len: nat)
    requires Inside(s, rect, |m|) && w < s.pitch && RowStart(s.pitch, y) + w < |m|
    requires a == Blocks(s.planes, rect.x / 16) && len == Blocks(s.planes, rect.w / 16)
    ensures InMemory(s, rect, |m|)
    ensures RectMemory(m, s, rect)[RowStart(s.pitch, y) + w]
         == if rect.y <= y < rect.y + rect.h && a <= w < a + len then 0 else m[RowStart(s.pitch, y) + w]
  {
    SpanInside(s, rect, |m|);
    FilledRowsCell(m, s.pitch, a, len, rect.y, rect.h, 0, y, w);
  }

  /** Its whole rectangle, and nothing but it, is cleared exactly when it starts at a multiple
      of sixteen and is one wide; no other rectangle is cleared to its last column. */
  lemma RectExactly(rect: Rect)
    requires rect.x >= 0 && rect.w > 0 && rect.h > 0 && rect.y >= 0
    ensures (forall z | rect.x <= z < rect.x + rect.w :: Wiped(rect, rect.y, z))
       <==> rect.x % 16 == 0 && rect.w % 16 == 0
    ensures (forall z: nat :: Wiped(rect, rect.y, z) <==> rect.x <= z < rect.x + rect.w)
       <==> rect.x % 16 == 0 && rect.w % 16 == 0
  {
    var last := rect.x + rect.w - 1;
    assert Wiped(rect, rect.y, last) ==> last / 16 < rect.x / 16 + rect.w / 16;
  }

  /** Sixteen columns from the ninth on: the eight before them are cleared, their last eight
      are not. */
  lemma UnalignedRect()
    ensures var rect := Rect(8, 0, 16, 1);
            Wiped(rect, 0, 0) && Wiped(rect, 0, 15) && !Wiped(rect, 0, 16) && !Wiped(rect, 0, 23)
  {}

  /** `RGB_ClearRect` */
  method ClearRect(buffer: array<Word>, s: Screen, rect: Rect)
    requires InMemory(s, rect, buffer.Length)
    modifies buffer
    ensures buffer[..] == RectMemory(old(buffer[..]), s, rect)
  {
    var line := LineStart(s.pitch, rect.y);
    FillRows(buffer, s.pitch, line, Blocks(s.planes, rect.x / 16), Blocks(s.planes, rect.w / 16), rect.y, rect.h, 0);
  }

  // ---------- the screen on bit planes ----------

  /** The bytes of a line that are cleared. */
  function LineBytes(s: Screen): nat {
    s.width * s.planes / 8
  }

  /** The memory with `bytes` bytes cleared from word `from` on; the first byte of a word is its
      high one. */
  function ZeroedBytes(m: seq<Word>, from: nat, bytes: nat): (r: seq<Word>)
    requires from + (bytes + 1) / 2 <= |m|
    ensures |r| == |m|
  {
    var r := Filled(m, from, bytes / 2, 0);
    if bytes % 2 == 0 then r else r[from + bytes / 2 := r[from + bytes / 2] % 0x100]
  }

  lemma ZeroedByte(m: seq<Word>, from: nat, bytes: nat, k: nat)
    requires from + (bytes + 1) / 2 <= |m| && k < |m|
    ensures ZeroedBytes(m, from, bytes)[k] == ByteCut(m[k], k - from, bytes)
  {}

  /** What is left of word `w` of a line when its first `bytes` bytes are cleared. */
  function ByteCut(word: Word, w: int, bytes: nat): Word {
    if w < 0 || bytes <= 2 * w then word else if bytes == 2 * w + 1 then word % 0x100 else 0
  }

  /** The memory with that many bytes cleared in rows `y` up to `height`. */
  function ZeroedRows(m: seq<Word>, pitch: nat, bytes: nat, y: nat, height: nat): (r: seq<Word>)
    requires bytes <= 2 * pitch && RowStart(pitch, height) <= |m|
    ensures |r| == |m|
    decreases height - y
  {
    if y >= height then m
    else
      BlocksApart(pitch, y, height);
      ZeroedRows(ZeroedBytes(m, RowStart(pitch, y), bytes), pitch, bytes, y + 1, height)
  }

  lemma {:induction false} ZeroedRowsCell(m: seq<Word>, pitch: nat, bytes: nat, y: nat, height: nat, r: nat, w: nat)
    requires bytes <= 2 * pitch && RowStart(pitch, height) <= |m|
    requires w < pitch && RowStart(pitch, r) + w < |m|
    ensures ZeroedRows(m, pitch, bytes, y, height)[RowStart(pitch, r) + w]
         == if y <= r < height then ByteCut(m[RowStart(pitch, r) + w], w, bytes) else m[RowStart(pitch, r) + w]
    decreases height - y
  {
    if y < height {
      BlocksApart(pitch, y, height);
      ZeroedRowsCell(ZeroedBytes(m, RowStart(pitch, y), bytes), pitch, bytes, y + 1, height, r, w);
      RowBytes(m, pitch, bytes, y, r, w);
    }
  }

  lemma RowBytes(m: seq<Word>, pitch: nat, bytes: nat, y: nat, r: nat, w: nat)
    requires bytes <= 2 * pitch && RowStart(pitch, y) + pitch <= |m| && w < pitch && RowStart(pitch, r) + w < |m|
    ensures ZeroedBytes(m, RowStart(pitch, y), bytes)[RowStart(pitch, r) + w]
         == if r == y then ByteCut(m[RowStart(pitch, r) + w], w, bytes) else m[RowStart(pitch, r) + w]
  {
    ZeroedByte(m, RowStart(pitch, y), bytes, RowStart(pitch, r) + w);
    if r < y {
      BlocksApart(pitch, r, y);
    } else if r > y {
      BlocksApart(pitch, y, r);
    }
  }

  /** The memory after clearing the screen. */
  function ScreenMemory(m: seq<Word>, s: Screen): (r: seq<Word>)
    requires LineBytes(s) <= 2 * s.pitch && RowStart(s.pitch, s.height) <= |m|
    ensures |r| == |m|
  {
    ZeroedRows(m, s.pitch, LineBytes(s), 0, s.height)
  }

  /** A pixel's bit of a plane is cleared when the byte it is in is. */
  predicate ByteCleared(s: Screen, z: nat, i: nat) {
    2 * PlaneWord(s.planes, z, i) + z % 16 / 8 < LineBytes(s)
  }

  lemma LowByte(word: nat, n: nat)
    ensures Bit(word % 0x100, n) == (n < 8 && Bit(word, n))
  {
    var low, high := word % 0x100, word / 0x100;
    assert Power(8) == 0x100;
    LeftIsProduct(high, 8);
    LeftIsProduct(0, 8);
    BitsApart(low, high, 8, n);
    BitsApart(low, 0, 8, n);
    if n >= 8 {
      ZeroBits(n - 8);
    }
  }

  lemma CutBit(word: Word, w: nat, bytes: nat, x: nat)
    requires x < 16
    ensures Bit(ByteCut(word, w, bytes), 15 - x) == (2 * w + x / 8 >= bytes && Bit(word, 15 - x))
  {
    LowByte(word, 15 - x);
    ZeroBits(15 - x);
  }

  lemma LineBytesFit(s: Screen)
    requires Planes(s)
    ensures LineBytes(s) <= 2 * s.pitch
  {
    PitchOfWidth(s.width, s.planes);
    BlocksIsProduct(s.planes, s.Groups());
  }

  /** Every pixel after clearing the screen. */
  lemma ScreenPixels(m: seq<Word>, s: Screen, y: nat, z: nat, i: nat)
    requires Planes(s) && RowStart(s.pitch, s.height) <= |m| && y < s.height && z < s.width && i < s.planes
    ensures LineBytes(s) <= 2 * s.pitch && RowStart(s.pitch, y) + PlaneWord(s.planes, z, i) < |m|
    ensures Decode(ScreenMemory(m, s), RowStart(s.pitch, y), s.planes, z, i)
         == (!ByteCleared(s, z, i) && Decode(m, RowStart(s.pitch, y), s.planes, z, i))
  {
    LineBytesFit(s);
    PixelInLine(s, z, i);
    BlocksApart(s.pitch, y, s.height);
    ScreenWord(m, s, y, PlaneWord(s.planes, z, i), LineBytes(s));
    WordCut(m, ScreenMemory(m, s), RowStart(s.pitch, y), s.planes, z, i, LineBytes(s));
  }

  lemma ScreenWord(m: seq<Word>, s: Screen, y: nat, w: nat, bytes: nat)
    requires bytes == LineBytes(s) <= 2 * s.pitch && RowStart(s.pitch, s.height) <= |m|
    requires w < s.pitch && RowStart(s.pitch, y) + w < |m|
    ensures ScreenMemory(m, s)[RowStart(s.pitch, y) + w]
         == if y < s.height then ByteCut(m[RowStart(s.pitch, y) + w], w, bytes) else m[RowStart(s.pitch, y) + w]
  {
    ZeroedRowsCell(m, s.pitch, bytes, 0, s.height, y, w);
  }

  lemma WordCut(m: seq<Word>, r: seq<Word>, o: nat, planes: nat, z: nat, i: nat, bytes: nat)
    requires |r| == |m| && o + PlaneWord(planes, z, i) < |m|
    requires r[o + PlaneWord(planes, z, i)] == ByteCut(m[o + PlaneWord(planes, z, i)], PlaneWord(planes, z, i), bytes)
    ensures Decode(r, o, planes, z, i)
         == (2 * PlaneWord(planes, z, i) + z % 16 / 8 >= bytes && Decode(m, o, planes, z, i))
  {
    CutBit(m[o + PlaneWord(planes, z, i)], PlaneWord(planes, z, i), bytes, z % 16);
  }

  /** The padding of a line, and the memory behind the screen, is left alone. */
  lemma ScreenFrame(m: seq<Word>, s: Screen, y: nat, w: nat)
    requires LineBytes(s) <= 2 * s.pitch && RowStart(s.pitch, s.height) <= |m|
    requires w < s.pitch && RowStart(s.pitch, y) + w < |m| && (y >= s.height || LineBytes(s) <= 2 * w)
    ensures ScreenMemory(m, s)[RowStart(s.pitch, y) + w] == m[RowStart(s.pitch, y) + w]
  {
    ScreenWord(m, s, y, w, LineBytes(s));
  }

  /** The whole screen is cleared exactly when its width is a multiple of sixteen or, on a single
      plane, of eight. */
  lemma ScreenExactly(s: Screen)
    requires Planes(s)
    ensures (forall z, i | 0 <= z < s.width && 0 <= i < s.planes :: ByteCleared(s, z, i))
       <==> s.width % 16 == 0 || (s.planes == 1 && s.width % 8 == 0)
  {
    if s.width % 16 == 0 || (s.planes == 1 && s.width % 8 == 0) {
      forall z, i | 0 <= z < s.width && 0 <= i < s.planes ensures ByteCleared(s, z, i) {
        WholeScreen(s, z, i);
      }
    } else {
      LastPixelKept(s);
    }
  }

  /** Eight columns on two planes take two bytes, and both are those of the first plane's word. */
  lemma NarrowScreen(z: nat)
    requires z < 8
    ensures var s := Screen(8, 1, 2, 2); Planes(s) && ByteCleared(s, z, 0) && !ByteCleared(s, z, 1)
  {
    assert Blocks(2, 1) == 2;
  }

  lemma WholeScreen(s: Screen, z: nat, i: nat)
    requires Planes(s) && z < s.width && i < s.planes
    requires s.width % 16 == 0 || (s.planes == 1 && s.width % 8 == 0)
    ensures ByteCleared(s, z, i)
  {
    if s.width % 16 == 0 {
      BytesOfLine(s.width / 16, 0, s.planes, s.width);
      BlocksApart(s.planes, z / 16, s.width / 16);
      BlocksIsProduct(s.planes, s.width / 16);
    } else {
      BlocksIsProduct(1, z / 16);
    }
  }

  lemma LastPixelKept(s: Screen)
    requires Planes(s) && s.width % 16 != 0 && !(s.planes == 1 && s.width % 8 == 0)
    ensures !ByteCleared(s, s.width - 1, s.planes - 1)
  {
    var g, r := s.width / 16, s.width % 16;
    BeforeColumn(s.width, g, r);
    BlocksIsProduct(s.planes, g);
    BytesOfLine(g, r, s.planes, s.width);
    LastByte(r, s.planes);
  }

  lemma BeforeColumn(x: nat, g: nat, r: nat)
    requires x == 16 * g + r && 0 < r < 16
    ensures (x - 1) / 16 == g && (x - 1) % 16 == r - 1
  {}

  lemma LastByte(r: nat, planes: nat)
    requires Depth(planes) && 0 < r < 16 && !(planes == 1 && r == 8)
    ensures r * planes / 8 <= 2 * (planes - 1) + (r - 1) / 8
  {}

  /** Clears one line. */
  method ZeroBytes(buffer: array<Word>, from: nat, bytes: nat)
    requires from + (bytes + 1) / 2 <= buffer.Length
    modifies buffer
    ensures buffer[..] == ZeroedBytes(old(buffer[..]), from, bytes)
  {
    FillCells(buffer, from, bytes / 2, 0);
    if bytes % 2 != 0 {
      buffer[from + bytes / 2] := buffer[from + bytes / 2] % 0x100;
    }
  }

  /** `RGB_ClearScreen` */
  method ClearScreen(buffer: array<Word>, s: Screen)
    requires LineBytes(s) <= 2 * s.pitch && RowStart(s.pitch, s.height) <= buffer.Length
    modifies buffer
    ensures buffer[..] == ScreenMemory(old(buffer[..]), s)
  {
    ZeroLines(buffer, s.pitch, s.height, s.width * s.planes / 8);
  }

  method ZeroLines(buffer: array<Word>, pitch: nat, height: nat, length: nat)
    requires length <= 2 * pitch && RowStart(pitch, height) <= buffer.Length
    modifies buffer
    ensures buffer[..] == ZeroedRows(old(buffer[..]), pitch, length, 0, height)
  {
    var screen := 0;
    var y := 0;
    while y < height
      invariant 0 <= y <= height && screen == RowStart(pitch, y)
      invariant ZeroedRows(buffer[..], pitch, length, y, height)
             == ZeroedRows(old(buffer[..]), pitch, length, 0, height)
    {
      BlocksApart(pitch, y, height);
      ZeroBytes(buffer, screen, length);
      screen := screen + pitch;
      y := y + 1;
    }
  }

  // ---------- packed pixels ----------

  predicate PackedInMemory(s: Packed.Screen, rect: Rect, size: nat) {
    && 0 <= rect.x && 0 <= rect.y
    && RowsEnd(s.pitch, Blocks(s.pixsize, rect.x), Blocks(s.pixsize, rect.w), rect.y, rect.h) <= size
  }

  predicate InsidePacked(s: Packed.Screen, rect: Rect, size: nat) {
    && Packed.Fits(s, size)
    && 0 <= rect.x && rect.x + rect.w <= s.width && 0 <= rect.y && rect.y + rect.h <= s.height
  }

  lemma PackedSpan(s: Packed.Screen, rect: Rect, size: nat)
    requires InsidePacked(s, rect, size)
    ensures Blocks(s.pixsize, rect.x) + Blocks(s.pixsize, rect.w) <= s.pitch
    ensures PackedInMemory(s, rect, size)
  {
    BlocksSplit(s.pixsize, rect.x, rect.x + rect.w);
    BlocksOrdered(s.pixsize, rect.x + rect.w, s.width);
    if rect.h > 0 {
      BlocksApart(s.pitch, rect.y + rect.h - 1, s.height);
    }
  }

  /** The memory after clearing: the bytes of the rectangle. */
  function PackedMemory(m: seq<Byte>, s: Packed.Screen, rect: Rect): (r: seq<Byte>)
    requires PackedInMemory(s, rect, |m|)
    ensures |r| == |m|
  {
    FilledRows(m, s.pitch, Blocks(s.pixsize, rect.x), Blocks(s.pixsize, rect.w), rect.y, rect.h, 0)
  }

  /** Every byte afterwards, wherever the rectangle lies. */
  lemma PackedBytes(m: seq<Byte>, s: Packed.Screen, rect: Rect, k: nat)
    requires PackedInMemory(s, rect, |m|) && k < |m|
    ensures PackedMemory(m, s, rect)[k]
         == if Covered(s.pitch, Blocks(s.pixsize, rect.x), Blocks(s.pixsize, rect.w), rect.y, rect.h, k)
            then 0 else m[k]
  {
    FilledRowsAt(m, s.pitch, Blocks(s.pixsize, rect.x), Blocks(s.pixsize, rect.w), rect.y, rect.h, 0, k);
  }

  /** A byte of a pixel after clearing. */
  lemma PackedByte(m: seq<Byte>, s: Packed.Screen, rect: Rect, y: nat, z: nat, i: nat, w: nat)
    requires InsidePacked(s, rect, |m|) && i < s.pixsize && w == Blocks(s.pixsize, z) + i && w < s.pitch
    requires RowStart(s.pitch, y) + w < |m|
    ensures PackedInMemory(s, rect, |m|)
    ensures PackedMemory(m, s, rect)[RowStart(s.pitch, y) + w]
         == if rect.y <= y < rect.y + rect.h && rect.x <= z < rect.x + rect.w then 0 else m[RowStart(s.pitch, y) + w]
  {
    PackedSpan(s, rect, |m|);
    FilledRowsCell(m, s.pitch, Blocks(s.pixsize, rect.x), Blocks(s.pixsize, rect.w), rect.y, rect.h, 0, y, w);
    Packed.PixelBetween(s.pixsize, rect.x, rect.x + rect.w, z, i);
  }

  lemma {:induction false} ZeroPixel(m: seq<Byte>, o: nat, n: nat)
    requires o + n <= |m| && forall k | o <= k < o + n :: m[k] == 0
    ensures Packed.PixelAt(m, o, n) == 0
  {
    if n > 0 {
      ZeroPixel(m, o, n - 1);
    }
  }

  /** Every pixel of the screen after clearing: the rectangle and nothing else, however it lies. */
  lemma PackedPixels(m: seq<Byte>, s: Packed.Screen, rect: Rect, y: nat, z: nat, o: nat)
    requires Packed.Fits(s, |m|) && y < s.height && z < s.width
    requires 0 <= rect.x && rect.x + rect.w <= s.width && 0 <= rect.y && rect.y + rect.h <= s.height
    requires o == RowStart(s.pitch, y) + Blocks(s.pixsize, z)
    ensures PackedInMemory(s, rect, |m|) && o + s.pixsize <= |m|
    ensures Packed.PixelAt(PackedMemory(m, s, rect), o, s.pixsize)
         == if rect.y <= y < rect.y + rect.h && rect.x <= z < rect.x + rect.w then 0
            else Packed.PixelAt(m, o, s.pixsize)
  {
    Packed.PixelInRow(s, y, z, |m|);
    PackedSpan(s, rect, |m|);
    var r, n := PackedMemory(m, s, rect), s.pixsize;
    var wiped := rect.y <= y < rect.y + rect.h && rect.x <= z < rect.x + rect.w;
    forall k | o <= k < o + n ensures r[k] == if wiped then 0 else m[k] {
      PackedByte(m, s, rect, y, z, k - o, Blocks(n, z) + (k - o));
    }
    if wiped {
      ZeroPixel(r, o, n);
    } else {
      assert r[o..o + n] == m[o..o + n];
      Packed.SameBytes(r, o, m, o, n);
    }
  }

  /** `RGB_ClearRect` on packed pixels. */
  method ClearPackedRect(buffer: array<Byte>, s: Packed.Screen, rect: Rect)
    requires PackedInMemory(s, rect, buffer.Length)
    modifies buffer
    ensures buffer[..] == PackedMemory(old(buffer[..]), s, rect)
  {
    var line := LineStart(s.pitch, rect.y);
    FillRows(buffer, s.pitch, line, Blocks(s.pixsize, rect.x), Blocks(s.pixsize, rect.w), rect.y, rect.h, 0);
  }

  /** `RGB_ClearScreen` on packed pixels. */
  method ClearPackedScreen(buffer: array<Byte>, s: Packed.Screen)
    requires PackedInMemory(s, Rect(0, 0, s.width, s.height), buffer.Length)
    modifies buffer
    ensures buffer[..] == PackedMemory(old(buffer[..]), s, Rect(0, 0, s.width, s.height))
  {
    FillRows(buffer, s.pitch, 0, 0, Blocks(s.pixsize, s.width), 0, s.height, 0);
  }
}
