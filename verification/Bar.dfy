/** `RGB_DrawBar` on bit planes: what a shaded bar does to the whole of the video memory. */
module Bar {
  import opened Bits
  import opened Framebuffers
  import opened Machine
  import opened Planar
  import opened Ramps
  import opened Rows

  /** The screen: its size in pixels, how many planes, and the pitch in words. A line is groups
      of sixteen pixels, the last of which the screen may end inside. */
  datatype Screen = Screen(width: nat, height: nat, planes: nat, pitch: nat) {
    function Groups(): nat {
      (width + 15) / 16
    }
  }

  /** Lines of whole groups that fit the pitch. */
  predicate Planes(s: Screen) {
    Depth(s.planes) && s.width > 0 && s.height > 0 && Blocks(s.planes, s.Groups()) <= s.pitch
  }

  /** The pitch `RGB_InitFramebuffer` sets for bit planes, in bytes, is never more than a line of
      whole groups, and exactly that for the widths that are multiples of sixteen. */
  lemma InitialPitch(s: Screen, fb: Framebuffer)
    requires Depth(s.planes) && fb == InitFramebuffer(s.width, s.height, s.planes)
    ensures fb.format == Bitplanes && fb.pitch <= 2 * Blocks(s.planes, s.Groups())
    ensures fb.pitch == 2 * Blocks(s.planes, s.Groups()) <==> s.width % 16 == 0
  {
    BlocksIsProduct(s.planes, s.Groups());
    PitchOfWidth(s.width, s.planes);
  }

  lemma PitchOfWidth(width: nat, planes: nat)
    requires Depth(planes)
    ensures width * planes / 8 <= 2 * ((width + 15) / 16 * planes)
    ensures width * planes / 8 == 2 * ((width + 15) / 16 * planes) <==> width % 16 == 0
  {
    var g, r := width / 16, width % 16;
    BytesOfLine(g, r, planes, width);
    GroupsOfLine(g, r, width);
    assert (g + 1) * planes == g * planes + planes;
  }

  lemma GroupsOfLine(g: nat, r: nat, width: nat)
    requires width == 16 * g + r && r < 16
    ensures (width + 15) / 16 == if r == 0 then g else g + 1
  {}

  lemma BytesOfLine(g: nat, r: nat, planes: nat, width: nat)
    requires Depth(planes) && width == 16 * g + r && r < 16
    ensures width * planes / 8 == 2 * (g * planes) + r * planes / 8
    ensures r > 0 ==> r * planes / 8 < 2 * planes
  {
    if planes == 1 {
      assert width / 8 == 2 * g + r / 8;
    } else if planes == 2 {
      assert width * 2 / 8 == 4 * g + r * 2 / 8;
    } else if planes == 4 {
      assert width * 4 / 8 == 8 * g + r * 4 / 8;
    } else {
      assert width * 8 / 8 == 16 * g + r * 8 / 8;
    }
  }

  // ---------- one line ----------

  lemma GroupsMonotone(planes: nat, x: nat, z: nat)
    requires x <= z
    ensures PlaneWord(planes, x, planes) <= PlaneWord(planes, z, planes)
  {
    BlocksOrdered(planes, x / 16, z / 16);
  }

  /** The colours of the columns of a bar, from the first to the last. */
  function Columns(planes: nat, component: Component, x1: nat, x2: nat): (cs: seq<nat>)
    requires x1 != x2 && x1 <= x2 + 1
    ensures |cs| == x2 - x1 + 1
    ensures forall i | 0 <= i < |cs| :: cs[i] == Colour(planes, component, x1 + i, x1, x2)
  {
    seq<nat>(x2 - x1 + 1, i requires 0 <= i < x2 - x1 + 1 => Colour(planes, component, x1 + i, x1, x2))
  }

  /** Plots columns `x` to `x2` in the colours `cs` of columns `x1` to `x2`. */
  function PlotRun(m: seq<Word>, base: nat, planes: nat, cs: seq<nat>, x1: nat, x2: nat, x: nat): (r: seq<Word>)
    requires x1 <= x <= x2 + 1 && |cs| == x2 - x1 + 1 && base + PlaneWord(planes, x2, planes) <= |m|
    ensures |r| == |m|
    decreases x2 + 1 - x
  {
    if x > x2 then m
    else
      GroupsMonotone(planes, x, x2);
      PlotRun(Plotted(m, base, planes, x, cs[x - x1]), base, planes, cs, x1, x2, x + 1)
  }

  lemma {:induction false} PlotRunDecodes(m: seq<Word>, base: nat, planes: nat, cs: seq<nat>,
                                         x1: nat, x2: nat, x: nat, z: nat, i: nat)
    requires x1 <= x <= x2 + 1 && |cs| == x2 - x1 + 1 && base + PlaneWord(planes, x2, planes) <= |m|
    requires i < planes && base + PlaneWord(planes, z, i) < |m|
    ensures Decode(PlotRun(m, base, planes, cs, x1, x2, x), base, planes, z, i)
         == if x <= z <= x2 then Bit(cs[z - x1], i) else Decode(m, base, planes, z, i)
    decreases x2 + 1 - x
  {
    if x <= x2 {
      GroupsMonotone(planes, x, x2);
      PlotRunDecodes(Plotted(m, base, planes, x, cs[x - x1]), base, planes, cs, x1, x2, x + 1, z, i);
      PlotDecodes(m, base, planes, x, cs[x - x1], z, i);
    }
  }

  lemma PlottedFrame(m: seq<Word>, base: nat, planes: nat, x: nat, c: nat, k: nat)
    requires base + PlaneWord(planes, x, planes) <= |m| && k < |m|
    requires !(base + PlaneWord(planes, x, 0) <= k < base + PlaneWord(planes, x, planes))
    ensures Plotted(m, base, planes, x, c)[k] == m[k]
  {
    PutPlanesWords(m, base + PlaneWord(planes, x, 0), 15 - x % 16, c, 0, planes, k);
  }

  lemma {:induction false} PlotRunFrame(m: seq<Word>, base: nat, planes: nat, cs: seq<nat>,
                                       x1: nat, x2: nat, x: nat, k: nat)
    requires x1 <= x <= x2 + 1 && |cs| == x2 - x1 + 1 && base + PlaneWord(planes, x2, planes) <= |m|
    requires k < |m| && !(base + PlaneWord(planes, x, 0) <= k < base + PlaneWord(planes, x2, planes))
    ensures PlotRun(m, base, planes, cs, x1, x2, x)[k] == m[k]
    decreases x2 + 1 - x
  {
    if x <= x2 {
      GroupsMonotone(planes, x, x2);
      GroupsMonotone(planes, x, x + 1);
      PlottedFrame(m, base, planes, x, cs[x - x1], k);
      PlotRunFrame(Plotted(m, base, planes, x, cs[x - x1]), base, planes, cs, x1, x2, x + 1, k);
    }
  }

  // ---------- the whole bar ----------

  /** The groups of the columns of a box, from the first up to the last, which is left out when
      the last column is the first of its group. */
  function FirstGroup(b: Box): nat {
    b.x1 / 16
  }

  function EndGroup(b: Box): nat {
    b.x2 / 16 + (if b.x2 % 16 != 0 then 1 else 0)
  }

  /** A box inside the screen which is neither one pixel wide nor one high, although it may have
      no width or no height: then its last column or row is the one before its first. */
  predicate Drawable(s: Screen, b: Box, size: nat) {
    && Planes(s) && RowStart(s.pitch, s.height) <= size
    && b.x1 != b.x2 && b.y1 != b.y2 && b.x1 <= b.x2 + 1
    && b.x1 < s.width && b.x2 < s.width && b.y1 < s.height && b.y2 < s.height
  }

  /** Its columns are those of the box, with the first rounded down and the last up to a multiple
      of sixteen, and lie inside the line. */
  lemma GroupsFit(s: Screen, b: Box, size: nat)
    requires Drawable(s, b, size)
    ensures 16 * FirstGroup(b) <= b.x1 < 16 * FirstGroup(b) + 16
    ensures b.x2 <= 16 * EndGroup(b) < b.x2 + 16
    ensures FirstGroup(b) <= EndGroup(b) <= s.Groups() && b.x2 / 16 < s.Groups()
  {}

  /** Where the aligned span starts in its row, and its length, in words. */
  function SpanStart(planes: nat, b: Box): nat
  {
    Blocks(planes, FirstGroup(b))
  }

  function SpanWords(planes: nat, b: Box): nat
    requires FirstGroup(b) <= EndGroup(b)
  {
    Blocks(planes, EndGroup(b) - FirstGroup(b))
  }

  /** Everything the bar touches lies inside its rows, and its rows inside the memory. */
  lemma SpanFits(s: Screen, b: Box, size: nat)
    requires Drawable(s, b, size)
    ensures FirstGroup(b) <= EndGroup(b)
    ensures SpanStart(s.planes, b) + SpanWords(s.planes, b) <= Blocks(s.planes, s.Groups()) <= s.pitch
    ensures PlaneWord(s.planes, b.x2, s.planes) <= Blocks(s.planes, s.Groups())
    ensures RowStart(s.pitch, b.y1) + s.pitch <= size && RowStart(s.pitch, b.y2) + s.pitch <= size
  {
    GroupsFit(s, b, size);
    GroupsInLine(s, FirstGroup(b), EndGroup(b));
    BlocksApart(s.pitch, b.y1, s.height);
    BlocksApart(s.pitch, b.y2, s.height);
    BlocksApart(s.planes, b.x2 / 16, s.Groups());
  }

  lemma GroupsInLine(s: Screen, g1: nat, g2: nat)
    requires g1 <= g2 <= s.Groups()
    ensures Blocks(s.planes, g1) + Blocks(s.planes, g2 - g1) <= Blocks(s.planes, s.Groups())
  {
    BlocksSplit(s.planes, g1, g2);
    BlocksOrdered(s.planes, g2, s.Groups());
  }

  /** The memory with the top line of the bar drawn. */
  function TopLine(m: seq<Word>, s: Screen, b: Box, cs: seq<nat>): (r: seq<Word>)
    requires Drawable(s, b, |m|) && |cs| == b.x2 - b.x1 + 1
    ensures |r| == |m|
  {
    SpanFits(s, b, |m|);
    if s.planes == 1
    then Filled(m, RowStart(s.pitch, b.y1) + SpanStart(1, b), SpanWords(1, b), 0xffff)
    else PlotRun(m, RowStart(s.pitch, b.y1), s.planes, cs, b.x1, b.x2, b.x1)
  }

  /** The memory after the whole bar: the span of the top line is copied down. */
  function BarMemory(m: seq<Word>, s: Screen, b: Box, cs: seq<nat>): (r: seq<Word>)
    requires Drawable(s, b, |m|) && |cs| == b.x2 - b.x1 + 1
    ensures |r| == |m|
  {
    SpanFits(s, b, |m|);
    CopyRows(TopLine(m, s, b, cs), s.pitch, b.y1, SpanStart(s.planes, b), SpanWords(s.planes, b), b.y1 + 1, b.y2)
  }

  /** A pixel is in the span when its group is; then, and only then, are its words. */
  predicate InSpan(b: Box, z: nat) {
    FirstGroup(b) <= z / 16 < EndGroup(b)
  }

  lemma SpanHolds(planes: nat, g1: nat, g2: nat, z: nat, i: nat)
    requires i < planes && g1 <= g2
    ensures Blocks(planes, g1) <= PlaneWord(planes, z, i) < Blocks(planes, g1) + Blocks(planes, g2 - g1)
       <==> g1 <= z / 16 < g2
  {
    BlocksSplit(planes, g1, g2);
    if z / 16 < g1 {
      BlocksApart(planes, z / 16, g1);
    } else if z / 16 < g2 {
      BlocksOrdered(planes, g1, z / 16);
      BlocksApart(planes, z / 16, g2);
    } else {
      BlocksOrdered(planes, g2, z / 16);
    }
  }

  lemma PixelInLine(s: Screen, z: nat, i: nat)
    requires Planes(s) && z < s.width && i < s.planes
    ensures PlaneWord(s.planes, z, i) < Blocks(s.planes, s.Groups()) <= s.pitch
  {
    BlocksApart(s.planes, z / 16, s.Groups());
  }

  /** The colour bit the bar gives a pixel of its top line, or the one it had. */
  predicate TopBit(m: seq<Word>, s: Screen, b: Box, cs: seq<nat>, z: nat, i: nat)
    requires Drawable(s, b, |m|) && |cs| == b.x2 - b.x1 + 1 && RowStart(s.pitch, b.y1) + PlaneWord(s.planes, z, i) < |m|
  {
    if s.planes == 1 && InSpan(b, z) then true
    else if s.planes != 1 && b.x1 <= z <= b.x2 then Bit(cs[z - b.x1], i)
    else Decode(m, RowStart(s.pitch, b.y1), s.planes, z, i)
  }

  lemma OnesDecode(z: nat)
    ensures Bit(0xffff, 15 - z % 16)
  {
    OnesWord();
    OnesBit(16, 15 - z % 16);
  }

  lemma TopLineDecodes(m: seq<Word>, s: Screen, b: Box, cs: seq<nat>, z: nat, i: nat)
    requires Drawable(s, b, |m|) && |cs| == b.x2 - b.x1 + 1 && i < s.planes
    requires RowStart(s.pitch, b.y1) + PlaneWord(s.planes, z, i) < |m|
    ensures Decode(TopLine(m, s, b, cs), RowStart(s.pitch, b.y1), s.planes, z, i)
         == TopBit(m, s, b, cs, z, i)
  {
    SpanFits(s, b, |m|);
    if s.planes == 1 {
      SpanHolds(1, FirstGroup(b), EndGroup(b), z, i);
      OnesDecode(z);
    } else {
      PlotRunDecodes(m, RowStart(s.pitch, b.y1), s.planes, cs, b.x1, b.x2, b.x1, z, i);
    }
  }

  /** A word of another row, or of the padding, is not among the pixels of row `y`. */
  lemma OutsideLine(pitch: nat, pixels: nat, y: nat, r: nat, w: nat)
    requires w < pitch && pixels <= pitch && (r != y || w >= pixels)
    ensures !(RowStart(pitch, y) <= RowStart(pitch, r) + w < RowStart(pitch, y) + pixels)
  {
    if r < y {
      BlocksApart(pitch, r, y);
    } else if r > y {
      BlocksApart(pitch, y, r);
    }
  }

  /** Drawing the top line leaves every other row alone, and the padding of its own. */
  lemma TopLineFrame(m: seq<Word>, s: Screen, b: Box, cs: seq<nat>, r: nat, w: nat)
    requires Drawable(s, b, |m|) && |cs| == b.x2 - b.x1 + 1 && w < s.pitch && RowStart(s.pitch, r) + w < |m|
    requires r != b.y1 || w >= Blocks(s.planes, s.Groups())
    ensures TopLine(m, s, b, cs)[RowStart(s.pitch, r) + w] == m[RowStart(s.pitch, r) + w]
  {
    SpanFits(s, b, |m|);
    OutsideLine(s.pitch, Blocks(s.planes, s.Groups()), b.y1, r, w);
    if s.planes != 1 {
      PlotRunFrame(m, RowStart(s.pitch, b.y1), s.planes, cs, b.x1, b.x2, b.x1, RowStart(s.pitch, r) + w);
    }
  }

  /** A word of the memory after the whole bar. */
  lemma BarWord(m: seq<Word>, s: Screen, b: Box, cs: seq<nat>, y: nat, w: nat, a: nat, len: nat)
    requires Drawable(s, b, |m|) && |cs| == b.x2 - b.x1 + 1 && w < s.pitch && RowStart(s.pitch, y) + w < |m|
    requires FirstGroup(b) <= EndGroup(b) && a == SpanStart(s.planes, b) && len == SpanWords(s.planes, b)
    ensures RowStart(s.pitch, b.y1) + w < |m|
    ensures BarMemory(m, s, b, cs)[RowStart(s.pitch, y) + w]
         == if b.y1 < y <= b.y2 && a <= w < a + len
            then TopLine(m, s, b, cs)[RowStart(s.pitch, b.y1) + w]
            else TopLine(m, s, b, cs)[RowStart(s.pitch, y) + w]
  {
    SpanFits(s, b, |m|);
    CopyRowsCell(TopLine(m, s, b, cs), s.pitch, b.y1, a, len, b.y1 + 1, b.y2, y, w);
  }

  /** What every pixel of the screen decodes to after the bar: inside the bar's rows the
      aligned span shows the top line; in the top row the bar's last column is drawn even
      where the span ends before it; everything else is as it was. */
  lemma BarPixels(m: seq<Word>, s: Screen, b: Box, cs: seq<nat>, y: nat, z: nat, i: nat)
    requires Drawable(s, b, |m|) && |cs| == b.x2 - b.x1 + 1 && y < s.height && z < s.width && i < s.planes
    ensures RowStart(s.pitch, y) + PlaneWord(s.planes, z, i) < |m|
    ensures RowStart(s.pitch, b.y1) + PlaneWord(s.planes, z, i) < |m|
    ensures Decode(BarMemory(m, s, b, cs), RowStart(s.pitch, y), s.planes, z, i)
         == if y == b.y1 || (b.y1 < y <= b.y2 && InSpan(b, z))
            then TopBit(m, s, b, cs, z, i)
            else Decode(m, RowStart(s.pitch, y), s.planes, z, i)
  {
    PixelInLine(s, z, i);
    PixelWord(m, s, b, cs, y, z, i, PlaneWord(s.planes, z, i));
    TopLineDecodes(m, s, b, cs, z, i);
    if y == b.y1 || (b.y1 < y <= b.y2 && InSpan(b, z)) {
      SameWord(BarMemory(m, s, b, cs), RowStart(s.pitch, y), TopLine(m, s, b, cs), RowStart(s.pitch, b.y1),
               s.planes, z, i);
    } else {
      TopLineFrame(m, s, b, cs, y, PlaneWord(s.planes, z, i));
      SameWord(BarMemory(m, s, b, cs), RowStart(s.pitch, y), m, RowStart(s.pitch, y), s.planes, z, i);
    }
  }

  lemma SameWord(r: seq<Word>, o: nat, m: seq<Word>, o': nat, planes: nat, z: nat, i: nat)
    requires o + PlaneWord(planes, z, i) < |r| && o' + PlaneWord(planes, z, i) < |m|
    requires r[o + PlaneWord(planes, z, i)] == m[o' + PlaneWord(planes, z, i)]
    ensures Decode(r, o, planes, z, i) == Decode(m, o', planes, z, i)
  {}

  /** The word of a pixel after the whole bar. */
  lemma PixelWord(m: seq<Word>, s: Screen, b: Box, cs: seq<nat>, y: nat, z: nat, i: nat, w: nat)
    requires Drawable(s, b, |m|) && |cs| == b.x2 - b.x1 + 1 && y < s.height && i < s.planes
    requires w == PlaneWord(s.planes, z, i) && w < s.pitch
    ensures RowStart(s.pitch, y) + w < |m| && RowStart(s.pitch, b.y1) + w < |m|
    ensures BarMemory(m, s, b, cs)[RowStart(s.pitch, y) + w]
         == if b.y1 < y <= b.y2 && InSpan(b, z) then TopLine(m, s, b, cs)[RowStart(s.pitch, b.y1) + w]
            else TopLine(m, s, b, cs)[RowStart(s.pitch, y) + w]
  {
    BlocksApart(s.pitch, y, s.height);
    GroupsFit(s, b, |m|);
    SpanHolds(s.planes, FirstGroup(b), EndGroup(b), z, i);
    BarWord(m, s, b, cs, y, w, SpanStart(s.planes, b), SpanWords(s.planes, b));
  }

  /** The padding behind the pixels of a row, and everything behind the screen, is left alone. */
  lemma BarFrame(m: seq<Word>, s: Screen, b: Box, cs: seq<nat>, y: nat, w: nat)
    requires Drawable(s, b, |m|) && |cs| == b.x2 - b.x1 + 1 && w < s.pitch && RowStart(s.pitch, y) + w < |m|
    requires y >= s.height || w >= Blocks(s.planes, s.Groups())
    ensures BarMemory(m, s, b, cs)[RowStart(s.pitch, y) + w] == m[RowStart(s.pitch, y) + w]
  {
    SpanFits(s, b, |m|);
    BarWord(m, s, b, cs, y, w, SpanStart(s.planes, b), SpanWords(s.planes, b));
    TopLineFrame(m, s, b, cs, y, w);
  }

  lemma ColourFits(planes: nat, component: Component, z: nat, x1: nat, x2: nat)
    requires (planes == 2 || planes == 4 || planes == 8) && x1 <= z < x2
    ensures Colour(planes, component, z, x1, x2) < Colours(planes)
  {
    if planes != 2 {
      RampBelow(z - x1, Shades(planes), x2 - x1);
    }
  }

  /** Every pixel of the bar but its last column reads back as its shade. */
  lemma BarColours(m: seq<Word>, s: Screen, b: Box, component: Component, y: nat, z: nat)
    requires Drawable(s, b, |m|) && s.planes != 1 && b.x1 <= z < b.x2 && (y == b.y1 || b.y1 < y <= b.y2)
    ensures RowStart(s.pitch, y) + PlaneWord(s.planes, z, s.planes) <= |m|
    ensures Pixel(BarMemory(m, s, b, Columns(s.planes, component, b.x1, b.x2)), RowStart(s.pitch, y), s.planes, z)
         == Colour(s.planes, component, z, b.x1, b.x2)
  {
    var cs := Columns(s.planes, component, b.x1, b.x2);
    var c, r := Colour(s.planes, component, z, b.x1, b.x2), BarMemory(m, s, b, cs);
    assert cs[z - b.x1] == c;
    BlocksApart(s.pitch, y, s.height);
    PixelInLine(s, z, s.planes - 1);
    forall i | 0 <= i < s.planes ensures Decode(r, RowStart(s.pitch, y), s.planes, z, i) == Bit(c, i) {
      PixelInLine(s, z, i);
      BarPixels(m, s, b, cs, y, z, i);
    }
    PixelOfBits(r, RowStart(s.pitch, y), s.planes, z, c);
    ColourFits(s.planes, component, z, b.x1, b.x2);
    SmallModulo(c, Colours(s.planes));
  }

  /** The whole of `RGB_DrawBar` on more than one plane: every pixel of the clipped rectangle but
      its last column reads as the shade of its column. */
  lemma BarShades(m: seq<Word>, s: Screen, rect: Rect, component: Component, y: nat, z: nat)
    requires Planes(s) && s.planes != 1 && RowStart(s.pitch, s.height) <= |m|
    requires var b := BoxOf(s.width, s.height, rect); b.x1 <= z < b.x2 && b.y1 < b.y2 && b.y1 <= y <= b.y2
    ensures var b := BoxOf(s.width, s.height, rect);
            && Drawable(s, b, |m|)
            && RowStart(s.pitch, y) + PlaneWord(s.planes, z, s.planes) <= |m|
            && Pixel(BarMemory(m, s, b, Columns(s.planes, component, b.x1, b.x2)), RowStart(s.pitch, y), s.planes, z)
               == Colour(s.planes, component, z, b.x1, b.x2)
  {
    BarColours(m, s, BoxOf(s.width, s.height, rect), component, y, z);
  }

  /** The same in numbers: the colour number `p` a pixel of the bar reads as, for each component
      on 1, 2, 4 and 8 planes. */
  lemma BarRanges(m: seq<Word>, s: Screen, b: Box, component: Component, y: nat, z: nat, p: nat)
    requires Drawable(s, b, |m|) && b.x1 <= z < b.x2 && (y == b.y1 || b.y1 < y <= b.y2)
    requires RowStart(s.pitch, y) + PlaneWord(s.planes, z, s.planes) <= |m|
    requires p == Pixel(BarMemory(m, s, b, Columns(s.planes, component, b.x1, b.x2)), RowStart(s.pitch, y), s.planes, z)
    ensures s.planes == 1 ==> p == 1
    ensures s.planes == 2 ==> p == match component case Red => 1 case Green => 2 case Blue => 3
    ensures s.planes == 4 ==>
              && p == (z - b.x1) * 5 / (b.x2 - b.x1) + (match component case Red => 1 case Green => 6 case Blue => 11)
              && match component case Red => 1 <= p <= 5 case Green => 6 <= p <= 10 case Blue => 11 <= p <= 15
    ensures s.planes == 8 ==>
              && p == (z - b.x1) * 85 / (b.x2 - b.x1)
                      + (match component case Red => 1 case Green => 86 case Blue => 171)
              && match component case Red => 1 <= p <= 85 case Green => 86 <= p <= 170 case Blue => 171 <= p <= 255
  {
    if s.planes == 1 {
      BlackSpan(m, s, b, Columns(1, component, b.x1, b.x2), y, z);
    } else {
      BarColours(m, s, b, component, y, z);
      PaletteColour(s.planes, component, z, b.x1, b.x2);
    }
  }

  /** On one plane every pixel of the bar but its last column is black. */
  lemma BlackSpan(m: seq<Word>, s: Screen, b: Box, cs: seq<nat>, y: nat, z: nat)
    requires Drawable(s, b, |m|) && s.planes == 1 && |cs| == b.x2 - b.x1 + 1
    requires b.x1 <= z < b.x2 && (y == b.y1 || b.y1 < y <= b.y2)
    ensures RowStart(s.pitch, y) + PlaneWord(1, z, 1) <= |m|
    ensures Pixel(BarMemory(m, s, b, cs), RowStart(s.pitch, y), 1, z) == 1
  {
    BlocksApart(s.pitch, y, s.height);
    PixelInLine(s, z, 0);
    BarPixels(m, s, b, cs, y, z, 0);
    PixelOfBits(BarMemory(m, s, b, cs), RowStart(s.pitch, y), 1, z, 1);
  }

  /** A bar of no height still draws its top line, when that is inside the screen and not its
      first; a rectangle of no width still has a span, and on one plane it is drawn, exactly when
      its first column does not start a group or follow the first of one. */
  lemma EmptyBars(m: seq<Word>, s: Screen, rect: Rect, cs: seq<nat>)
    requires Planes(s) && RowStart(s.pitch, s.height) <= |m|
    ensures var b := BoxOf(s.width, s.height, rect);
            && (rect.h == 0 ==> (b.y1 != b.y2 <==> 0 < rect.y < s.height))
            && (rect.w == 0 ==> (b.x1 != b.x2 <==> 0 < rect.x < s.width))
            && (b.x1 != b.x2 && b.y1 != b.y2 ==>
                  && Drawable(s, b, |m|)
                  && (rect.w == 0 ==> (FirstGroup(b) < EndGroup(b) <==> rect.x % 16 > 1))
                  && (rect.h == 0 && |cs| == b.x2 - b.x1 + 1 ==> BarMemory(m, s, b, cs) == TopLine(m, s, b, cs)))
  {}

  lemma SmallModulo(c: nat, n: nat)
    requires c < n
    ensures c % n == c
  {}

  // ---------- the drawing itself ----------

  lemma ScreenFits(s: Screen, size: nat)
    requires s.planes in {1, 2, 4, 8} && s.width > 0 && s.height > 0
    requires (s.width + 15) / 16 * s.planes <= s.pitch && s.height * s.pitch <= size
    ensures Planes(s) && RowStart(s.pitch, s.height) <= size
  {
    BlocksIsProduct(s.planes, s.Groups());
    BlocksIsProduct(s.pitch, s.height);
  }

  /** Draws the bar, unless clipping leaves it one pixel wide or high. */
  method DrawBar(buffer: array<Word>, s: Screen, rect: Rect, component: Component)
    requires s.planes in {1, 2, 4, 8} && s.width > 0 && s.height > 0
    requires (s.width + 15) / 16 * s.planes <= s.pitch && s.height * s.pitch <= buffer.Length
    modifies buffer
    ensures var b := BoxOf(s.width, s.height, rect);
            if b.x1 == b.x2 || b.y1 == b.y2 then buffer[..] == old(buffer[..])
            else Drawable(s, b, buffer.Length)
                 && buffer[..] == BarMemory(old(buffer[..]), s, b, Columns(s.planes, component, b.x1, b.x2))
  {
    ScreenFits(s, buffer.Length);
    var x1, y1, x2, y2 := ClipCorners(s.width, s.height, rect);
    if x1 == x2 || y1 == y2 {
      return;
    }
    DrawInside(buffer, s, component, x1, y1, x2, y2, BoxOf(s.width, s.height, rect));
  }

  /** The bar inside the clipped corners. */
  method DrawInside(buffer: array<Word>, s: Screen, component: Component, x1: nat, y1: nat, x2: nat, y2: nat,
                    ghost b: Box)
    requires Drawable(s, b, buffer.Length) && b == Box(x1, y1, x2, y2)
    modifies buffer
    ensures buffer[..] == BarMemory(old(buffer[..]), s, b, Columns(s.planes, component, b.x1, b.x2))
  {
    SpanFits(s, b, buffer.Length);
    var line := LineStart(s.pitch, y1);
    var screen, length := AlignedSpan(s.planes, line, x1, x2, b);
    DrawTop(buffer, s, component, x1, x2, line, screen, length, b, Columns(s.planes, component, x1, x2));
    CopyDown(buffer, s.pitch, y1, y2, screen, length, SpanStart(s.planes, b));
  }

  /** The top line: one plane gets a black span, more planes a shade per column. */
  method DrawTop(buffer: array<Word>, s: Screen, component: Component, x1: nat, x2: nat,
                 line: nat, screen: nat, length: nat, ghost b: Box, ghost cs: seq<nat>)
    requires Drawable(s, b, buffer.Length) && x1 == b.x1 && x2 == b.x2 && FirstGroup(b) <= EndGroup(b)
    requires cs == Columns(s.planes, component, x1, x2) && line == RowStart(s.pitch, b.y1)
    requires screen == line + SpanStart(s.planes, b) && length == SpanWords(s.planes, b)
    modifies buffer
    ensures buffer[..] == TopLine(old(buffer[..]), s, b, cs)
  {
    SpanFits(s, b, buffer.Length);
    if s.planes == 1 {
      FillCells(buffer, screen, length, 0xffff);
    } else {
      PlotColumns(buffer, line, s.planes, component, x1, x2, cs);
    }
  }

  /** The span of the bar in its line: the first column rounded down and the last rounded
      up to a multiple of sixteen. */
  method AlignedSpan(planes: nat, line: nat, x1: nat, x2: nat, ghost b: Box) returns (screen: nat, length: nat)
    requires b.x1 == x1 && b.x2 == x2 && FirstGroup(b) <= EndGroup(b)
    ensures screen == line + SpanStart(planes, b) && length == SpanWords(planes, b)
  {
    var xx1 := x1 - x1 % 16;
    var xx2 := x2 - x2 % 16;
    if x2 % 16 != 0 {
      xx2 := xx2 + 16;
    }
    assert xx1 == 16 * FirstGroup(b) && xx2 == 16 * EndGroup(b);
    screen := line + Blocks(planes, xx1 / 16);
    length := Blocks(planes, (xx2 - xx1) / 16);
  }

  /** The top line, one pixel after the other. */
  method PlotColumns(buffer: array<Word>, line: nat, planes: nat, component: Component, x1: nat, x2: nat,
                     ghost cs: seq<nat>)
    requires Depth(planes) && x1 != x2 && x1 <= x2 + 1 && line + PlaneWord(planes, x2, planes) <= buffer.Length
    requires cs == Columns(planes, component, x1, x2)
    modifies buffer
    ensures buffer[..] == PlotRun(old(buffer[..]), line, planes, cs, x1, x2, x1)
  {
    var x := x1;
    while x <= x2
      invariant x1 <= x <= x2 + 1
      invariant PlotRun(buffer[..], line, planes, cs, x1, x2, x)
             == PlotRun(old(buffer[..]), line, planes, cs, x1, x2, x1)
    {
      GroupsMonotone(planes, x, x2);
      var color := RampColumn(planes, component, x, x1, x2);
      Plot(buffer, line, planes, x, color);
      x := x + 1;
    }
  }
}
