/** What every framebuffer format shares: clipping a rectangle to the screen, and the ramp of
    shades of a bar. */
module Ramps {

  datatype Rect = Rect(x: int, y: int, w: nat, h: nat)

  datatype Component = Red | Green | Blue

  // ---------- clipping and shades ----------

  function Clip(v: int, size: nat): (r: nat)
    requires size > 0
    ensures r < size
  {
    if v < 0 then 0 else if v >= size then size - 1 else v
  }

  /** Clipping both ends of a span of columns leaves exactly those of its columns that are on
      the screen, or the nearest one when none is. */
  lemma ClippedSpan(x: int, w: nat, size: nat, u: nat)
    requires w >= 1 && u < size
    ensures Clip(x, size) <= u <= Clip(x + w - 1, size)
       <==> x <= u < x + w || (x + w <= 0 && u == 0) || (x >= size && u == size - 1)
  {}

  /** The corners of a rectangle, each clipped to the screen. */
  datatype Box = Box(x1: nat, y1: nat, x2: nat, y2: nat)

  function BoxOf(width: nat, height: nat, rect: Rect): (b: Box)
    requires width > 0 && height > 0
    ensures b.x1 < width && b.x2 < width && b.y1 < height && b.y2 < height
    ensures b.x1 <= b.x2 + 1 && b.y1 <= b.y2 + 1
    ensures (rect.w > 0 ==> b.x1 <= b.x2) && (rect.h > 0 ==> b.y1 <= b.y2)
  {
    Box(Clip(rect.x, width), Clip(rect.y, height), Clip(rect.x + rect.w - 1, width), Clip(rect.y + rect.h - 1, height))
  }

  /** It holds exactly the pixels of the rectangle that are on the screen, or the nearest column
      or row when it is beside it. */
  lemma BoxHolds(width: nat, height: nat, rect: Rect, x: nat, y: nat)
    requires rect.w >= 1 && rect.h >= 1 && x < width && y < height
    ensures var b := BoxOf(width, height, rect);
            && (b.x1 <= x <= b.x2 <==> rect.x <= x < rect.x + rect.w || (rect.x + rect.w <= 0 && x == 0)
                                       || (rect.x >= width && x == width - 1))
            && (b.y1 <= y <= b.y2 <==> rect.y <= y < rect.y + rect.h || (rect.y + rect.h <= 0 && y == 0)
                                       || (rect.y >= height && y == height - 1))
  {
    ClippedSpan(rect.x, rect.w, width, x);
    ClippedSpan(rect.y, rect.h, height, y);
  }

  function Shades(planes: nat): nat {
    if planes == 2 then 1 else if planes == 4 then 5 else if planes == 8 then 85 else 1
  }

  function Offset(component: Component, shades: nat): nat {
    match component
    case Red => 0
    case Green => shades
    case Blue => 2 * shades
  }

  /** The shade of a column: `k` of `d` steps along a ramp of `n`. */
  function Ramp(k: nat, n: nat, d: nat): nat
    requires d > 0
  {
    k * n / d
  }

  /** The colour of column `x` of a bar from `x1` to `x2`. */
  function Colour(planes: nat, component: Component, x: nat, x1: nat, x2: nat): nat
    requires x1 <= x && x1 < x2
  {
    if planes == 2 then Offset(component, 1) + 1
    else 1 + Ramp(x - x1, Shades(planes), x2 - x1) + Offset(component, Shades(planes))
  }

  lemma RampDivision(k: nat, n: nat, d: nat)
    requires d > 0
    ensures Ramp(k, n, d) * d <= k * n < (Ramp(k, n, d) + 1) * d
  {
    var p := k * n;
    assert p == p / d * d + p % d;
    assert (p / d + 1) * d == p / d * d + d;
  }

  lemma Between(q: nat, s: int, d: nat)
    requires d > 0 && q * d < s * d
    ensures q < s
  {
    MulMonotone(s, q, d);
  }

  lemma MulMonotone(a: int, b: int, n: nat)
    ensures a <= b ==> a * n <= b * n
  {}

  /** Before its end a ramp stays below `n`. */
  lemma RampBelow(k: nat, n: nat, d: nat)
    requires k < d && n > 0
    ensures Ramp(k, n, d) < n
  {
    RampDivision(k, n, d);
    MulMonotone(k + 1, d, n);
    assert (k + 1) * n == k * n + n;
    Between(Ramp(k, n, d), n, d);
  }

  lemma RampMonotone(k: nat, l: nat, n: nat, d: nat)
    requires k <= l && d > 0
    ensures Ramp(k, n, d) <= Ramp(l, n, d)
  {
    RampDivision(k, n, d);
    RampDivision(l, n, d);
    MulMonotone(k, l, n);
    Between(Ramp(k, n, d), Ramp(l, n, d) + 1, d);
  }

  /** The last column is one past the last shade. */
  lemma RampEnd(n: nat, d: nat)
    requires d > 0
    ensures Ramp(d, n, d) == n
  {
    RampDivision(d, n, d);
    Between(Ramp(d, n, d), n + 1, d);
    assert (Ramp(d, n, d) + 1) * d > n * d;
    Between(n, Ramp(d, n, d) + 1, d);
  }

  /** A ramp with at least as many columns as shades takes every shade. */
  lemma RampReaches(s: nat, n: nat, d: nat) returns (k: nat)
    requires s < n <= d
    ensures k < d && Ramp(k, n, d) == s
  {
    k := (s * d + n - 1) / n;
    var p := s * d + n - 1;
    assert p == k * n + p % n;
    assert s * d <= k * n < s * d + n;
    assert (s + 1) * d == s * d + d;
    RampDivision(k, n, d);
    Between(Ramp(k, n, d), s + 1, d);
    assert (Ramp(k, n, d) + 1) * d > s * d;
    Between(s, Ramp(k, n, d) + 1, d);
    assert (s + 1) * d <= n * d by { MulMonotone(s + 1, n, d); }
    assert k * n < d * n;
    Between(k, d, n);
  }

  /** On a paletted screen each component keeps to its own shades, left to right without
      falling; only the last column is one past them. */
  lemma ComponentShades(planes: nat, component: Component, x: nat, z: nat, x1: nat, x2: nat)
    requires (planes == 4 || planes == 8) && x1 <= x <= z < x2
    ensures var n := if planes == 4 then 5 else 85;
            var o := match component case Red => 0 case Green => n case Blue => 2 * n;
            && o + 1 <= Colour(planes, component, x, x1, x2) <= Colour(planes, component, z, x1, x2) <= o + n
            && Colour(planes, component, x2, x1, x2) == o + n + 1
  {
    RampMonotone(x - x1, z - x1, Shades(planes), x2 - x1);
    RampBelow(z - x1, Shades(planes), x2 - x1);
    RampEnd(Shades(planes), x2 - x1);
  }

  /** The colours in numbers: with 4 bits red is 1 to 5, green 6 to 10 and blue 11 to 15, with 8
      bits 1 to 85, 86 to 170 and 171 to 255, and with 2 bits there is one of each. */
  lemma PaletteColour(planes: nat, component: Component, x: nat, x1: nat, x2: nat)
    requires x1 <= x < x2
    ensures var c := Colour(planes, component, x, x1, x2);
            && (planes == 2 ==> c == match component case Red => 1 case Green => 2 case Blue => 3)
            && (planes == 4 ==>
                  && c == (x - x1) * 5 / (x2 - x1) + (match component case Red => 1 case Green => 6 case Blue => 11)
                  && match component case Red => 1 <= c <= 5 case Green => 6 <= c <= 10 case Blue => 11 <= c <= 15)
            && (planes == 8 ==>
                  && c == (x - x1) * 85 / (x2 - x1) + (match component case Red => 1 case Green => 86 case Blue => 171)
                  && match component case Red => 1 <= c <= 85 case Green => 86 <= c <= 170 case Blue => 171 <= c <= 255)
  {
    RampBelow(x - x1, 5, x2 - x1);
    RampBelow(x - x1, 85, x2 - x1);
  }

  /** A bar wide enough shows every shade of its component. */
  lemma EveryShade(planes: nat, component: Component, shade: nat, x1: nat, x2: nat) returns (x: nat)
    requires (planes == 4 && x1 + 5 <= x2 && 1 <= shade <= 5) || (planes == 8 && x1 + 85 <= x2 && 1 <= shade <= 85)
    ensures x1 <= x < x2
    ensures var n := if planes == 4 then 5 else 85;
            var o := match component case Red => 0 case Green => n case Blue => 2 * n;
            Colour(planes, component, x, x1, x2) == o + shade
  {
    var k := RampReaches(shade - 1, Shades(planes), x2 - x1);
    x := x1 + k;
  }

  /** The colour of a column on a paletted screen. */
  method RampColumn(planes: nat, component: Component, x: nat, x1: nat, x2: nat) returns (color: nat)
    requires x1 <= x <= x2 && x1 < x2
    ensures color == Colour(planes, component, x, x1, x2)
  {
    if planes == 2 {
      return Offset(component, 1) + 1;
    }
    var numshades := Shades(planes);
    color := 1 + Ramp(x - x1, numshades, x2 - x1);
    match component
    case Red =>
    case Green => color := color + numshades;
    case Blue => color := color + 2 * numshades;
  }

  /** Direct rendering: the corners are clipped to the screen one by one. */
  method ClipCorners(width: nat, height: nat, rect: Rect) returns (x1: nat, y1: nat, x2: nat, y2: nat)
    requires width > 0 && height > 0
    ensures Box(x1, y1, x2, y2) == BoxOf(width, height, rect)
  {
    var left := rect.x;
    if left < 0 { left := 0; }
    if left >= width { left := width - 1; }
    var top := rect.y;
    if top < 0 { top := 0; }
    if top >= height { top := height - 1; }
    var right := rect.x + rect.w - 1;
    if right < 0 { right := 0; }
    if right >= width { right := width - 1; }
    var bottom := rect.y + rect.h - 1;
    if bottom < 0 { bottom := 0; }
    if bottom >= height { bottom := height - 1; }
    x1, y1, x2, y2 := left, top, right, bottom;
  }
}
