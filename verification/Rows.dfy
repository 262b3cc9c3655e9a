/** Memory as rows of cells: where blocks of a fixed size start, and what filling cells and
    copying a span from row to row does. */
module Rows {

  // ---------- blocks ----------

  /** The length of `n` blocks of `size` cells: groups of sixteen pixels, pixels, or rows. */
  function Blocks(size: nat, n: nat): nat {
    if n == 0 then 0 else Blocks(size, n - 1) + size
  }

  lemma {:induction false} BlocksIsProduct(size: nat, n: nat)
    ensures Blocks(size, n) == n * size
  {
    if n > 0 {
      BlocksIsProduct(size, n - 1);
      assert n * size == (n - 1) * size + size;
    }
  }

  lemma {:induction false} BlocksApart(size: nat, a: nat, b: nat)
    requires a < b
    ensures Blocks(size, a) + size <= Blocks(size, b)
  {
    if a < b - 1 {
      BlocksApart(size, a, b - 1);
    }
  }

  lemma BlocksOrdered(size: nat, a: nat, b: nat)
    requires a <= b
    ensures Blocks(size, a) <= Blocks(size, b)
  {
    if a < b {
      BlocksApart(size, a, b);
    }
  }

  lemma {:induction false} BlocksSplit(size: nat, a: nat, b: nat)
    requires a <= b
    ensures Blocks(size, a) + Blocks(size, b - a) == Blocks(size, b)
  {
    if a < b {
      BlocksSplit(size, a, b - 1);
    }
  }

  /** The cell where row `y` starts. */
  function RowStart(pitch: nat, y: nat): nat {
    Blocks(pitch, y)
  }

  // ---------- filling, copying ----------

  /** `memset`; in a word both bytes of `v` are the same. */
  function Filled<T>(m: seq<T>, from: nat, len: nat, v: T): (r: seq<T>)
    requires from + len <= |m|
    ensures |r| == |m|
    ensures forall k | 0 <= k < |m| :: r[k] == if from <= k < from + len then v else m[k]
  {
    if len == 0 then m else Filled(m, from, len - 1, v)[from + len - 1 := v]
  }

  /** `memcpy` inside the memory. */
  function Blit<T>(m: seq<T>, src: nat, dst: nat, len: nat): (r: seq<T>)
    requires src + len <= |m| && dst + len <= |m|
    ensures |r| == |m|
  {
    if len == 0 then m else Blit(m, src, dst, len - 1)[dst + len - 1 := m[src + len - 1]]
  }

  lemma {:induction false} BlitCell<T>(m: seq<T>, src: nat, dst: nat, len: nat, k: nat)
    requires src + len <= |m| && dst + len <= |m| && k < |m|
    ensures Blit(m, src, dst, len)[k] == if dst <= k < dst + len then m[src + (k - dst)] else m[k]
  {
    if len > 0 {
      BlitCell(m, src, dst, len - 1, k);
    }
  }

  /** Copies cells `a` to `a + len` of row `y1` to rows `y` to `y2`, none if `y2` is less. */
  function CopyRows<T>(m: seq<T>, pitch: nat, y1: nat, a: nat, len: nat, y: nat, y2: nat): (r: seq<T>)
    requires y1 < y && a + len <= pitch && (y <= y2 ==> RowStart(pitch, y2) + pitch <= |m|)
    ensures |r| == |m|
    decreases y2 + 1 - y
  {
    if y > y2 then m
    else
      BlocksOrdered(pitch, y, y2);
      BlocksOrdered(pitch, y1, y2);
      CopyRows(Blit(m, RowStart(pitch, y1) + a, RowStart(pitch, y) + a, len), pitch, y1, a, len, y + 1, y2)
  }

  lemma {:induction false} CopyRowsCell<T>(m: seq<T>, pitch: nat, y1: nat, a: nat, len: nat,
                                       y: nat, y2: nat, r: nat, w: nat)
    requires y1 < y && a + len <= pitch && (y <= y2 ==> RowStart(pitch, y2) + pitch <= |m|)
    requires w < pitch && RowStart(pitch, r) + w < |m| && RowStart(pitch, y1) + w < |m|
    ensures CopyRows(m, pitch, y1, a, len, y, y2)[RowStart(pitch, r) + w]
         == if y <= r <= y2 && a <= w < a + len then m[RowStart(pitch, y1) + w] else m[RowStart(pitch, r) + w]
    decreases y2 + 1 - y
  {
    if y <= y2 {
      BlocksOrdered(pitch, y1, y2);
      BlocksOrdered(pitch, y, y2);
      CopyRowsCell(Blit(m, RowStart(pitch, y1) + a, RowStart(pitch, y) + a, len), pitch, y1, a, len, y + 1, y2, r, w);
      BlitRow(m, pitch, y1, a, len, y, r, w);
      BlitRow(m, pitch, y1, a, len, y, y1, w);
    }
  }

  lemma BlitRow<T>(m: seq<T>, pitch: nat, y1: nat, a: nat, len: nat, y: nat, r: nat, w: nat)
    requires y1 < y && a + len <= pitch && RowStart(pitch, y) + pitch <= |m|
    requires w < pitch && RowStart(pitch, r) + w < |m|
    ensures RowStart(pitch, y1) + pitch <= |m|
    ensures Blit(m, RowStart(pitch, y1) + a, RowStart(pitch, y) + a, len)[RowStart(pitch, r) + w]
         == if r == y && a <= w < a + len then m[RowStart(pitch, y1) + w] else m[RowStart(pitch, r) + w]
  {
    BlocksOrdered(pitch, y1, y);
    var src, dst, k := RowStart(pitch, y1) + a, RowStart(pitch, y) + a, RowStart(pitch, r) + w;
    assert dst <= k < dst + len <==> r == y && a <= w < a + len by {
      if r < y {
        BlocksApart(pitch, r, y);
      } else if r > y {
        BlocksApart(pitch, y, r);
      }
    }
    BlitCell(m, src, dst, len, k);
    assert r == y ==> src + (k - dst) == RowStart(pitch, y1) + w;
  }

  /** Where `h` rows of `len` cells end, from cell `a` of row `y` on. */
  function RowsEnd(pitch: nat, a: nat, len: nat, y: nat, h: nat): nat {
    if h == 0 then 0 else RowStart(pitch, y + h - 1) + a + len
  }

  /** Fills cells `a` to `a + len` of `h` rows from row `y` on; the cells may go on in the next row. */
  function FilledRows<T>(m: seq<T>, pitch: nat, a: nat, len: nat, y: nat, h: nat, v: T): (r: seq<T>)
    requires RowsEnd(pitch, a, len, y, h) <= |m|
    ensures |r| == |m|
    decreases h
  {
    if h == 0 then m
    else
      BlocksOrdered(pitch, y, y + h - 1);
      FilledRows(Filled(m, RowStart(pitch, y) + a, len, v), pitch, a, len, y + 1, h - 1, v)
  }

  /** One of the rows covers the cell. */
  ghost predicate Covered(pitch: nat, a: nat, len: nat, y: nat, h: nat, k: nat) {
    exists r | y <= r < y + h :: RowStart(pitch, r) + a <= k < RowStart(pitch, r) + a + len
  }

  lemma CoveredFirst(pitch: nat, a: nat, len: nat, y: nat, h: nat, k: nat)
    requires h > 0
    ensures Covered(pitch, a, len, y, h, k)
       <==> RowStart(pitch, y) + a <= k < RowStart(pitch, y) + a + len || Covered(pitch, a, len, y + 1, h - 1, k)
  {
    if Covered(pitch, a, len, y, h, k) {
      var r :| y <= r < y + h && RowStart(pitch, r) + a <= k < RowStart(pitch, r) + a + len;
      assert r == y || y + 1 <= r;
    }
  }

  lemma {:induction false} FilledRowsAt<T>(m: seq<T>, pitch: nat, a: nat, len: nat, y: nat, h: nat, v: T, k: nat)
    requires RowsEnd(pitch, a, len, y, h) <= |m| && k < |m|
    ensures FilledRows(m, pitch, a, len, y, h, v)[k] == if Covered(pitch, a, len, y, h, k) then v else m[k]
    decreases h
  {
    if h > 0 {
      BlocksOrdered(pitch, y, y + h - 1);
      CoveredFirst(pitch, a, len, y, h, k);
      FilledRowsAt(Filled(m, RowStart(pitch, y) + a, len, v), pitch, a, len, y + 1, h - 1, v, k);
    }
  }

  /** Rows that stay inside the pitch cover their own cells. */
  lemma CoveredCell(pitch: nat, a: nat, len: nat, y: nat, h: nat, r: nat, w: nat)
    requires a + len <= pitch && w < pitch
    ensures Covered(pitch, a, len, y, h, RowStart(pitch, r) + w) <==> y <= r < y + h && a <= w < a + len
  {
    forall q | y <= q < y + h
      ensures RowStart(pitch, q) + a <= RowStart(pitch, r) + w < RowStart(pitch, q) + a + len
         <==> r == q && a <= w < a + len
    {
      RowCell(pitch, a, len, q, r, w);
    }
  }

  lemma FilledRowsCell<T>(m: seq<T>, pitch: nat, a: nat, len: nat, y: nat, h: nat, v: T, r: nat, w: nat)
    requires a + len <= pitch && RowsEnd(pitch, a, len, y, h) <= |m|
    requires w < pitch && RowStart(pitch, r) + w < |m|
    ensures FilledRows(m, pitch, a, len, y, h, v)[RowStart(pitch, r) + w]
         == if y <= r < y + h && a <= w < a + len then v else m[RowStart(pitch, r) + w]
  {
    FilledRowsAt(m, pitch, a, len, y, h, v, RowStart(pitch, r) + w);
    CoveredCell(pitch, a, len, y, h, r, w);
  }

  lemma RowCell(pitch: nat, a: nat, len: nat, y: nat, r: nat, w: nat)
    requires a + len <= pitch && w < pitch
    ensures RowStart(pitch, y) + a <= RowStart(pitch, r) + w < RowStart(pitch, y) + a + len
       <==> r == y && a <= w < a + len
  {
    if r < y {
      BlocksApart(pitch, r, y);
    } else if r > y {
      BlocksApart(pitch, y, r);
    }
  }

  // ---------- the loops ----------

  method LineStart(pitch: nat, y: nat) returns (line: nat)
    ensures line == RowStart(pitch, y)
  {
    BlocksIsProduct(pitch, y);
    line := y * pitch;
  }

  /** Recopies the line on the rest of the rectangle. */
  method CopyDown<T>(buffer: array<T>, pitch: nat, y1: nat, y2: nat, screen: nat, length: nat, ghost a: nat)
    requires a + length <= pitch && (y1 < y2 ==> RowStart(pitch, y2) + pitch <= buffer.Length)
    requires screen == RowStart(pitch, y1) + a
    modifies buffer
    ensures buffer[..] == CopyRows(old(buffer[..]), pitch, y1, a, length, y1 + 1, y2)
  {
    var y := y1 + 1;
    var dst := screen + pitch;
    while y <= y2
      invariant y1 < y
      invariant dst == RowStart(pitch, y) + a
      invariant CopyRows(buffer[..], pitch, y1, a, length, y, y2)
             == CopyRows(old(buffer[..]), pitch, y1, a, length, y1 + 1, y2)
    {
      BlocksApart(pitch, y1, y);
      BlocksOrdered(pitch, y, y2);
      CopyCells(buffer, screen, dst, length);
      dst := dst + pitch;
      y := y + 1;
    }
  }

  method FillCells<T>(buffer: array<T>, from: nat, len: nat, v: T)
    requires from + len <= buffer.Length
    modifies buffer
    ensures buffer[..] == Filled(old(buffer[..]), from, len, v)
  {
    var i := 0;
    while i < len
      invariant 0 <= i <= len
      invariant buffer[..] == Filled(old(buffer[..]), from, i, v)
    {
      buffer[from + i] := v;
      i := i + 1;
    }
  }

  method CopyCells<T>(buffer: array<T>, src: nat, dst: nat, len: nat)
    requires src + len <= dst && dst + len <= buffer.Length
    modifies buffer
    ensures buffer[..] == Blit(old(buffer[..]), src, dst, len)
  {
    var i := 0;
    while i < len
      invariant 0 <= i <= len
      invariant buffer[..] == Blit(old(buffer[..]), src, dst, i)
    {
      BlitCell(old(buffer[..]), src, dst, i, src + i);
      buffer[dst + i] := buffer[src + i];
      i := i + 1;
    }
  }

  method FillRows<T>(buffer: array<T>, pitch: nat, line: nat, a: nat, length: nat, ghost y1: nat, h: nat, v: T)
    requires RowsEnd(pitch, a, length, y1, h) <= buffer.Length && line == RowStart(pitch, y1)
    modifies buffer
    ensures buffer[..] == FilledRows(old(buffer[..]), pitch, a, length, y1, h, v)
  {
    var screen := line + a;
    var y := 0;
    while y < h
      invariant 0 <= y <= h && screen == RowStart(pitch, y1 + y) + a
      invariant RowsEnd(pitch, a, length, y1 + y, h - y) <= buffer.Length
      invariant FilledRows(buffer[..], pitch, a, length, y1 + y, h - y, v)
             == FilledRows(old(buffer[..]), pitch, a, length, y1, h, v)
    {
      BlocksOrdered(pitch, y1 + y, y1 + h - 1);
      FillCells(buffer, screen, length, v);
      screen := screen + pitch;
      y := y + 1;
    }
  }
}
