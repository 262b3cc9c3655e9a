/** How the detection table of `joystick/joypad.c` comes about. A joypad plugged straight into a
    port answers whenever its line is among those selected, so a key on it shows up at the other
    three pads too, through the selector words that a teamtap would tell apart. */
module Wiring {
  import opened Bits
  import opened Joypad
  import opened Machine
  import opened Teamtap

  // ---------- a joypad without a teamtap ----------

  /** Bit `l` of a selector is clear: the lines are active low. */
  predicate Off(n: nat, l: nat)
    requires l < 4
  {
    match l case 0 => n % 2 == 0 case 1 => n / 2 % 2 == 0 case 2 => n / 4 % 2 == 0 case 3 => n / 8 % 2 == 0
  }

  /** A selector word asks line `l` of a port. */
  predicate Low(sel: Word, port: nat, l: nat)
    requires l < 4
  {
    Off(if port == 0 then sel % 16 else sel / 16 % 16, l)
  }

  /** The keys held are `f` and `d` of line `l`: the port answers with them whenever that line is
      selected, alone or with others. */
  ghost predicate Plain(io: Word -> Reading, port: nat, l: nat, f: nat, d: nat)
    requires l < 4
  {
    forall sel: Word :: LineOf(port, io(sel)) == if Low(sel, port, l) then Line(f, d) else Line(0, 0)
  }

  /** With a teamtap the first pad answers to its own selector only. */
  ghost predicate Tapped(io: Word -> Reading, port: nat, l: nat, f: nat, d: nat)
    requires l < 4 && port < 2
  {
    forall sel: Word ::
      LineOf(port, io(sel))
      == if sel == (if port == 0 then [0xfffe, 0xfffd, 0xfffb, 0xfff7][l] else [0xffef, 0xffdf, 0xffbf, 0xff7f][l])
         then Line(f, d) else Line(0, 0)
  }

  /** One key of line `l`: one of its four directions, or its second fire button. */
  predicate OneKey(l: nat, f: nat, d: nat) {
    l < 4 && ((f == 0 && (d == 1 || d == 2 || d == 4 || d == 8)) || (f == 2 && d == 0))
  }

  /** The selector of line `j` of pad `q` asks line `l` too. */
  predicate Heard(q: nat, j: nat, l: nat)
    requires q < 4 && j < 4 && l < 4
  {
    Off([0xe, 0xd, 0xb, 7, 0, 1, 2, 3, 4, 5, 6, 8, 9, 0xa, 0xc, 0xf][4 * q + j], l)
  }

  /** What line `j` of pad `q` shows of keys `v` of line `l`. */
  function Part(v: nat, q: nat, j: nat, l: nat): (p: nat)
    requires q < 4 && j < 4 && l < 4
    ensures p <= v
  {
    if Heard(q, j, l) then v else 0
  }

  /** The word that makes of pad `q`. */
  function Shown(l: nat, f: nat, d: nat, q: nat): nat
    requires l < 4 && q < 4
  {
    FourNibbles(Part(d, q, 0, l), Part(d, q, 1, l), Part(d, q, 2, l), Part(d, q, 3, l))
    + FourPairs(Part(f, q, 0, l), Part(f, q, 1, l), Part(f, q, 2, l), Part(f, q, 3, l)) * 0x1_0000
  }

  lemma SelectorIs(k: nat)
    requires k < 16
    ensures Selector(k) == [0xe, 0xd, 0xb, 7, 0, 1, 2, 3, 4, 5, 6, 8, 9, 0xa, 0xc, 0xf][k]
  {}

  lemma NibblesOf(n: nat)
    requires n < 16
    ensures (0xfff0 + n) % 16 == n && (0xff0f + 16 * n) / 16 % 16 == n
  {}

  lemma SelectorNibble(port: nat, k: nat)
    requires port < 2 && k < 16
    ensures (if port == 0 then MaskAt(16 * port + k) % 16 else MaskAt(16 * port + k) / 16 % 16)
         == [0xe, 0xd, 0xb, 7, 0, 1, 2, 3, 4, 5, 6, 8, 9, 0xa, 0xc, 0xf][k]
  {
    SelectorIs(k);
    NibblesOf(Selector(k));
  }

  lemma SameLines(port: nat, q: nat, j: nat, l: nat)
    requires port < 2 && q < 4 && j < 4 && l < 4
    ensures Low(MaskAt(16 * port + 4 * q + j), port, l) <==> Heard(q, j, l)
  {
    SelectorNibble(port, 4 * q + j);
  }

  /** So pad `q` of a plain joypad reads as that word. */
  lemma PlainWord(io: Word -> Reading, port: nat, l: nat, f: nat, d: nat, q: nat)
    requires l < 4 && port < 2 && q < 4 && Plain(io, port, l, f, d)
    ensures Assembled(io, 4 * port + q, 4) == Shown(l, f, d, q)
  {
    forall j | 0 <= j < 4
      ensures LineAt(io, 4 * port + q, j) == Line(Part(f, q, j, l), Part(d, q, j, l))
    {
      SameLines(port, q, j, l);
      PlainLine(io, port, l, f, d, 4 * port + q, j, MaskAt(4 * (4 * port + q) + j));
    }
    AssembledIs(io, 4 * port + q, 4);
  }

  lemma PlainLine(io: Word -> Reading, port: nat, l: nat, f: nat, d: nat, pad: nat, j: nat, sel: Word)
    requires l < 4 && port < 2 && pad < 8 && pad / 4 == port && j < 4 && Plain(io, port, l, f, d)
    requires sel == MaskAt(4 * pad + j)
    ensures LineAt(io, pad, j) == if Low(sel, port, l) then Line(f, d) else Line(0, 0)
  {}

  // ---------- the detection table ----------

  /** The row of a key. */
  function RowOf(l: nat, f: nat, d: nat): (i: nat)
    requires OneKey(l, f, d)
    ensures i < 20
  {
    if f != 0 then [5, 6, 7, 4][l]
    else match l
         case 0 => if d == 1 then 0 else if d == 2 then 1 else if d == 4 then 2 else 3
         case 1 => if d == 1 then 17 else if d == 2 then 14 else if d == 4 then 11 else 8
         case 2 => if d == 1 then 18 else if d == 2 then 15 else if d == 4 then 12 else 9
         case 3 => if d == 1 then 19 else if d == 2 then 16 else if d == 4 then 13 else 10
  }

  lemma HeardFirst(l: nat)
    requires l < 4
    ensures Heard(0, 0, l) == (l == 0) && Heard(0, 1, l) == (l == 1)
         && Heard(0, 2, l) == (l == 2) && Heard(0, 3, l) == (l == 3)
    ensures Heard(1, 0, l) && Heard(1, 1, l) == (l != 0) && Heard(1, 2, l) == (l != 1) && Heard(1, 3, l) == (l > 1)
  {}

  lemma HeardLast(l: nat)
    requires l < 4
    ensures Heard(2, 0, l) == (l != 2) && Heard(2, 1, l) == (l == 1 || l == 3)
         && Heard(2, 2, l) == (l == 0 || l == 3) && Heard(2, 3, l) == (l != 3)
    ensures Heard(3, 0, l) == (l == 1 || l == 2) && Heard(3, 1, l) == (l == 0 || l == 2)
         && Heard(3, 2, l) == (l < 2) && !Heard(3, 3, l)
  {}

  /** The words of the four pads, for a key of each line. */
  lemma ShownAre(l: nat, f: nat, d: nat)
    requires l < 4
    ensures Shown(l, f, d, 0) == match l
      case 0 => d + 0x1_0000 * f
      case 1 => 0x10 * d + 0x4_0000 * f
      case 2 => 0x100 * d + 0x10_0000 * f
      case 3 => 0x1000 * d + 0x40_0000 * f
    ensures Shown(l, f, d, 1) == match l
      case 0 => 0x101 * d + 0x11_0000 * f
      case 1 => 0x11 * d + 0x5_0000 * f
      case 2 => 0x1111 * d + 0x55_0000 * f
      case 3 => 0x1111 * d + 0x55_0000 * f
    ensures Shown(l, f, d, 2) == match l
      case 0 => 0x1101 * d + 0x51_0000 * f
      case 1 => 0x1011 * d + 0x45_0000 * f
      case 2 => 0x1000 * d + 0x40_0000 * f
      case 3 => 0x111 * d + 0x15_0000 * f
    ensures Shown(l, f, d, 3) == match l
      case 0 => 0x110 * d + 0x14_0000 * f
      case 1 => 0x101 * d + 0x11_0000 * f
      case 2 => 0x11 * d + 0x5_0000 * f
      case 3 => 0
  {
    HeardFirst(l);
    HeardLast(l);
  }

  // The rows of the table for the keys of each line.

  lemma RowsOfFirst(f: nat, d: nat)
    requires OneKey(0, f, d)
    ensures RowAt(RowOf(0, f, d))
         == Row(d + 0x1_0000 * f, 0x101 * d + 0x11_0000 * f, 0x1101 * d + 0x51_0000 * f, 0x110 * d + 0x14_0000 * f)
  {}

  lemma RowsOfSecond(f: nat, d: nat)
    requires OneKey(1, f, d)
    ensures RowAt(RowOf(1, f, d))
         == Row(0x10 * d + 0x4_0000 * f, 0x11 * d + (if f == 2 then 0x2_0000 else 0),
                if d == 1 then 0x1001 else 0x1011 * d + 0x45_0000 * f, 0x101 * d + 0x11_0000 * f)
  {}

  lemma RowsOfThird(f: nat, d: nat)
    requires OneKey(2, f, d)
    ensures RowAt(RowOf(2, f, d))
         == Row(0x100 * d + 0x10_0000 * f, 0x1111 * d + 0x55_0000 * f, 0x1000 * d + 0x40_0000 * f,
                0x11 * d + 0x5_0000 * f)
  {}

  lemma RowsOfFourth(f: nat, d: nat)
    requires OneKey(3, f, d)
    ensures RowAt(RowOf(3, f, d))
         == Row(0x1000 * d + 0x40_0000 * f, 0x1111 * d + (if f == 2 then 0xa8_0000 else 0),
                0x111 * d + 0x15_0000 * f, 0)
  {}

  function KeyRow(l: nat, f: nat, d: nat): Row
    requires l < 4
  {
    match l
    case 0 => Row(d + 0x1_0000 * f, 0x101 * d + 0x11_0000 * f, 0x1101 * d + 0x51_0000 * f, 0x110 * d + 0x14_0000 * f)
    case 1 => Row(0x10 * d + 0x4_0000 * f, 0x11 * d + (if f == 2 then 0x2_0000 else 0),
                  if d == 1 then 0x1001 else 0x1011 * d + 0x45_0000 * f, 0x101 * d + 0x11_0000 * f)
    case 2 => Row(0x100 * d + 0x10_0000 * f, 0x1111 * d + 0x55_0000 * f, 0x1000 * d + 0x40_0000 * f,
                  0x11 * d + 0x5_0000 * f)
    case 3 => Row(0x1000 * d + 0x40_0000 * f, 0x1111 * d + (if f == 2 then 0xa8_0000 else 0),
                  0x111 * d + 0x15_0000 * f, 0)
  }

  lemma RowIs(l: nat, f: nat, d: nat)
    requires OneKey(l, f, d)
    ensures RowAt(RowOf(l, f, d)) == KeyRow(l, f, d)
  {
    match l
    case 0 => RowsOfFirst(f, d);
    case 1 => RowsOfSecond(f, d);
    case 2 => RowsOfThird(f, d);
    case 3 => RowsOfFourth(f, d);
  }

  lemma KeyRowInNumbers(l: nat, f: nat, d: nat, row: Row, s0: nat, s1: nat, s2: nat, s3: nat)
    requires OneKey(l, f, d) && row == KeyRow(l, f, d)
    requires s0 == match l case 0 => d + 0x1_0000 * f case 1 => 0x10 * d + 0x4_0000 * f
                           case 2 => 0x100 * d + 0x10_0000 * f case 3 => 0x1000 * d + 0x40_0000 * f
    requires s1 == match l case 0 => 0x101 * d + 0x11_0000 * f case 1 => 0x11 * d + 0x5_0000 * f
                           case _ => 0x1111 * d + 0x55_0000 * f
    requires s2 == match l case 0 => 0x1101 * d + 0x51_0000 * f case 1 => 0x1011 * d + 0x45_0000 * f
                           case 2 => 0x1000 * d + 0x40_0000 * f case 3 => 0x111 * d + 0x15_0000 * f
    requires s3 == match l case 0 => 0x110 * d + 0x14_0000 * f case 1 => 0x101 * d + 0x11_0000 * f
                           case 2 => 0x11 * d + 0x5_0000 * f case 3 => 0
    ensures row.key == s0 && row.ghosts3 == s3
    ensures f == 2 && l == 3 ==> row.ghosts1 + 0x2_0000 == s1
    ensures f == 2 && l == 1 ==> row.ghosts1 + 0x8_0000 == s1
    ensures !(f == 2 && (l == 1 || l == 3)) ==> row.ghosts1 == s1
    ensures row.ghosts2 + (if d == 1 && l == 1 then 0x10 else 0) == s2
  {}

  /** The table is what the wiring makes of a key: its key and ghost sets are the words of the
      four pads of a plain joypad. But three sets lack a key: the second fire button's and
      option's for the second pad, and the star's for the third. */
  lemma GhostsAreWiring(l: nat, f: nat, d: nat, row: Row)
    requires OneKey(l, f, d) && row == RowAt(RowOf(l, f, d))
    ensures row.key == Shown(l, f, d, 0) && row.ghosts3 == Shown(l, f, d, 3)
    ensures f == 2 && l == 3 ==> row.ghosts1 + 0x2_0000 == Shown(l, f, d, 1)
    ensures f == 2 && l == 1 ==> row.ghosts1 + 0x8_0000 == Shown(l, f, d, 1)
    ensures !(f == 2 && (l == 1 || l == 3)) ==> row.ghosts1 == Shown(l, f, d, 1)
    ensures row.ghosts2 + (if d == 1 && l == 1 then 0x10 else 0) == Shown(l, f, d, 2)
  {
    RowIs(l, f, d);
    ShownAre(l, f, d);
    KeyRowInNumbers(l, f, d, row, Shown(l, f, d, 0), Shown(l, f, d, 1), Shown(l, f, d, 2), Shown(l, f, d, 3));
  }

  // ---------- the verdict ----------

  /** The mask keeps a word that shows no fire button but the second one of each line. */
  lemma MaskKeeps(a: Line, b: Line, c: Line, d: Line, w: nat)
    requires a.Valid() && b.Valid() && c.Valid() && d.Valid()
    requires a.fire % 2 == 0 && b.fire % 2 == 0 && c.fire % 2 == 0 && d.fire % 2 == 0
    requires w == FourNibbles(a.directions, b.directions, c.directions, d.directions)
                  + FourPairs(a.fire, b.fire, c.fire, d.fire) * 0x1_0000
    ensures Masked(w) == w
  {
    WordBits(a, b, c, d, w, 0);
    LinesApart(a, b, c, d, FourNibbles(a.directions, b.directions, c.directions, d.directions),
               FourPairs(a.fire, b.fire, c.fire, d.fire));
    assert !Bit(w, 18) && !Bit(w, 20) && !Bit(w, 22);
    SmallPowers();
    assert Power(24) == 0x100_0000;
    forall n | 0 <= n < 24 ensures Bit(Masked(w), n) == Bit(w, n) {
      MaskedBits(w, n);
    }
    SameBits(Masked(w), w, 24);
  }

  /** One line of the word pad `q` shows. */
  function PartLine(l: nat, f: nat, d: nat, q: nat, j: nat): (line: Line)
    requires OneKey(l, f, d) && q < 4 && j < 4
    ensures line.Valid() && line.fire % 2 == 0
  {
    Line(Part(f, q, j, l), Part(d, q, j, l))
  }

  lemma ShownKept(l: nat, f: nat, d: nat, q: nat)
    requires OneKey(l, f, d) && q < 4
    ensures Masked(Shown(l, f, d, q)) == Shown(l, f, d, q)
  {
    MaskKeeps(PartLine(l, f, d, q, 0), PartLine(l, f, d, q, 1), PartLine(l, f, d, q, 2), PartLine(l, f, d, q, 3),
              Shown(l, f, d, q));
  }

  lemma FramePad(pads: seq<nat>, port: nat, q: nat)
    requires |pads| == 8 && port < 2 && q < 4
    ensures FrameOf(pads, port)[q] == pads[4 * port + q]
  {}

  lemma FrameWord(io: Word -> Reading, port: nat, q: nat, v: nat)
    requires port < 2 && q < 4 && Assembled(io, 4 * port + q, 4) == v && Masked(v) == v
    ensures FrameOf(PadWords(io), port)[q] == v
  {
    FramePad(PadWords(io), port, q);
  }

  lemma PlainFrame(io: Word -> Reading, port: nat, l: nat, f: nat, d: nat, q: nat)
    requires port < 2 && OneKey(l, f, d) && Plain(io, port, l, f, d) && q < 4
    ensures FrameOf(PadWords(io), port)[q] == Shown(l, f, d, q)
  {
    PlainWord(io, port, l, f, d, q);
    ShownKept(l, f, d, q);
    FrameWord(io, port, q, Shown(l, f, d, q));
  }

  lemma {:induction false} AndSelf(v: nat)
    ensures And(v, v) == v
  {
    if v > 0 {
      AndSelf(v / 2);
    }
  }

  /** Ghosts at one pad settle the verdict. */
  lemma GhostsDecide(fr: Frame, i: nat, row: Row)
    requires i < 20 && row == RowAt(i) && fr[0] == row.key
    requires fr[1] == row.ghosts1 || fr[2] == row.ghosts2
    ensures Decide(fr) == No
  {
    RowFound(i);
    AndSelf(row.ghosts1);
    AndSelf(row.ghosts2);
  }

  /** A joypad plugged straight into a port is judged right, whichever single key is held: there
      is no teamtap. */
  lemma PlainVerdict(io: Word -> Reading, port: nat, l: nat, f: nat, d: nat)
    requires port < 2 && OneKey(l, f, d) && Plain(io, port, l, f, d)
    ensures Decide(FrameOf(PadWords(io), port)) == No
  {
    PlainFrame(io, port, l, f, d, 0);
    PlainFrame(io, port, l, f, d, 1);
    PlainFrame(io, port, l, f, d, 2);
    var row := RowAt(RowOf(l, f, d));
    GhostsAreWiring(l, f, d, row);
    GhostsDecide(FrameOf(PadWords(io), port), RowOf(l, f, d), row);
  }

  // ---------- a joypad behind a teamtap ----------

  /** Line `j` of the four pads. */
  lemma TappedLine(io: Word -> Reading, port: nat, l: nat, f: nat, d: nat, q: nat, j: nat)
    requires l < 4 && port < 2 && q < 4 && j < 4 && Tapped(io, port, l, f, d)
    ensures LineAt(io, 4 * port + q, j) == if q == 0 && j == l then Line(f, d) else Line(0, 0)
  {
    MasksAre(4 * (4 * port + q) + j);
  }

  lemma OwnLine(io: Word -> Reading, port: nat, l: nat, f: nat, d: nat, j: nat)
    requires l < 4 && port < 2 && j < 4 && Tapped(io, port, l, f, d)
    ensures LineAt(io, 4 * port, j) == Line(Part(f, 0, j, l), Part(d, 0, j, l))
  {
    TappedLine(io, port, l, f, d, 0, j);
    HeardFirst(l);
  }

  lemma OwnWord(io: Word -> Reading, port: nat, l: nat, f: nat, d: nat, q: nat)
    requires l < 4 && port < 2 && q == 0 && Tapped(io, port, l, f, d)
    ensures Assembled(io, 4 * port + q, 4) == Shown(l, f, d, q)
  {
    OwnLine(io, port, l, f, d, 0);
    OwnLine(io, port, l, f, d, 1);
    OwnLine(io, port, l, f, d, 2);
    OwnLine(io, port, l, f, d, 3);
    AssembledIs(io, 4 * port + q, 4);
  }

  lemma OtherWord(io: Word -> Reading, port: nat, l: nat, f: nat, d: nat, q: nat)
    requires l < 4 && port < 2 && 0 < q < 4 && Tapped(io, port, l, f, d)
    ensures Assembled(io, 4 * port + q, 4) == 0
  {
    TappedLine(io, port, l, f, d, q, 0);
    TappedLine(io, port, l, f, d, q, 1);
    TappedLine(io, port, l, f, d, q, 2);
    TappedLine(io, port, l, f, d, q, 3);
    AssembledIs(io, 4 * port + q, 4);
  }

  lemma OwnFrame(io: Word -> Reading, port: nat, l: nat, f: nat, d: nat, q: nat)
    requires port < 2 && OneKey(l, f, d) && Tapped(io, port, l, f, d) && q == 0
    ensures FrameOf(PadWords(io), port)[q] == Shown(l, f, d, q)
  {
    OwnWord(io, port, l, f, d, q);
    ShownKept(l, f, d, q);
    FrameWord(io, port, q, Shown(l, f, d, q));
  }

  lemma NothingMasked()
    ensures Masked(0) == 0
  {}

  lemma OtherFrame(io: Word -> Reading, port: nat, l: nat, f: nat, d: nat, q: nat)
    requires port < 2 && OneKey(l, f, d) && Tapped(io, port, l, f, d) && 0 < q < 4
    ensures FrameOf(PadWords(io), port)[q] == 0
  {
    OtherWord(io, port, l, f, d, q);
    NothingMasked();
    FrameWord(io, port, q, 0);
  }

  lemma LaxLines(l: nat, f: nat, d: nat)
    requires OneKey(l, f, d)
    ensures Lax(RowOf(l, f, d)) <==> l == 3
  {}

  /** Behind a teamtap a single key of the first pad proves it, unless it is a key of the fourth
      line, which says there is none. */
  lemma TappedVerdict(io: Word -> Reading, port: nat, l: nat, f: nat, d: nat)
    requires port < 2 && OneKey(l, f, d) && Tapped(io, port, l, f, d)
    ensures Decide(FrameOf(PadWords(io), port)) == if l == 3 then No else Yes
  {
    OwnFrame(io, port, l, f, d, 0);
    OtherFrame(io, port, l, f, d, 1);
    OtherFrame(io, port, l, f, d, 2);
    OtherFrame(io, port, l, f, d, 3);
    GhostsAreWiring(l, f, d, RowAt(RowOf(l, f, d)));
    LaxLines(l, f, d);
    LoneKey(FrameOf(PadWords(io), port), RowOf(l, f, d));
  }
}
