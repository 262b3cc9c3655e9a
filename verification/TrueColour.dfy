/** The true-colour shades of `RGB_DrawBar`, and the masks of `RGB_InitFramebuffer` they are
    meant for. */
module TrueColour {
  import opened Bits
  import opened Framebuffers
  import opened Ramps

  predicate TrueColourDepth(bpp: nat) {
    bpp == 15 || bpp == 16 || bpp == 24 || bpp == 32
  }

  /** What the record says of one component. */
  datatype Channel = Channel(mask: nat, loss: nat, shift: nat)

  function ChannelOf(l: Layout, component: Component): Channel {
    match component
    case Red => Channel(l.rmask, l.rloss, l.rshift)
    case Green => Channel(l.gmask, l.gloss, l.gshift)
    case Blue => Channel(l.bmask, l.bloss, l.bshift)
  }

  /** A shade cut to its channel's width and moved into place. */
  function Field(c: Channel, shade: nat): nat {
    Left(Right(shade, c.loss), c.shift)
  }

  /** A channel that keeps the bits left of an 8-bit shade, next to each other. */
  predicate Eight(c: Channel) {
    c.loss <= 8 && c.mask == Left(Ones(8 - c.loss), c.shift)
  }

  /** A value has no bits but those of the mask. */
  predicate Within(value: nat, mask: nat) {
    And(value, mask) == value
  }

  lemma {:induction false} RightFits(v: nat, n: nat, w: nat)
    requires n <= w
    ensures Right(v, n) <= Ones(w - n) <==> v <= Ones(w)
  {
    if n > 0 {
      RightFits(v / 2, n - 1, w - 1);
    }
  }

  lemma {:induction false} LeftSame(a: nat, b: nat, n: nat)
    requires Left(a, n) == Left(b, n)
    ensures a == b
  {
    if n > 0 {
      LeftSame(a, b, n - 1);
    }
  }

  /** Exactly the 8-bit shades stay inside their mask; there the bits kept can be read back. */
  lemma FieldInMask(c: Channel, shade: nat)
    requires Eight(c)
    ensures Within(Field(c, shade), c.mask) <==> shade <= Ones(8)
    ensures Right(Field(c, shade), c.shift) == Right(shade, c.loss)
  {
    var v, w := Right(shade, c.loss), 8 - c.loss;
    AndLeft(v, Ones(w), c.shift);
    RightFits(shade, c.loss, 8);
    RightOfLeft(v, c.shift);
    if And(Left(v, c.shift), c.mask) == Left(v, c.shift) {
      LeftSame(And(v, Ones(w)), v, c.shift);
    }
    if v <= Ones(w) {
      AndOnes(v, w);
    }
    AndBelow(v, Ones(w));
  }

  lemma Masks()
    ensures Ones(5) == 31 && Ones(6) == 63 && Ones(8) == 255
    ensures Left(31, 0) == 0x1f && Left(31, 5) == 0x3e0 && Left(31, 10) == 0x7c00 && Left(31, 11) == 0xf800
    ensures Left(63, 5) == 0x7e0
    ensures Left(255, 0) == 0xff && Left(255, 8) == 0xff00 && Left(255, 16) == 0xff_0000
  {}

  /** The channels `RGB_InitFramebuffer` sets are of that kind. */
  lemma InitialChannels(fb: Framebuffer, component: Component)
    requires InitialLayout(fb)
    ensures Eight(ChannelOf(fb.layout, component))
  {
    Masks();
  }

  /** A framebuffer with the layout and pixel size of its depth; its pitch is free. */
  predicate InitialLayout(fb: Framebuffer) {
    && TrueColourDepth(fb.bpp)
    && fb.layout == InitFramebuffer(0, 0, fb.bpp).layout && fb.pixsize == InitFramebuffer(0, 0, fb.bpp).pixsize
  }

  /** The masks in numbers: red lies above green and green above blue, and with the mask of the
      fourth component, which is above red or empty, they fill the bytes of a pixel. */
  lemma MasksFill(fb: Framebuffer)
    requires InitialLayout(fb)
    ensures var l := fb.layout;
            && fb.pixsize == (fb.bpp + 7) / 8
            && 0 < l.bmask < l.gmask < l.rmask && (l.amask == 0 || l.rmask < l.amask)
            && l.amask + l.rmask + l.gmask + l.bmask
               == (match fb.pixsize case 2 => 0xffff case 3 => 0xff_ffff case _ => 0xffff_ffff)
            && (l.aloss, l.ashift)
               == (if fb.bpp == 15 then (7, 15) else if fb.bpp == 32 then (0, 24) else (8, 0))
            && (fb.bpp == 15 ==> l.bmask == 31 && l.gmask == 31 * 32 && l.rmask == 31 * 1024)
            && (fb.bpp == 16 ==> l.bmask == 31 && l.gmask == 63 * 32 && l.rmask == 31 * 2048)
            && (fb.bpp == 24 || fb.bpp == 32 ==>
                  l.bmask == 255 && l.gmask == 255 * 0x100 && l.rmask == 255 * 0x1_0000)
  {}

  /** The initial pitch of packed pixels is a line of them. */
  lemma PitchIsLine(width: nat, height: nat, bpp: nat)
    requires bpp in {15, 16, 24, 32}
    ensures var fb := InitFramebuffer(width, height, bpp);
            InitialLayout(fb) && fb.format.Packed? && fb.pitch == width * fb.pixsize
  {}

  /** Any other depth is bit planes, without masks, and its pitch the bits of a line. */
  lemma OtherDepths(width: nat, height: nat, bpp: nat)
    requires bpp !in {15, 16, 24, 32}
    ensures var fb := InitFramebuffer(width, height, bpp);
            && fb.format.Bitplanes? && fb.pixsize == (if bpp == 8 then 1 else 0) && fb.pitch == width * bpp / 8
            && fb.layout == Layout(0, 0, 0, 0, 8, 8, 8, 8, 0, 0, 0, 0)
  {}

  lemma RightIs(v: nat)
    ensures Right(v, 0) == v && Right(v, 2) == v / 4 && Right(v, 3) == v / 8
  {
    assert Right(v, 2) == Right(v / 2, 1) && Right(v / 2, 1) == v / 2 / 2;
    assert Right(v, 3) == Right(v / 2, 2) && Right(v / 2, 2) == Right(v / 4, 1);
  }

  lemma LeftIs(v: nat)
    ensures Left(v, 0) == v && Left(v, 5) == 32 * v && Left(v, 8) == 0x100 * v
    ensures Left(v, 10) == 0x400 * v && Left(v, 11) == 0x800 * v && Left(v, 16) == 0x1_0000 * v
  {
    LeftIsProduct(v, 5);
    LeftIsProduct(v, 8);
    LeftIsProduct(v, 10);
    LeftIsProduct(v, 11);
    LeftIsProduct(v, 16);
    assert Power(5) == 32 && Power(8) == 0x100 && Power(10) == 0x400 && Power(11) == 0x800 && Power(16) == 0x1_0000;
  }

  /** The colour a shade gives, in numbers. */
  lemma FieldIs(fb: Framebuffer, component: Component, t: nat)
    requires InitialLayout(fb)
    ensures var color := Field(ChannelOf(fb.layout, component), t);
            color == if fb.bpp == 15 then match component case Red => 0x400 * (t / 8)
                                                          case Green => 0x20 * (t / 8)
                                                          case Blue => t / 8
                     else if fb.bpp == 16 then match component case Red => 0x800 * (t / 8)
                                                               case Green => 0x20 * (t / 4)
                                                               case Blue => t / 8
                     else match component case Red => 0x1_0000 * t case Green => 0x100 * t case Blue => t
  {
    RightIs(t);
    LeftIs(t);
    LeftIs(t / 4);
    LeftIs(t / 8);
  }

  /** The colour of column `x` of a bar from `x1` to `x2`. */
  function Shade(fb: Framebuffer, component: Component, x: nat, x1: nat, x2: nat): nat
    requires x1 <= x && x1 < x2
  {
    Field(ChannelOf(fb.layout, component), Ramp(x - x1, 256, x2 - x1))
  }

  /** What the bytes of a pixel keep of a colour. */
  function Cell(pixsize: nat, color: nat): nat {
    match pixsize
    case 1 => color % 0x100
    case 2 => color % 0x1_0000
    case 3 => color % 0x100_0000
    case _ => color % 0x1_0000_0000
  }

  lemma MaskFits(fb: Framebuffer, component: Component, color: nat)
    requires InitialLayout(fb) && color <= ChannelOf(fb.layout, component).mask
    ensures Cell(fb.pixsize, color) == color
  {}

  /** Exactly the colours below 256 shades stay inside their mask, and are stored whole. */
  lemma StoredInMask(fb: Framebuffer, component: Component, shade: nat, c: Channel)
    requires InitialLayout(fb) && c == ChannelOf(fb.layout, component)
    ensures Within(Field(c, shade), c.mask) <==> shade < 256
    ensures shade < 256 ==> Cell(fb.pixsize, Field(c, shade)) == Field(c, shade)
    ensures Right(Field(c, shade), c.shift) == Right(shade, c.loss)
  {
    InitialChannels(fb, component);
    FieldInMask(c, shade);
    Masks();
    if shade < 256 {
      AndBelow(Field(c, shade), c.mask);
      MaskFits(fb, component, Field(c, shade));
    }
  }

  lemma Overflows()
    ensures Right(256, 3) == 32 && Right(256, 2) == 64 && Right(256, 0) == 256
    ensures Left(32, 0) == 0x20 && Left(32, 5) == 0x400 && Left(32, 10) == 0x8000 && Left(32, 11) == 0x1_0000
    ensures Left(64, 5) == 0x800
    ensures Left(256, 0) == 0x100 && Left(256, 8) == 0x1_0000 && Left(256, 16) == 0x100_0000
  {}

  /** What is stored of a colour at 256: nothing of red on 16 and 24 bits, the whole of any other. */
  lemma OverflowCut(fb: Framebuffer, component: Component)
    requires InitialLayout(fb)
    ensures var color := Field(ChannelOf(fb.layout, component), 256);
            Cell(fb.pixsize, color) == if component.Red? && (fb.bpp == 16 || fb.bpp == 24) then 0 else color
  {
    Overflows();
  }

  lemma NothingIn(mask: nat)
    ensures And(0, mask) == 0
  {}

  /** So the stored pixel leaves the mask too, unless nothing is left of it. */
  lemma OverflowStored(fb: Framebuffer, component: Component, c: Channel, color: nat, cell: nat)
    requires InitialLayout(fb) && c == ChannelOf(fb.layout, component)
    requires color == Field(c, 256) && cell == Cell(fb.pixsize, color)
    ensures Within(cell, c.mask) <==> component.Red? && (fb.bpp == 16 || fb.bpp == 24)
  {
    StoredInMask(fb, component, 256, c);
    OverflowCut(fb, component);
    NothingIn(c.mask);
  }

  lemma ShadeStored(fb: Framebuffer, component: Component, shade: nat, c: Channel, color: nat, cell: nat)
    requires InitialLayout(fb) && c == ChannelOf(fb.layout, component) && shade <= 256
    requires color == Field(c, shade) && cell == Cell(fb.pixsize, color)
    ensures Within(color, c.mask) <==> shade < 256
    ensures Within(cell, c.mask) <==> shade < 256 || (component.Red? && (fb.bpp == 16 || fb.bpp == 24))
    ensures shade < 256 ==> cell == color
    ensures Right(color, c.shift) == Right(shade, c.loss)
  {
    StoredInMask(fb, component, shade, c);
    if shade == 256 {
      OverflowStored(fb, component, c, color, cell);
    }
  }

  /** Every column but the last keeps to its component's mask, is stored whole, and reads back
      as its shade. The colour of the last column always leaves the mask; the pixel stored for
      it does too, unless it is red on 16 or 24 bits, where the bytes of the pixel keep nothing
      of it. */
  lemma ShadesInMask(fb: Framebuffer, component: Component, x: nat, x1: nat, x2: nat)
    requires InitialLayout(fb) && x1 <= x <= x2 && x1 < x2
    ensures var c, color := ChannelOf(fb.layout, component), Shade(fb, component, x, x1, x2);
            var cell := Cell(fb.pixsize, color);
            && (Within(color, c.mask) <==> x < x2)
            && (Within(cell, c.mask) <==> x < x2 || (component.Red? && (fb.bpp == 16 || fb.bpp == 24)))
            && (x < x2 ==> cell == color)
            && Right(color, c.shift) == Right(Ramp(x - x1, 256, x2 - x1), c.loss)
  {
    if x < x2 {
      RampBelow(x - x1, 256, x2 - x1);
    } else {
      RampEnd(256, x2 - x1);
    }
    ShadeStored(fb, component, Ramp(x - x1, 256, x2 - x1), ChannelOf(fb.layout, component),
                Shade(fb, component, x, x1, x2), Cell(fb.pixsize, Shade(fb, component, x, x1, x2)));
  }
}
