/** The framebuffer record of `video/rgb.h` and its initialiser. */
module Framebuffers {

  datatype Format = Bitplanes | Vdi | Packed

  /** Losses turn an 8-bit component into its field's width, shifts move it into place. */
  datatype Layout = Layout(
    amask: nat, rmask: nat, gmask: nat, bmask: nat,
    aloss: nat, rloss: nat, gloss: nat, bloss: nat,
    ashift: nat, rshift: nat, gshift: nat, bshift: nat)

  datatype Framebuffer = Framebuffer(
    width: nat, height: nat, bpp: nat, pixsize: nat, pitch: nat, format: Format, layout: Layout)

  const NO_LAYOUT := Layout(0, 0, 0, 0, 8, 8, 8, 8, 0, 0, 0, 0)

  function InitFramebuffer(width: nat, height: nat, bpp: nat): (fb: Framebuffer)
    ensures fb.width == width && fb.height == height && fb.bpp == bpp
  {
    var pitch := width * bpp / 8;
    match bpp
    case 8 => Framebuffer(width, height, bpp, 1, pitch, Bitplanes, NO_LAYOUT)
    case 15 =>
      Framebuffer(width, height, bpp, 2, width * (bpp + 1) / 8, Packed,
                  Layout(0x8000, 0x7c00, 0x03e0, 0x001f, 7, 3, 3, 3, 15, 10, 5, 0))
    case 16 =>
      Framebuffer(width, height, bpp, 2, pitch, Packed,
                  Layout(0, 0xf800, 0x07e0, 0x001f, 8, 3, 2, 3, 0, 11, 5, 0))
    case 24 =>
      Framebuffer(width, height, bpp, 3, pitch, Packed,
                  Layout(0, 0xff_0000, 0xff00, 0xff, 8, 0, 0, 0, 0, 16, 8, 0))
    case 32 =>
      Framebuffer(width, height, bpp, 4, pitch, Packed,
                  Layout(0xff00_0000, 0xff_0000, 0xff00, 0xff, 0, 0, 0, 0, 24, 16, 8, 0))
    case _ => Framebuffer(width, height, bpp, 0, pitch, Bitplanes, NO_LAYOUT)
  }
}
