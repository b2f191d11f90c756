/**
  Pixel packing. A screenshot pixel is three 8-bit channels (red, green,
  blue); the recogniser packs them into one 24-bit colour token held in a
  32-bit word, which is what a tube stores for each unit of colour.
 */
module Pixels {

  /**
    An 8-bit channel, already widened to the 32-bit word it is shifted in
    (the source converts each `u8` channel to `u32` before packing).
   */
  type Byte = x: bv32 | x < 0x100

  /** One RGB pixel, channel by channel, as the image library hands it out. */
  datatype Rgb = Rgb(r: Byte, g: Byte, b: Byte)

  /** Colour a tube is drawn in; the first pixel of this colour marks a tube. */
  const TubeMarker: bv32 := 0xBCBCBC

  /** Packs a pixel as red << 16 | green << 8 | blue, in 32-bit arithmetic. */
  function Pack(p: Rgb): (c: bv32)
  {
    (p.r << 16) | (p.g << 8) | p.b
  }

  /** Reads the three channels back out of a packed colour. */
  function Unpack(c: bv32): (p: Rgb)
  {
    Rgb((c >> 16) & 0xFF, (c >> 8) & 0xFF, c & 0xFF)
  }

  /** The packing stays below 2^24 and each channel sits in its own byte. */
  lemma PackChannels(p: Rgb)
    ensures Pack(p) < 0x100_0000
    ensures (Pack(p) >> 16) & 0xFF == p.r
    ensures (Pack(p) >> 8) & 0xFF == p.g
    ensures Pack(p) & 0xFF == p.b
  {
  }

  /** Unpacking a packed pixel gives the pixel back. */
  lemma UnpackPack(p: Rgb)
    ensures Unpack(Pack(p)) == p
  {
    PackChannels(p);
  }

  /** Every value below 2^24 is the packing of the pixel it unpacks to. */
  lemma PackUnpack(c: bv32)
    requires c < 0x100_0000
    ensures Pack(Unpack(c)) == c
  {
  }

  /** Distinct pixels pack to distinct colours. */
  lemma PackInjective(p: Rgb, q: Rgb)
    ensures Pack(p) == Pack(q) <==> p == q
  {
    if Pack(p) == Pack(q) {
      UnpackPack(p);
      UnpackPack(q);
    }
  }

  lemma ShiftSixteen(x: Byte)
    ensures x << 16 == x * 0x1_0000
  {
  }

  lemma ShiftEight(x: Byte)
    ensures x << 8 == x * 0x100
  {
  }

  /** The three shifted channels occupy disjoint bits, so or-ing them adds them. */
  lemma PackIsSum(p: Rgb)
    ensures Pack(p) == (p.r << 16) + (p.g << 8) + p.b
  {
  }

  /**
    The packed value is r * 65536 + g * 256 + b; the sum stays below 2^24,
    so the 32-bit arithmetic here never wraps and this is the exact number.
   */
  lemma PackArithmetic(p: Rgb)
    ensures Pack(p) == p.r * 0x1_0000 + p.g * 0x100 + p.b
    ensures Pack(p) < 0x100_0000
  {
    PackChannels(p);
    calc {
      Pack(p);
      { PackIsSum(p); }
      (p.r << 16) + (p.g << 8) + p.b;
      { ShiftSixteen(p.r); }
      p.r * 0x1_0000 + (p.g << 8) + p.b;
      { ShiftEight(p.g); }
      p.r * 0x1_0000 + p.g * 0x100 + p.b;
    }
  }

  /** A pixel packs to the tube marker exactly when all three channels are 0xBC. */
  lemma MarkerIsGrey(p: Rgb)
    ensures Pack(p) == TubeMarker <==> p == Rgb(0xBC, 0xBC, 0xBC)
  {
    PackInjective(p, Rgb(0xBC, 0xBC, 0xBC));
  }
}
