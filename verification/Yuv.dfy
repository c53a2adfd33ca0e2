/** Colour arithmetic of the converters: fixed-point YUV to RGB and back, and the packing of pixels (little endian). */
module Yuv {

  type Byte = n: int | 0 <= n < 256

  function Clamp(x: int): (c: Byte)
    ensures 0 <= x <= 255 ==> c == x
    ensures x < 0 ==> c == 0
    ensures x > 255 ==> c == 255
  {
    if x > 255 then 255 else if x < 0 then 0 else x
  }

  /** A right shift by 8 rounds down, for negative values too. */
  function Shift8(x: int): int {
    x / 256
  }

  function Red(y: int, u: int, v: int): Byte {
    Clamp(Shift8(298 * (y - 16) + 409 * (v - 128) + 128))
  }

  function Green(y: int, u: int, v: int): Byte {
    Clamp(Shift8(298 * (y - 16) - 100 * (u - 128) - 208 * (v - 128) + 128))
  }

  function Blue(y: int, u: int, v: int): Byte {
    Clamp(Shift8(298 * (y - 16) + 516 * (u - 128) + 128))
  }

  // The casts to uint8_t keep the low eight bits.

  function LumaOf(r: int, g: int, b: int): Byte {
    (Shift8(66 * r + 129 * g + 25 * b + 128) + 16) % 256
  }

  function ChromaUOf(r: int, g: int, b: int): Byte {
    (Shift8(-38 * r - 74 * g + 112 * b + 128) + 128) % 256
  }

  function ChromaVOf(r: int, g: int, b: int): Byte {
    (Shift8(112 * r - 94 * g - 18 * b + 128) + 128) % 256
  }

  /** No RGB colour needs the casts: luma and chroma stay within the studio range. */
  lemma LumaCastKeepsValue(r: Byte, g: Byte, b: Byte)
    ensures 16 <= LumaOf(r, g, b) == Shift8(66 * r + 129 * g + 25 * b + 128) + 16 <= 235
  {
  }

  lemma ChromaUCastKeepsValue(r: Byte, g: Byte, b: Byte)
    ensures 16 <= ChromaUOf(r, g, b) == Shift8(-38 * r - 74 * g + 112 * b + 128) + 128 <= 240
  {
  }

  lemma ChromaVCastKeepsValue(r: Byte, g: Byte, b: Byte)
    ensures 16 <= ChromaVOf(r, g, b) == Shift8(112 * r - 94 * g - 18 * b + 128) + 128 <= 240
  {
  }

  /** Converting to YUV and back moves red and green by at most 2 and blue by at most 3. */
  lemma RedComesBack(r: Byte, g: Byte, b: Byte)
    ensures -2 <= Red(LumaOf(r, g, b), ChromaUOf(r, g, b), ChromaVOf(r, g, b)) - r <= 2
  {
    LumaCastKeepsValue(r, g, b);
    ChromaVCastKeepsValue(r, g, b);
  }

  lemma GreenComesBack(r: Byte, g: Byte, b: Byte)
    ensures -2 <= Green(LumaOf(r, g, b), ChromaUOf(r, g, b), ChromaVOf(r, g, b)) - g <= 2
  {
    LumaCastKeepsValue(r, g, b);
    ChromaUCastKeepsValue(r, g, b);
    ChromaVCastKeepsValue(r, g, b);
  }

  lemma BlueComesBack(r: Byte, g: Byte, b: Byte)
    ensures -3 <= Blue(LumaOf(r, g, b), ChromaUOf(r, g, b), ChromaVOf(r, g, b)) - b <= 3
  {
    LumaCastKeepsValue(r, g, b);
    ChromaUCastKeepsValue(r, g, b);
  }

  /** Colours on which any other coefficient, offset or rounding would show. */
  lemma ReferenceColours()
    ensures Red(199, 221, 1) == 10 && Red(87, 19, 193) == 186 && Red(150, 232, 164) == 214
    ensures Green(209, 242, 228) == 99 && Green(152, 239, 210) == 48 && Green(152, 124, 206) == 97
    ensures Blue(208, 45, 184) == 56 && Blue(32, 120, 86) == 3
    ensures LumaOf(252, 195, 251) == 204 && LumaOf(215, 224, 2) == 185 && LumaOf(118, 110, 109) == 112
    ensures ChromaUOf(190, 218, 225) == 135 && ChromaUOf(77, 109, 177) == 163
    ensures ChromaVOf(178, 206, 191) == 117 && ChromaVOf(215, 114, 10) == 180
  {
  }

  // ---------- pixels ----------

  /** The union leaves the alpha byte unset, so a pixel is its low 24 bits. */
  function Pack32(r: Byte, g: Byte, b: Byte): int {
    r + 0x100 * g + 0x10000 * b
  }

  /** Five bits of red, six of green, five of blue, red lowest. */
  function Pack565(r: Byte, g: Byte, b: Byte): int {
    (b / 8 * 64 + g / 4) * 32 + r / 8
  }

  function Rgb32(y: Byte, u: Byte, v: Byte): int {
    Pack32(Red(y, u, v), Green(y, u, v), Blue(y, u, v))
  }

  function Rgb565(y: Byte, u: Byte, v: Byte): int {
    Pack565(Red(y, u, v), Green(y, u, v), Blue(y, u, v))
  }

  lemma Unpack(r: Byte, g: Byte, b: Byte)
    ensures Pack32(r, g, b) % 256 == r && Pack32(r, g, b) / 256 % 256 == g && Pack32(r, g, b) / 65536 == b
    ensures var w := Pack565(r, g, b); w % 32 == r / 8 && w / 32 % 64 == g / 4 && w / 2048 == b / 8
  {
    assert Pack32(r, g, b) / 256 == g + 256 * b;
    assert Pack565(r, g, b) / 32 == g / 4 + 64 * (b / 8);
  }

  /** The two pixel forms agree on the leading bits of every channel. */
  lemma FormsAgree(y: Byte, u: Byte, v: Byte)
    ensures Rgb565(y, u, v) % 32 == Rgb32(y, u, v) % 256 / 8
    ensures Rgb565(y, u, v) / 32 % 64 == Rgb32(y, u, v) / 256 % 256 / 4
    ensures Rgb565(y, u, v) / 2048 == Rgb32(y, u, v) / 65536 / 8
  {
    Unpack(Red(y, u, v), Green(y, u, v), Blue(y, u, v));
  }
}
