/**
 * Input-tensor packing (`processImageForInference`): the 224 x 224 pixels of the
 * resized face, each a packed ARGB Kotlin `Int`, become three normalised floats
 * (red, green, blue) each, written in pixel order into a direct `ByteBuffer` of
 * `4 * 224 * 224 * 3` bytes.
 *
 * Floats are modelled as exact reals: the rounding of `/ 255.0f` to 32 bits and
 * the byte encoding of each float are not modelled.
 */
module Packing {

  /** Kotlin `Int`: a signed 32-bit two's-complement value. */
  newtype Int32 = x: int | -0x8000_0000 <= x < 0x8000_0000

  /** `IMAGE_SIZE`: the edge length the face is scaled to. */
  const ImageSize: nat := 224

  /** Number of pixels of the scaled face (`IntArray(IMAGE_SIZE * IMAGE_SIZE)`). */
  const PixelCount: nat := ImageSize * ImageSize

  /** Capacity of the input buffer in bytes (`4 * IMAGE_SIZE * IMAGE_SIZE * 3`). */
  const InputBytes: nat := 4 * ImageSize * ImageSize * 3

  /** The pixels of the scaled face, as `getPixels` reads them (row by row). */
  type ScaledPixels = s: seq<Int32> | |s| == PixelCount witness seq(224 * 224, _ => 0)

  function Pow2(n: nat): (p: nat)
    ensures p >= 1
  {
    if n == 0 then 1 else 2 * Pow2(n - 1)
  }

  /** `x shr bits`: an arithmetic right shift, i.e. division rounding towards minus infinity. */
  function Shr(x: int, bits: nat): (q: int)
    ensures Pow2(bits) * q <= x < Pow2(bits) * (q + 1)
  {
    x / Pow2(bits)
  }

  /** `x and 0xFF` on a two's-complement value: its low 8 bits, a number in `0..255`. */
  function LowByte(x: int): (b: int)
    ensures 0 <= b < 256
    ensures (x - b) % 256 == 0
  {
    x % 256
  }

  /** `pixel shr 16 and 0xFF`. */
  function Red(pixel: Int32): (c: int)
    ensures 0 <= c <= 255
  {
    LowByte(Shr(pixel as int, 16))
  }

  /** `pixel shr 8 and 0xFF`. */
  function Green(pixel: Int32): (c: int)
    ensures 0 <= c <= 255
  {
    LowByte(Shr(pixel as int, 8))
  }

  /** `pixel and 0xFF`. */
  function Blue(pixel: Int32): (c: int)
    ensures 0 <= c <= 255
  {
    LowByte(pixel as int)
  }

  /** `channel / 255.0f`, taken exactly: every 8-bit channel lands in `[0, 1]`. */
  function Normalize(channel: int): (v: real)
    requires 0 <= channel <= 255
    ensures 0.0 <= v <= 1.0
    ensures v * 255.0 == channel as real
  {
    channel as real / 255.0
  }

  /**
   * The ARGB_8888 layout of a colour `Int`: alpha in bits 24-31, red in 16-23,
   * green in 8-15 and blue in 0-7, read back as a signed 32-bit value.
   */
  function PackArgb(a: int, r: int, g: int, b: int): (pixel: Int32)
    requires 0 <= a <= 255 && 0 <= r <= 255 && 0 <= g <= 255 && 0 <= b <= 255
    ensures (pixel as int) % 0x1_0000_0000 == a * 0x100_0000 + r * 0x1_0000 + g * 0x100 + b
    ensures pixel < 0 <==> a >= 0x80
  {
    var u := a * 0x100_0000 + r * 0x1_0000 + g * 0x100 + b;
    if u < 0x8000_0000 then u as Int32 else (u - 0x1_0000_0000) as Int32
  }

  /** `pixel shr 24 and 0xFF`: the alpha channel, which the packing ignores. */
  function Alpha(pixel: Int32): (c: int)
    ensures 0 <= c <= 255
  {
    LowByte(Shr(pixel as int, 24))
  }

  lemma Pow2Shifts()
    ensures Pow2(8) == 0x100 && Pow2(16) == 0x1_0000 && Pow2(24) == 0x100_0000
  {
  }

  /** Euclidean division is determined by any quotient and remainder in range. */
  lemma DivModOf(x: int, m: int, q: int, rem: int)
    requires 0 < m && 0 <= rem < m && x == q * m + rem
    ensures x / m == q && x % m == rem
  {
    var d := q - x / m;
    assert d * m == x % m - rem;
    MulSmallIsZero(d, m);
  }

  lemma MulSmallIsZero(d: int, m: int)
    requires 0 < m && -m < d * m < m
    ensures d == 0
  {
    if d > 0 {
      MulAtLeast(d, m);
    } else if d < 0 {
      MulAtLeast(-d, m);
    }
  }

  lemma MulAtLeast(d: int, m: int)
    requires 0 < d && 0 < m
    ensures d * m >= m
  {
  }

  /** The extraction reads back exactly the channels a colour was built from. */
  lemma ChannelsOfPackArgb(a: int, r: int, g: int, b: int)
    requires 0 <= a <= 255 && 0 <= r <= 255 && 0 <= g <= 255 && 0 <= b <= 255
    ensures Red(PackArgb(a, r, g, b)) == r
    ensures Green(PackArgb(a, r, g, b)) == g
    ensures Blue(PackArgb(a, r, g, b)) == b
    ensures Alpha(PackArgb(a, r, g, b)) == a
  {
    Pow2Shifts();
    var u := a * 0x100_0000 + r * 0x1_0000 + g * 0x100 + b;
    var k := if u < 0x8000_0000 then 0 else 1;
    var p := PackArgb(a, r, g, b) as int;
    assert p == u - k * 0x1_0000_0000;
    DivModOf(p, 0x100, a * 0x1_0000 + r * 0x100 + g - k * 0x100_0000, b);
    DivModOf(p / 0x100, 0x100, a * 0x100 + r - k * 0x1_0000, g);
    DivModOf(p, 0x1_0000, a * 0x100 + r - k * 0x1_0000, g * 0x100 + b);
    DivModOf(p / 0x1_0000, 0x100, a - k * 0x100, r);
    DivModOf(p, 0x100_0000, a - k * 0x100, r * 0x1_0000 + g * 0x100 + b);
    DivModOf(p / 0x100_0000, 0x100, -k, a);
  }

  /** Every `Int` is a colour: its four extracted channels rebuild it. */
  lemma PackArgbOfChannels(pixel: Int32)
    ensures PackArgb(Alpha(pixel), Red(pixel), Green(pixel), Blue(pixel)) == pixel
  {
    Pow2Shifts();
    var p := pixel as int;
    var a, r, g, b := Alpha(pixel), Red(pixel), Green(pixel), Blue(pixel);
    // Peel one byte at a time off `p`.
    var q1 := p / 0x100;
    var q2 := q1 / 0x100;
    var q3 := q2 / 0x100;
    var q4 := q3 / 0x100;
    assert b == p % 0x100;
    assert g == q1 % 0x100;
    DivModOf(p, 0x1_0000, q2, g * 0x100 + b);
    assert r == q2 % 0x100;
    DivModOf(p, 0x100_0000, q3, r * 0x1_0000 + g * 0x100 + b);
    assert a == q3 % 0x100;
    var u := a * 0x100_0000 + r * 0x1_0000 + g * 0x100 + b;
    assert p == q4 * 0x1_0000_0000 + u;
    assert q4 == 0 || q4 == -1;
  }

  /** The three floats written for one pixel, in the order R, G, B. */
  function PixelFloats(pixel: Int32): seq<real> {
    [Normalize(Red(pixel)), Normalize(Green(pixel)), Normalize(Blue(pixel))]
  }

  /** Everything the packing loop writes for `pixels`, in order. */
  function Packed(pixels: seq<Int32>): (floats: seq<real>)
    ensures |floats| == 3 * |pixels|
  {
    if pixels == [] then [] else Packed(pixels[..|pixels| - 1]) + PixelFloats(pixels[|pixels| - 1])
  }

  /** One more pixel appends its three floats. */
  lemma PackedSnoc(pixels: seq<Int32>, i: int)
    requires 0 <= i < |pixels|
    ensures Packed(pixels[..i + 1]) == Packed(pixels[..i]) + PixelFloats(pixels[i])
  {
    assert pixels[..i + 1][..i] == pixels[..i];
  }

  /** Entry `3i` is the red, `3i+1` the green and `3i+2` the blue value of pixel `i`. */
  lemma {:induction false} PackedAt(pixels: seq<Int32>, i: int)
    requires 0 <= i < |pixels|
    ensures Packed(pixels)[3 * i] == Normalize(Red(pixels[i]))
    ensures Packed(pixels)[3 * i + 1] == Normalize(Green(pixels[i]))
    ensures Packed(pixels)[3 * i + 2] == Normalize(Blue(pixels[i]))
  {
    var n := |pixels|;
    if i < n - 1 {
      var front := pixels[..n - 1];
      assert front[i] == pixels[i];
      PackedAt(front, i);
    }
  }

  /** Every value written lies in `[0, 1]`. */
  lemma PackedInUnitRange(pixels: seq<Int32>)
    ensures forall j :: 0 <= j < |Packed(pixels)| ==> 0.0 <= Packed(pixels)[j] <= 1.0
  {
    forall j | 0 <= j < |Packed(pixels)|
      ensures 0.0 <= Packed(pixels)[j] <= 1.0
    {
      PackedAt(pixels, j / 3);
    }
  }

  /**
   * A direct `ByteBuffer` used only through `putFloat`: `capacity` and `position`
   * count bytes, and each float occupies one 4-byte slot (a Java `float` takes
   * 4 bytes).
   */
  class FloatBuffer {
    const capacity: nat
    const slots: array<real>
    var position: nat

    ghost predicate Valid()
      reads this
    {
      && slots.Length == capacity / 4
      && position % 4 == 0
      && position <= capacity
    }

    /** The floats put so far, in order. */
    function Written(): (floats: seq<real>)
      reads this, slots
      requires Valid()
      ensures |floats| * 4 == position
    {
      slots[..position / 4]
    }

    /** `ByteBuffer.allocateDirect(capacity)`. */
    constructor AllocateDirect(capacity: nat)
      ensures Valid() && fresh(slots)
      ensures this.capacity == capacity && position == 0
    {
      this.capacity := capacity;
      slots := new real[capacity / 4];
      position := 0;
    }

    /**
     * `putFloat(x)`: writes at the current position and advances it by 4 bytes;
     * with fewer than 4 bytes left it writes nothing and reports the overflow
     * that Java signals with `BufferOverflowException`.
     */
    method PutFloat(x: real) returns (overflow: bool)
      requires Valid()
      modifies this, slots
      ensures Valid()
      ensures overflow <==> old(position) + 4 > capacity
      ensures Written() == if overflow then old(Written()) else old(Written()) + [x]
    {
      overflow := position + 4 > capacity;
      if !overflow {
        slots[position / 4] := x;
        position := position + 4;
      }
    }
  }

  /**
   * `processImageForInference` from the scaled pixels on: every pixel adds its
   * three floats; the 224 * 224 pixels fill the buffer exactly, without overflow.
   */
  method ProcessImageForInference(intValues: ScaledPixels) returns (inputBuffer: FloatBuffer)
    ensures fresh(inputBuffer) && fresh(inputBuffer.slots) && inputBuffer.Valid()
    ensures inputBuffer.capacity == InputBytes
    ensures inputBuffer.position == inputBuffer.capacity
    ensures inputBuffer.Written() == Packed(intValues)
  {
    assert PixelCount == 50176 && InputBytes == 12 * PixelCount;
    inputBuffer := new FloatBuffer.AllocateDirect(InputBytes);
    for i := 0 to |intValues|
      invariant fresh(inputBuffer) && fresh(inputBuffer.slots) && inputBuffer.Valid()
      invariant inputBuffer.capacity == InputBytes
      invariant inputBuffer.position == 12 * i
      invariant inputBuffer.Written() == Packed(intValues[..i])
    {
      var pixel := intValues[i];
      var r := Normalize(Red(pixel));
      var g := Normalize(Green(pixel));
      var b := Normalize(Blue(pixel));
      ghost var before := inputBuffer.Written();

      var overflow := inputBuffer.PutFloat(r);
      assert !overflow;
      overflow := inputBuffer.PutFloat(g);
      assert !overflow;
      overflow := inputBuffer.PutFloat(b);
      assert !overflow;

      assert inputBuffer.Written() == before + [r, g, b];
      PackedSnoc(intValues, i);
    }
    assert intValues[..|intValues|] == intValues;
  }
}
