/**
 * Pixel values and the order in which a WS2812-class LED chain expects
 * their bytes on the wire.
 */
module Pixels {

  /** An 8-bit unsigned channel value (C `uint8_t`). */
  newtype uint8 = x: int | 0 <= x < 256

  /**
   * C's conversion of an `int` to `uint8_t`: reduction modulo 2^8.
   * Values already in range are kept as they are.
   */
  function ToUint8(v: int): (b: uint8)
    ensures 0 <= v < 256 ==> b as int == v
    ensures (v - b as int) % 256 == 0
  {
    (v % 256) as uint8
  }

  /** One LED: the struct `pixel_t`, whose fields are stored G, R, B. */
  datatype Pixel = Pixel(G: uint8, R: uint8, B: uint8)

  /** An LED that is off. */
  const Off: Pixel := Pixel(0, 0, 0)

  /** The three bytes one LED takes on the wire: green, red, blue. */
  function Triple(p: Pixel): seq<uint8>
  {
    [p.G, p.R, p.B]
  }

  /**
   * The bytes of one frame: the pixels in ascending index order, each as
   * its green, red and blue byte.
   */
  function Frame(s: seq<Pixel>): (f: seq<uint8>)
    ensures |f| == 3 * |s|
  {
    if s == [] then [] else Frame(s[..|s| - 1]) + Triple(s[|s| - 1])
  }

  /** Extending the buffer by one pixel extends the frame by that pixel's triple. */
  lemma FrameSnoc(s: seq<Pixel>, p: Pixel)
    ensures Frame(s + [p]) == Frame(s) + Triple(p)
  {
    assert (s + [p])[..|s|] == s;
  }

  /**
   * The frame, byte by byte: bytes 3k, 3k+1 and 3k+2 are the green, red
   * and blue channels of pixel k.
   */
  lemma {:induction false} FrameAt(s: seq<Pixel>, k: int)
    requires 0 <= k < |s|
    ensures Frame(s)[3 * k] == s[k].G
    ensures Frame(s)[3 * k + 1] == s[k].R
    ensures Frame(s)[3 * k + 2] == s[k].B
  {
    var n := |s| - 1;
    if k < n {
      FrameAt(s[..n], k);
    }
  }

  /** `n` copies of the byte group `t`, one after the other. */
  function Repeat(t: seq<uint8>, n: nat): (r: seq<uint8>)
    ensures |r| == n * |t|
  {
    if n == 0 then [] else Repeat(t, n - 1) + t
  }

  /** A buffer of `n` equal pixels is sent as `n` copies of that pixel's triple. */
  lemma {:induction false} FrameUniform(p: Pixel, n: nat)
    ensures Frame(seq(n, _ => p)) == Repeat(Triple(p), n)
  {
    if n > 0 {
      assert seq(n, _ => p)[..n - 1] == seq(n - 1, _ => p);
      FrameUniform(p, n - 1);
    }
  }
}
