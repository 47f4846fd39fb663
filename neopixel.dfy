/**
 * The LED matrix driver: the pixel buffer `leds`, the calls that change it,
 * the serialiser `npWrite` and the two full-panel patterns.
 *
 * The hardware side is a ghost log of wire events: `pio_sm_put_blocking`
 * appends one byte, `sleep_us(100)` appends the reset gap that latches
 * the frame.
 */
module NeoPixel {
  import opened Pixels
  import opened Layout
  import opened Pio

  /** `LED_COUNT`: the panel has 25 LEDs. */
  const LED_COUNT: nat := 25

  /** What the data line carries: one byte, or the idle period that ends a frame. */
  datatype WireEvent = Byte(value: uint8) | ResetGap

  /** The events for pushing `bytes` one by one. */
  function Sent(bytes: seq<uint8>): seq<WireEvent>
  {
    seq(|bytes|, k requires 0 <= k < |bytes| => Byte(bytes[k]))
  }

  /** Pushing two byte sequences one after the other logs the events of each in turn. */
  lemma SentAppend(a: seq<uint8>, b: seq<uint8>)
    ensures Sent(a + b) == Sent(a) + Sent(b)
  {
    assert forall k :: 0 <= k < |b| ==> (a + b)[|a| + k] == b[k];
  }

  /** Sending the frame of one more pixel sends that pixel's G, R and B bytes last. */
  lemma SentFrameSnoc(s: seq<Pixel>, p: Pixel)
    ensures Sent(Frame(s + [p])) == Sent(Frame(s)) + [Byte(p.G), Byte(p.R), Byte(p.B)]
  {
    FrameSnoc(s, p);
    SentAppend(Frame(s), Triple(p));
  }

  /**
   * What one `npWrite` adds to the wire: 3 * |s| bytes in frame order,
   * then exactly one reset gap.
   */
  function Transmission(s: seq<Pixel>): seq<WireEvent>
  {
    Sent(Frame(s)) + [ResetGap]
  }

  /** A transmission holds 3 * |s| bytes and its only reset gap is its last event. */
  lemma TransmissionShape(s: seq<Pixel>)
    ensures |Transmission(s)| == 3 * |s| + 1
    ensures Transmission(s)[3 * |s|] == ResetGap
    ensures forall k :: 0 <= k < 3 * |s| ==> Transmission(s)[k].Byte?
  {
  }

  /**
   * Byte 3k, 3k+1 and 3k+2 of a transmission are the green, red and blue
   * channels of LED k.
   */
  lemma TransmissionAt(s: seq<Pixel>, k: int)
    requires 0 <= k < |s|
    ensures Transmission(s)[3 * k] == Byte(s[k].G)
    ensures Transmission(s)[3 * k + 1] == Byte(s[k].R)
    ensures Transmission(s)[3 * k + 2] == Byte(s[k].B)
  {
    FrameAt(s, k);
  }

  /** An entry of the `int matriz[5][5][3]` literals: red, green, blue. */
  datatype Rgb = Rgb(r: int, g: int, b: int)

  /** The pixel `npSetLED` stores for an image entry, each `int` narrowed to `uint8_t`. */
  function ToPixel(c: Rgb): Pixel
  {
    Pixel(ToUint8(c.g), ToUint8(c.r), ToUint8(c.b))
  }

  /** A 5x5 image, indexed `m[coluna][linha]` as the pattern routines do. */
  predicate IsImage(m: seq<seq<Rgb>>)
  {
    |m| == 5 && forall c :: 0 <= c < 5 ==> |m[c]| == 5
  }

  /** `matriz_verde`: every entry is {0, 255, 0}. */
  const GreenImage: seq<seq<Rgb>> := seq(5, _ => seq(5, _ => Rgb(0, 255, 0)))

  /** `matriz_vermelha`: every entry is {255, 0, 0}. */
  const RedImage: seq<seq<Rgb>> := seq(5, _ => seq(5, _ => Rgb(255, 0, 0)))

  /** A lit green LED, stored G = 255, R = 0, B = 0. */
  const GreenPixel: Pixel := Pixel(255, 0, 0)

  /** A lit red LED, stored G = 0, R = 255, B = 0. */
  const RedPixel: Pixel := Pixel(0, 255, 0)

  /** The global state of the driver. */
  class Matrix {
    /** `leds`: the pixel buffer, index order = order on the wire. */
    var leds: array<Pixel>
    /** Everything sent on the data line so far. */
    ghost var wire: seq<WireEvent>

    ghost predicate Valid()
      reads this
    {
      leds.Length == LED_COUNT
    }

    /** A global array with static storage starts zeroed; nothing has been sent. */
    constructor ()
      ensures Valid() && fresh(leds)
      ensures leds[..] == seq(LED_COUNT, _ => Off)
      ensures wire == []
    {
      leds := new Pixel[LED_COUNT](_ => Off);
      wire := [];
    }

    /**
     * `npInit` with the corrected claim: choose the channel, then zero
     * every pixel. When no state machine is free the startup stops before
     * the buffer is touched.
     */
    method Init(claim0: int, claim1: int) returns (res: ClaimResult)
      requires Valid()
      requires IsClaimResult(claim0) && IsClaimResult(claim1)
      modifies leds
      ensures res == ClaimChannel(claim0, claim1)
      ensures res.Claimed? ==> leds[..] == seq(LED_COUNT, _ => Off)
      ensures res.ResourceExhausted? ==> leds[..] == old(leds[..])
    {
      res := ClaimChannel(claim0, claim1);
      if res.ResourceExhausted? {
        return;
      }
      var i := 0;
      while i < LED_COUNT
        invariant 0 <= i <= LED_COUNT
        invariant forall k :: 0 <= k < i ==> leds[k] == Off
      {
        leds[i] := leds[i].(R := 0);
        leds[i] := leds[i].(G := 0);
        leds[i] := leds[i].(B := 0);
        i := i + 1;
      }
    }

    /** `npSetLED`: LED `index` becomes (r, g, b); no other LED changes. */
    method SetLED(index: nat, r: uint8, g: uint8, b: uint8)
      requires Valid()
      requires index < LED_COUNT
      modifies leds
      ensures leds[index].R == r && leds[index].G == g && leds[index].B == b
      ensures forall k :: 0 <= k < LED_COUNT && k != index ==> leds[k] == old(leds[k])
    {
      leds[index] := leds[index].(R := r);
      leds[index] := leds[index].(G := g);
      leds[index] := leds[index].(B := b);
    }

    /**
     * `npClear`: every LED off, whatever the buffer held; so calling it a
     * second time leaves the buffer as the first call did.
     */
    method Clear()
      requires Valid()
      modifies leds
      ensures leds[..] == seq(LED_COUNT, _ => Off)
    {
      var i := 0;
      while i < LED_COUNT
        invariant 0 <= i <= LED_COUNT
        invariant forall k :: 0 <= k < i ==> leds[k] == Off
      {
        SetLED(i, 0, 0, 0);
        i := i + 1;
      }
    }

    /** `pio_sm_put_blocking`: one byte onto the data line. */
    method PutBlocking(v: uint8)
      modifies this`wire
      ensures wire == old(wire) + [Byte(v)]
    {
      wire := wire + [Byte(v)];
    }

    /** `sleep_us(100)`: the idle period that latches the frame. */
    method SleepReset()
      modifies this`wire
      ensures wire == old(wire) + [ResetGap]
    {
      wire := wire + [ResetGap];
    }

    /**
     * `npWrite`: send every LED's G, R and B byte in ascending index order,
     * then one reset gap. The buffer is not changed.
     */
    method Write()
      requires Valid()
      modifies this`wire
      ensures wire == old(wire) + Transmission(leds[..])
      ensures leds[..] == old(leds[..])
    {
      var i := 0;
      while i < LED_COUNT
        invariant 0 <= i <= LED_COUNT
        invariant wire == old(wire) + Sent(Frame(leds[..i]))
      {
        var p := leds[i];
        PutBlocking(p.G);
        PutBlocking(p.R);
        PutBlocking(p.B);
        assert leds[..i + 1] == leds[..i] + [p];
        SentFrameSnoc(leds[..i], p);
        i := i + 1;
      }
      assert leds[..LED_COUNT] == leds[..];
      SleepReset();
    }

    /**
     * The loop shared by `mostrarMatrizVerde` and `mostrarMatrizVermelha`:
     * for each `linha` and `coluna`, entry `m[coluna][linha]` goes to LED
     * `getIndex(linha, coluna)`; then the frame is written. With x = linha
     * and y = coluna this puts entry m[y][x] at the LED of position (x, y).
     */
    method ShowImage(m: seq<seq<Rgb>>)
      requires Valid()
      requires IsImage(m)
      modifies leds, this`wire
      ensures forall x, y :: OnGrid(x, y) ==> leds[GetIndex(x, y)] == ToPixel(m[y][x])
      ensures wire == old(wire) + Transmission(leds[..])
    {
      var linha := 0;
      while linha < 5
        invariant 0 <= linha <= 5
        invariant wire == old(wire)
        invariant forall x, y :: 0 <= x < linha && 0 <= y < 5 ==>
          leds[GetIndex(x, y)] == ToPixel(m[y][x])
      {
        var coluna := 0;
        while coluna < 5
          invariant 0 <= coluna <= 5
          invariant wire == old(wire)
          invariant forall x, y :: (0 <= x < linha && 0 <= y < 5) || (x == linha && 0 <= y < coluna) ==>
            leds[GetIndex(x, y)] == ToPixel(m[y][x])
        {
          var posicao := GetIndex(linha, coluna);
          forall x, y | (0 <= x < linha && 0 <= y < 5) || (x == linha && 0 <= y < coluna)
            ensures GetIndex(x, y) != posicao
          {
            if GetIndex(x, y) == posicao {
              GetIndexInjective(x, y, linha, coluna);
            }
          }
          var c := m[coluna][linha];
          SetLED(posicao, ToUint8(c.r), ToUint8(c.g), ToUint8(c.b));
          coluna := coluna + 1;
        }
        linha := linha + 1;
      }
      Write();
    }

    /** `mostrarMatrizVerde`: every LED green, then one frame of 25 x (255, 0, 0). */
    method ShowGreenMatrix()
      requires Valid()
      modifies leds, this`wire
      ensures leds[..] == seq(LED_COUNT, _ => GreenPixel)
      ensures wire == old(wire) + Sent(Repeat([255, 0, 0], LED_COUNT)) + [ResetGap]
    {
      ShowImage(GreenImage);
      forall i | 0 <= i < LED_COUNT
        ensures leds[i] == GreenPixel
      {
        var c := Coord(i);
      }
      assert leds[..] == seq(LED_COUNT, _ => GreenPixel);
      FrameUniform(GreenPixel, LED_COUNT);
    }

    /** `mostrarMatrizVermelha`: every LED red, then one frame of 25 x (0, 255, 0). */
    method ShowRedMatrix()
      requires Valid()
      modifies leds, this`wire
      ensures leds[..] == seq(LED_COUNT, _ => RedPixel)
      ensures wire == old(wire) + Sent(Repeat([0, 255, 0], LED_COUNT)) + [ResetGap]
    {
      ShowImage(RedImage);
      forall i | 0 <= i < LED_COUNT
        ensures leds[i] == RedPixel
      {
        var c := Coord(i);
      }
      assert leds[..] == seq(LED_COUNT, _ => RedPixel);
      FrameUniform(RedPixel, LED_COUNT);
    }
  }
}
