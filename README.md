# 5x5 NeoPixel matrix driver (systemWorking.c) in Dafny

The firmware drives a 5x5 panel of WS2812-class RGB LEDs from a Raspberry Pi
Pico. A PIO state machine shifts bytes onto the single data line. The driver
keeps a buffer `leds` of 25 pixels, each stored as green, red and blue bytes.
`npSetLED` writes one pixel. `npClear` and the end of `npInit` zero all of
them. `npWrite` pushes every pixel's G, R and B byte in ascending index order
and then holds the line idle for 100 µs, which latches the frame. `getIndex`
maps a panel position (x, y) to the index of the LED wired there. The wiring
is a serpentine path, numbered from the last LED back to the first. The two
pattern routines fill the whole panel with one colour and write the frame.

The model has four modules:

- `Pixels` (`pixels.dfy`): the `uint8` channel type, the `Pixel` struct in its
  G, R, B field order, and `Frame`, the byte sequence one write sends.
- `Layout` (`layout.dfy`): `GetIndex`, its inverse `Coord`, and the facts about
  the serpentine mapping.
- `Pio` (`pio.dfy`): the choice of PIO block and state machine in `npInit`, as
  written and as intended (see Findings).
- `NeoPixel` (`neopixel.dfy`): the class `Matrix`. Its field `leds` is an array
  of 25 pixels that the methods update in place. Its ghost field `wire` logs
  everything sent on the data line. `pio_sm_put_blocking` appends a `Byte`
  event to that log and `sleep_us(100)` appends one `ResetGap` event.

The call sites pass `getIndex(linha, coluna)` and read the colour from
`matriz[coluna][linha]`. So with x = linha and y = coluna, image entry
`m[y][x]` goes to the LED of position (x, y). The two swaps cancel out, and
`ShowImage` states this for any 5x5 image, not only the uniform ones the
firmware uses.

## Model

| member | source | states |
|---|---|---|
| `Pixels.ToUint8` | systemWorking.c:131 | passing an `int` to a `uint8_t` parameter keeps values 0..255 and is otherwise congruent modulo 256 |
| `Pixels.Frame` | systemWorking.c:80-84 | one frame is exactly 3 bytes per pixel |
| `Pixels.FrameSnoc` | systemWorking.c:80-84 | each further pixel adds its own G, R, B triple at the end of the frame |
| `Pixels.FrameAt` | systemWorking.c:81-83 | bytes 3k, 3k+1 and 3k+2 of the frame are the G, R and B channels of pixel k |
| `Pixels.FrameUniform` | systemWorking.c:80-84 | a buffer of n equal pixels is sent as n copies of that pixel's G, R, B triple |
| `Layout.GetIndex` | systemWorking.c:107-115 | every panel position maps to an LED index in 0..24 |
| `Layout.Coord` | systemWorking.c:107-115 | every index 0..24 is the image of a panel position (surjectivity) |
| `Layout.CoordOfGetIndex` | systemWorking.c:107-115 | `Coord` recovers the position from its index (left inverse) |
| `Layout.GetIndexInjective` | systemWorking.c:107-115 | two panel positions with the same index are the same position |
| `Layout.GetIndexBijective` | systemWorking.c:107-115 | each index 0..24 comes from exactly one panel position |
| `Layout.SerpentineContinuous` | systemWorking.c:108-113 | LEDs with consecutive indices sit at neighbouring panel positions, so the wiring path has no jumps |
| `Layout.GetIndexSamples` | systemWorking.c:110-114 | (0,0) is LED 24, (4,0) is LED 20, (0,1) is LED 15 and (4,4) is LED 0 |
| `Pio.ToUint32` | systemWorking.c:29 | storing an `int` in `uint sm` keeps values in range and is otherwise congruent modulo 2^32 |
| `Pio.AsWrittenKeepsMissingStateMachine` | systemWorking.c:43-47 | as written, a failed claim on `pio0` leaves the channel on `pio0` with state machine 2^32-1, which does not exist |
| `Pio.AsWrittenNeverFallsBack` | systemWorking.c:44-47 | as written, the channel is on `pio0` whatever the claims return |
| `Pio.ClaimChannel` | systemWorking.c:40-47 | intended claim: `pio0` exactly when it has a free state machine, `pio1` exactly when only it has one, `ResourceExhausted` exactly when neither has one; a claimed state machine is one the library returned and is below 4 |
| `Pio.AsWrittenAgreesWhenPio0HasRoom` | systemWorking.c:43-47 | the code as written and the intended claim agree exactly when `pio0` has a free state machine |
| `NeoPixel.SentAppend` | systemWorking.c:80-84 | pushing two byte sequences one after the other logs the events of the first and then those of the second, with nothing lost or reordered |
| `NeoPixel.SentFrameSnoc` | systemWorking.c:81-83 | one more pixel in the buffer adds exactly its G, R and B bytes, in that order, at the end of what is pushed |
| `NeoPixel.TransmissionShape` | systemWorking.c:80-85 | a write logs 3 bytes per pixel followed by exactly one reset gap, which is its last event |
| `NeoPixel.TransmissionAt` | systemWorking.c:81-83 | logged bytes 3k, 3k+1 and 3k+2 of a write are LED k's G, R and B |
| `NeoPixel.Matrix.constructor` | systemWorking.c:25 | the global buffer holds 25 pixels, all zero, and nothing has been sent |
| `NeoPixel.Matrix.Init` | systemWorking.c:37-58 | `npInit`, using the intended claim: on success every pixel is (0,0,0) whatever the buffer held; on resource exhaustion the buffer is untouched |
| `NeoPixel.Matrix.SetLED` | systemWorking.c:62-66 | `npSetLED` for an index below 25: that pixel gets R=r, G=g, B=b and every other pixel is unchanged |
| `NeoPixel.Matrix.Clear` | systemWorking.c:70-73 | `npClear`: every pixel is (0,0,0) whatever the buffer held, so a second call gives the same buffer |
| `NeoPixel.Matrix.PutBlocking` | systemWorking.c:81-83 | pushing a byte appends exactly that byte to the wire log |
| `NeoPixel.Matrix.SleepReset` | systemWorking.c:85 | the 100 µs wait appends exactly one reset gap to the wire log |
| `NeoPixel.Matrix.Write` | systemWorking.c:78-86 | `npWrite` appends the frame of the buffer (G, R, B per LED, ascending index) and one reset gap, and leaves the buffer unchanged |
| `NeoPixel.Matrix.ShowImage` | systemWorking.c:128-134 | the shared nested loop plus `npWrite`: entry `m[y][x]` lands at LED `GetIndex(x, y)` for every panel position, and exactly one frame of the new buffer is sent |
| `NeoPixel.Matrix.ShowGreenMatrix` | systemWorking.c:118-135 | `mostrarMatrizVerde`: every LED is R=0, G=255, B=0, and the wire gets 25 copies of the bytes (255, 0, 0) and one reset gap |
| `NeoPixel.Matrix.ShowRedMatrix` | systemWorking.c:138-155 | `mostrarMatrizVermelha`: every LED is R=255, G=0, B=0, and the wire gets 25 copies of the bytes (0, 255, 0) and one reset gap |

## Left out

- Loading the PIO program (`pio_add_program`) and starting it with `ws2818b_program_init` at the float bit rate `800000.f` on pin `LED_PIN` (systemWorking.c:39, 50). These are hardware calls with nothing to state, so `Matrix.Init` takes no pin.
- `pio_claim_unused_sm` itself is library code. What it returns for each block is a parameter of `Pio.ClaimChannel` and `Matrix.Init`: -1 or a state-machine number from 0 to 3. The model does not track which state machines a claim marks as used.
- The claimed channel is not recorded in the wire log. There is only one data line, so the events need no channel tag.
- Timing. The 100 µs of `sleep_us(100)` and the backpressure inside `pio_sm_put_blocking` are logged as events, not as elapsed time. Bit-level timing at 800 kHz is a property of the PIO program, which is not part of this model.
- The buzzer (`pwm_init_buzzer`, `beep`, `stopBeep`, with a floating-point clock divider) is a thin wrapper over the PWM library.
- `main` (GPIO buttons, `printf`, the polling loop with `sleep_ms`) is I/O plumbing. Its start-up sequence is `Init`, `Clear`, `Write` and `ShowRedMatrix` in that order.
- `Layout.GetIndex` uses unbounded integers. The C `int` arithmetic `y * 5` could overflow only for coordinates far off the panel, and no call site passes such coordinates.
- `Matrix.SetLED` requires an index below 25. The C code does no bounds check, and an out-of-range index is undefined behaviour.
- `getIndex` fixes the panel side at 5 (the constants 24, 5 and 4 at systemWorking.c:111, 113), and the model does the same.
- The `pio1` branch at systemWorking.c:44-46 and its "panic!" comment show that `npInit` is meant to fall back to the second PIO block. As written it never does (see Findings). Only the channel choice is modelled both ways. `Matrix.Init` models `npInit` with the corrected choice only. As written, the zeroing loop at systemWorking.c:53-57 runs even when `pio0` is full.
- The corrected fallback fixes only the choice of block. The program is loaded into `pio0` only (systemWorking.c:39), and its offset is then started on `np_pio` (systemWorking.c:50). On `pio1` that would need a second `pio_add_program`, which neither the source nor the model has. So `Pio.ClaimChannel` is not a working `pio1` setup.
- The claimed channel (the globals `np_pio` and `sm`) is not part of `Matrix`'s state, and `Matrix.Write` does not require a successful `Init`. In C, calling `npWrite` before a successful claim uses an unset channel. The model logs the bytes anyway.

## Findings

| source | as written | input that shows it | evidently intended | confidence | as-written member | corrected member |
|---|---|---|---|---|---|---|
| systemWorking.c:29, 43-47 | `sm` is an unsigned `uint`, so `sm < 0` is never true. When `pio0` has no free state machine, the -1 result becomes 4294967295 and it is used with `pio0` | `pio_claim_unused_sm(pio0, false)` returns -1 (all four state machines of `pio0` are claimed) | when `pio0` is full, claim a state machine of `pio1`, and abort with a panic if that block is full too (the program would also have to be loaded into `pio1`, which line 39 does not do) | high — not executed | `Pio.AsWrittenKeepsMissingStateMachine` | `Pio.ClaimChannel` |
