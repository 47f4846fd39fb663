/**
 * Choosing the PIO state machine that drives the LED chain (the claim at
 * the start of `npInit`). What `pio_claim_unused_sm` returns is a
 * parameter: -1 when no state machine of that block is free, otherwise
 * the number of the one it claimed.
 */
module Pio {

  /** State machines per PIO block. */
  const NUM_PIO_STATE_MACHINES: int := 4

  /** A C `uint` on the target (32 bits). */
  newtype uint32 = x: int | 0 <= x < 0x1_0000_0000

  /** C's conversion of an `int` to `uint`: reduction modulo 2^32. */
  function ToUint32(v: int): (u: uint32)
    ensures 0 <= v < 0x1_0000_0000 ==> u as int == v
    ensures (v - u as int) % 0x1_0000_0000 == 0
  {
    (v % 0x1_0000_0000) as uint32
  }

  /** A claim result the library can give: -1 or a state machine number. */
  predicate IsClaimResult(c: int)
  {
    -1 <= c < NUM_PIO_STATE_MACHINES
  }

  datatype PioBlock = Pio0 | Pio1

  /** The hardware channel: the values of the globals `np_pio` and `sm`. */
  datatype Channel = Channel(pio: PioBlock, sm: uint32)

  /**
   * The claim as the source writes it: the `int` result is stored in
   * `uint sm`, so the guard `sm < 0` never holds and the fallback to
   * `pio1` is never taken. `claim1` is what the second claim would return.
   */
  function ClaimChannelAsWritten(claim0: int, claim1: int): Channel
    requires IsClaimResult(claim0) && IsClaimResult(claim1)
  {
    var sm := ToUint32(claim0);
    if sm < 0 then Channel(Pio1, ToUint32(claim1)) else Channel(Pio0, sm)
  }

  /**
   * As written, a full `pio0` is not detected: the channel stays on
   * `pio0` with state machine number 2^32 - 1, which does not exist.
   */
  lemma AsWrittenKeepsMissingStateMachine(claim1: int)
    requires IsClaimResult(claim1)
    ensures ClaimChannelAsWritten(-1, claim1) == Channel(Pio0, 0xFFFF_FFFF)
    ensures ClaimChannelAsWritten(-1, claim1).sm as int >= NUM_PIO_STATE_MACHINES
  {
    assert ToUint32(-1) as int == 0xFFFF_FFFF;
  }

  /** As written, the channel is on `pio0` whatever the claims return. */
  lemma AsWrittenNeverFallsBack(claim0: int, claim1: int)
    requires IsClaimResult(claim0) && IsClaimResult(claim1)
    ensures ClaimChannelAsWritten(claim0, claim1).pio == Pio0
  {
  }

  /** Outcome of the corrected claim. */
  datatype ClaimResult = Claimed(channel: Channel) | ResourceExhausted

  /**
   * The claim as intended: `pio0` first, `pio1` only when `pio0` has no
   * free state machine, and the fatal `ResourceExhausted` (the library's
   * panic on the second, required claim) when neither has one.
   */
  function ClaimChannel(claim0: int, claim1: int): (r: ClaimResult)
    requires IsClaimResult(claim0) && IsClaimResult(claim1)
    ensures r.Claimed? ==> 0 <= r.channel.sm as int < NUM_PIO_STATE_MACHINES
    ensures r.Claimed? && r.channel.pio == Pio0 <==> claim0 >= 0
    ensures r.Claimed? && r.channel.pio == Pio1 <==> claim0 < 0 && claim1 >= 0
    ensures r.ResourceExhausted? <==> claim0 < 0 && claim1 < 0
    ensures r.Claimed? ==>
      r.channel.sm as int == (if r.channel.pio == Pio0 then claim0 else claim1)
  {
    if claim0 >= 0 then Claimed(Channel(Pio0, claim0 as uint32))
    else if claim1 >= 0 then Claimed(Channel(Pio1, claim1 as uint32))
    else ResourceExhausted
  }

  /** The two differ exactly when `pio0` is full. */
  lemma AsWrittenAgreesWhenPio0HasRoom(claim0: int, claim1: int)
    requires IsClaimResult(claim0) && IsClaimResult(claim1)
    ensures claim0 >= 0 <==> ClaimChannel(claim0, claim1) == Claimed(ClaimChannelAsWritten(claim0, claim1))
  {
    if claim0 < 0 {
      AsWrittenKeepsMissingStateMachine(claim1);
    }
  }
}
