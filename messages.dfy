/** The exact text of the two entries the simulation writes to its event log. */
module Messages {

  /** The arrival entry.  It is written as two literals because the verifier
      sees the characters of short string literals only. */
  const ReachedShipMessage: string := "The person has reached the ship! " + "Generating animation..."

  function Digit(d: nat): char
    requires d < 10
  {
    "0123456789"[d]
  }

  /** Decimal rendering of a natural number, as Python's str() gives it. */
  function Decimal(n: nat): (s: string)
    ensures |s| > 0
    decreases n
  {
    if n < 10 then [Digit(n)] else Decimal(n / 10) + [Digit(n % 10)]
  }

  /** The entry for a frightened shark; the program numbers sharks from 1. */
  function SharkCloseMessage(id: nat): string
  {
    "Shark " + Decimal(id + 1) + " is close to the person. Sound effect started."
  }
}
