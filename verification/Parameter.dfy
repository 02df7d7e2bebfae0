/** Two-byte node parameters (app/klf200/protocol/parameter.go), held as their big-endian value. */
module Parameter {
  import opened Bytes

  const MAX: uint16 := 0xC800
  const UNKNOWN: uint16 := 0xF7FF
  const CURRENT: uint16 := 0xD200
  const TARGET: uint16 := 0xD100
  const IGNORE: uint16 := 0xD400

  function ParameterBytes(p: uint16): (b: seq<byte>)
    ensures |b| == 2
  {
    [Hi(p), Lo(p)]
  }

  /** parameterFromRaw: values above MAX that are no sentinel collapse to UNKNOWN. */
  function FromRaw(raw: uint16): uint16 {
    if raw != CURRENT && raw != IGNORE && raw != TARGET && raw != UNKNOWN && raw > MAX then UNKNOWN else raw
  }

  /** ParameterIsValidInt: what the setters accept. */
  predicate IsValidInt(value: int) {
    || 0 <= value <= MAX as int
    || value == UNKNOWN as int || value == IGNORE as int || value == CURRENT as int || value == TARGET as int
  }

  /** A value a decoder leaves alone. */
  predicate Normalised(p: uint16) { FromRaw(p) == p }

  predicate Known(p: uint16) { p != UNKNOWN }

  /** int(float64(raw[0])/2 + 0.5); every quotient of a byte by two is exact in a float64. */
  function PositionPercent(p: uint16): int {
    (Hi(p) as real / 2.0 + 0.5).Floor
  }

  function PositionFromPercent(percent: int): Result<uint16> {
    if percent < 0 || percent > 100 then Err else Ok(U16((percent * 2) % 0x100, 0))
  }

  /** The decoder's normal forms are exactly the values the setters accept, and one decoding step
      reaches a normal form: every other value becomes UNKNOWN. */
  lemma NormalisedIffValid(raw: uint16)
    ensures Normalised(raw) <==> IsValidInt(raw)
    ensures Normalised(raw) <==> raw <= 0xC800 || raw in [0xD100, 0xD200, 0xD400, 0xF7FF]
    ensures !Normalised(raw) ==> FromRaw(raw) == 0xF7FF
    ensures Normalised(FromRaw(raw))
  {
  }

  /** Percentages survive the trip through the wire form; a parameter shows as half its high byte,
      rounded up; and every parameter up to MAX shows as a percentage between 0 and 100, UNKNOWN and the
      other sentinels never. */
  lemma PercentRoundTrip(percent: int, p: uint16)
    ensures 0 <= percent <= 100 <==> PositionFromPercent(percent).Ok?
    ensures 0 <= percent <= 100 ==> PositionFromPercent(percent).value as int == percent * 0x200
    ensures 0 <= percent <= 100 ==> PositionPercent(PositionFromPercent(percent).value) == percent
    ensures 2 * PositionPercent(p) - 1 <= p as int / 256 <= 2 * PositionPercent(p)
    ensures Normalised(p) ==> (0 <= PositionPercent(p) <= 100 <==> p <= MAX)
  {
    assert 2 * PositionPercent(p) <= Hi(p) as int + 1 < 2 * PositionPercent(p) + 2;
  }
}
