/** Configuration constants: sizes, fees, the seal price table, and the settings read
    from the environment (given here as optional strings). */
module Constants {
  import opened Wrappers

  const BONES_UTXO_TARGET_SIZE: nat := 100000
  const INSCRIPTION_TARGET_SIZE: nat := 100000
  const FEE_PER_BYTE: nat := 11000
  const BONE_DECIMALS: nat := 8
  const BONE_DECIMALS_DIVISOR: nat := 100000000

  const PROTOCOL_OPCODE_ERROR := "PROTOCOL_OPCODE not defined"

  /** `BASE_TICKER`: the environment value when set (even an empty one), else "BONE". */
  function BaseTicker(env: Option<string>): (r: string)
    ensures env.Some? ==> r == env.value
    ensures env.None? ==> r == "BONE"
  {
    env.GetOr("BONE")
  }

  /** `PROTOCOL_OPCODE`: loading fails when the setting is missing or empty. */
  function LoadProtocolOpcode(env: Option<string>): (r: Result<string>)
    ensures r.Err? <==> env.None? || env.value == ""
    ensures r.Err? ==> r.error == PROTOCOL_OPCODE_ERROR
    ensures r.Ok? ==> r.value == env.value && |r.value| > 0
  {
    if env.None? || env.value == "" then Err(PROTOCOL_OPCODE_ERROR) else Ok(env.value)
  }

  /** `SEAL_PRICE_IN_BASE_TOKEN(length)` in base units; no price for an empty ticker. */
  function SealPrice(length: nat): (r: Option<nat>)
    ensures r.None? <==> length == 0
    ensures r.Some? ==> r.value >= BONE_DECIMALS_DIVISOR && r.value % BONE_DECIMALS_DIVISOR == 0
  {
    if length == 0 then None
    else if length == 1 then Some(210000 * BONE_DECIMALS_DIVISOR)
    else if length == 2 then Some(21000 * BONE_DECIMALS_DIVISOR)
    else if length == 3 then Some(2100 * BONE_DECIMALS_DIVISOR)
    else if length <= 6 then Some(500 * BONE_DECIMALS_DIVISOR)
    else if length <= 12 then Some(10 * BONE_DECIMALS_DIVISOR)
    else Some(BONE_DECIMALS_DIVISOR)
  }

  /** Shorter tickers never cost less. */
  lemma SealPriceNonIncreasing(a: nat, b: nat)
    requires 1 <= a <= b
    ensures SealPrice(b).value <= SealPrice(a).value
  {
  }

  /** The price bands, in whole base tokens. */
  lemma SealPriceBands(length: nat)
    ensures length == 1 ==> SealPrice(length) == Some(210000 * 100000000)
    ensures length == 2 ==> SealPrice(length) == Some(21000 * 100000000)
    ensures length == 3 ==> SealPrice(length) == Some(2100 * 100000000)
    ensures 4 <= length <= 6 ==> SealPrice(length) == Some(500 * 100000000)
    ensures 7 <= length <= 12 ==> SealPrice(length) == Some(10 * 100000000)
    ensures 13 <= length ==> SealPrice(length) == Some(100000000)
  {
  }

  /** The divisor is ten to the number of decimals. */
  lemma DivisorIsPowerOfTen()
    ensures BONE_DECIMALS_DIVISOR == Pow10(BONE_DECIMALS)
  {
  }

  function Pow10(k: nat): nat
  {
    if k == 0 then 1 else 10 * Pow10(k - 1)
  }
}
