/**
 * GasPolicy: `get_gas_price` (a per-attempt price schedule capped at 100 gwei)
 * and `get_gas_limit` (a clamp of the node's estimate with a fixed fallback).
 * Amounts are in wei.
 */
module GasPolicy {
  import opened Wrappers

  const GWEI: nat := 1_000_000_000
  /** The ceiling of the schedule: 100 gwei. */
  const MAX_GAS_PRICE: nat := 100 * GWEI
  const MIN_GAS_LIMIT: int := 50_000
  const MAX_GAS_LIMIT: int := 150_000
  /** Used when `estimate_gas` raises. */
  const FALLBACK_GAS_LIMIT: int := 100_000

  /** `get_gas_price(attempt)`: 50 + 10 * attempt gwei, but never more than 100 gwei. */
  function GasPrice(attempt: nat): (price: nat)
    ensures price <= MAX_GAS_PRICE
    ensures attempt >= 5 ==> price == MAX_GAS_PRICE
    ensures attempt <= 5 ==> price == (50 + 10 * attempt) * GWEI
  {
    var basePrice := 50 + attempt * 10;
    if basePrice * GWEI <= 100 * GWEI then basePrice * GWEI else 100 * GWEI
  }

  /** The schedule never lowers the price from one attempt to a later one. */
  lemma GasPriceMonotone(a: nat, b: nat)
    requires a <= b
    ensures GasPrice(a) <= GasPrice(b)
  {
  }

  /** Below the ceiling every further attempt outbids the previous one. */
  lemma GasPriceIncreasingBelowCap(a: nat, b: nat)
    requires a < b <= 5
    ensures GasPrice(a) < GasPrice(b)
  {
  }

  /** The first attempt of the submission loop bids 60 gwei. */
  lemma GasPriceFirstAttempt()
    ensures GasPrice(1) == 60 * GWEI
  {
  }

  /**
   * `get_gas_limit`: the node's estimate clamped into [50000, 150000], or 100000
   * when `estimate_gas` raised (`None`).
   */
  function GasLimit(estimate: Option<int>): (limit: int)
    ensures MIN_GAS_LIMIT <= limit <= MAX_GAS_LIMIT
    ensures estimate.None? ==> limit == FALLBACK_GAS_LIMIT
    ensures estimate.Some? && MIN_GAS_LIMIT <= estimate.value <= MAX_GAS_LIMIT ==> limit == estimate.value
    ensures estimate.Some? && estimate.value < MIN_GAS_LIMIT ==> limit == MIN_GAS_LIMIT
    ensures estimate.Some? && estimate.value > MAX_GAS_LIMIT ==> limit == MAX_GAS_LIMIT
  {
    match estimate
    case None => FALLBACK_GAS_LIMIT
    case Some(e) =>
      var atLeast := if e > MIN_GAS_LIMIT then e else MIN_GAS_LIMIT;
      if atLeast < MAX_GAS_LIMIT then atLeast else MAX_GAS_LIMIT
  }

  /** A larger estimate never yields a smaller limit. */
  lemma GasLimitMonotone(e1: int, e2: int)
    requires e1 <= e2
    ensures GasLimit(Some(e1)) <= GasLimit(Some(e2))
  {
  }
}
