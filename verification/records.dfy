/**
 * The records the risk engine consumes: TRC-20 transfer records as the
 * ledger API returns them, the compliance lookups' answers, and the
 * engine's configuration (thresholds and weights).
 */
module Records {
  import opened Text

  datatype Option<T> = None | Some(value: T)

  /**
   * A numeric field of an upstream record: missing (or JSON null / the empty
   * string), present but not an integer, or an integer.
   */
  datatype RawNum = Absent | Malformed | Num(n: int)

  /** Python truthiness of a numeric field: a missing field and the integer 0 are falsy. */
  predicate Truthy(x: RawNum) {
    x.Malformed? || (x.Num? && x.n != 0)
  }

  /**
   * One TRC-20 transfer record. Every address field holds "" when the key is
   * missing or null. `tokenAddress` and `tokenDecimals` come from the nested
   * `token_info` object; `contractAddress` and `decimals` are the flat
   * fallbacks some providers send instead.
   */
  datatype Transfer = Transfer(
    fromAddress: string, transferFrom: string,
    toAddress: string, transferTo: string,
    tokenAddress: string, contractAddress: string,
    value: RawNum, tokenDecimals: RawNum, decimals: RawNum,
    blockTimestamp: Option<int>, timestamp: Option<int>)

  /** Python's `a or b` on two strings. */
  function OrElse(a: string, b: string): string {
    if a != "" then a else b
  }

  /** `(it.get("from") or it.get("transfer_from") or "").strip()` */
  function Sender(t: Transfer): string {
    Strip(OrElse(t.fromAddress, t.transferFrom))
  }

  /** `(it.get("to") or it.get("transfer_to") or "").strip()` */
  function Recipient(t: Transfer): string {
    Strip(OrElse(t.toAddress, t.transferTo))
  }

  /** `token_info.address`, falling back to `contract_address`, or "". */
  function Contract(t: Transfer): string {
    OrElse(t.tokenAddress, t.contractAddress)
  }

  /** `it.get("block_timestamp") or it.get("timestamp")`: a zero block timestamp falls through. */
  function Timestamp(t: Transfer): Option<int> {
    if t.blockTimestamp.Some? && t.blockTimestamp.value != 0 then t.blockTimestamp else t.timestamp
  }

  /**
   * The millisecond timestamps `fmt_time` can convert: `datetime` spans the
   * years 1 to 9999, from 0001-01-01T00:00:00Z to 9999-12-31T23:59:59.999Z.
   * Outside this range the conversion raises.
   */
  const EarliestFormattableMs: int := -62135596800000
  const LatestFormattableMs: int := 253402300799999

  predicate Formattable(ms: int) {
    EarliestFormattableMs <= ms <= LatestFormattableMs
  }

  /** The answer of the account-security lookup (`is_black_list`, `has_fraud_transaction`). */
  datatype SecurityReport = SecurityReport(isBlackList: bool, hasFraudTransaction: bool)

  /** The answer of the stablecoin-blacklist lookup; a missing `total` reads as 0. */
  datatype BlacklistReport = BlacklistReport(total: int)

  /**
   * The two compliance lookups, as functions of the address; `None` stands
   * for a lookup that raised (transport error, HTTP error status).
   */
  datatype Lookups = Lookups(
    security: string -> Option<SecurityReport>,
    blacklist: string -> Option<BlacklistReport>)

  /** The official USDT TRC-20 contract. */
  const UsdtContract: string := "TR7NHqjeKQxGTCi8q8ZY4pL8otSzgjLj6t"

  /** Sanity bound on one transfer's amount (`USDT_MAX_EVENT`). */
  const UsdtMaxEvent: real := 1000000000000.0

  /** Thresholds read from the environment at start-up. */
  datatype Config = Config(dustMicroUsdt: real, dustSmallUsdt: real, dustMinEvents: int)

  /** The defaults used when the environment sets nothing. */
  const DefaultConfig: Config := Config(0.1, 1.0, 3)

  /** The scoring weights `W`. */
  datatype Weights = Weights(
    blacklistUsdt: int, fraudFlag: int, blacklistUsdtEvidence: int,
    counterpartyHit: int, counterpartyCap: int,
    dustBase: int, dustPerEvent: int, dustCap: int)
  {
    predicate NonNegative() {
      && blacklistUsdt >= 0 && fraudFlag >= 0 && blacklistUsdtEvidence >= 0
      && counterpartyHit >= 0 && counterpartyCap >= 0
      && dustBase >= 0 && dustPerEvent >= 0 && dustCap >= 0
    }
  }
}
