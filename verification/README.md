# TRON wallet risk engine: a Dafny model

This project models the risk-scoring core of a TRON wallet analyser,
`app/risk_engine/core.py`. Given a wallet address, `score_wallet` does the following:

- Queries two compliance lookups for the address: the account-security flags and the stablecoin blacklist.
- Reads the account overview and one page of TRC-20 transfers.
- Keeps only transfers of the official USDT contract, with their amounts normalised by the token's decimals.
- Sums the USDT inflow and outflow, and tracks the earliest and latest timestamp.
- Sorts small transfers into "micro" and "small" dust tiers.
- Collects the one-hop counterparties and keeps those that the lookups flag as risky.
- Builds an additive, capped score (0–100 with non-negative weights), a Low/Medium/High level, an ordered list of reasons, a summary sentence and an exposure breakdown.

The model has one module per component:

| module | models |
|---|---|
| `Text` | Python's `str.strip`, `str.upper`/`lower`, string order, `", ".join` |
| `Records` | transfer records, lookup results, configuration and weights |
| `Amount` | `_is_usdt_trc20`, `_normalize_amount_usdt` |
| `Flows` | `_aggregate_flows_trc20` (a method with a loop, proved against fold functions) |
| `Dust` | `_dust_counters_trc20_usdt` (a method with a loop) |
| `Counterparties` | `_extract_counterparties_trc20`, `_batch_security_check` (methods with loops) |
| `Scoring` | the reason/score accumulation in `score_wallet` and the level thresholds |
| `Summary` | `build_summary` |
| `Exposure` | `_exposure_breakdown` |
| `Account` | `build_basic_info` and its `pick` unwrapping |
| `Format` | `fmt_amount` |
| `Wallet` | `score_wallet` as a whole |

How the model stands in for the program's runtime:

- **Decimal amounts.** These are exact `real`s.
- **Lookups.** The lookups of the subject and of each counterparty are functions from an address to `Option<...>`. `None` means the call raised.
- **Raised errors.** `score_wallet` does not catch errors from the subject's own lookups. A failure there makes `Wallet.ScoreWallet` return `None`. It does the same when `build_basic_info` raises, and when `fmt_time` raises on the first or last transfer time.
- **`fmt_time` failures.** `fmt_time` raises on a truthy value that is not a number: a non-empty string, list or object. It also raises on a number of milliseconds outside the years 1 to 9999 (UTC), which `datetime` cannot represent. `Records.Formattable` is that range, and `Account.FmtTimeRaises` is the failure test. `True` reads as 1 ms and does not raise.
- **Weights and thresholds.** The weights `W` and the dust thresholds are parameters. The weights come from `app/risk_engine/weights.py`, which is not part of this model. The thresholds are read from the environment. `Records.DefaultConfig` holds the default thresholds.

Two behaviours of the code are easy to misread:

- **Score floor.** The score is only capped from above, by `min(score, 100)` (core.py:229). `Scoring.Score` has no lower clamp, and the lower bound 0 is proved only for non-negative weights.
- **Evidence weight.** The `BLACKLIST_USDT_EVIDENCE` reason reports `W.BLACKLIST_USDT_EVIDENCE` as its weight (core.py:187). The score, however, becomes `max(score, W.BLACKLIST_USDT)` (core.py:189). `Scoring.Score` does the same.

## Model

| member | source | states |
|---|---|---|
| Text.StripSpec | app/risk_engine/core.py:69-70 | `strip()` removes exactly the leading and trailing whitespace: the result is a slice of the input that does not start or end with whitespace, and everything removed is whitespace |
| Amount.ResolvedDecimals | app/risk_engine/core.py:96 | the decimals are `token_info.decimals` when truthy, otherwise `decimals` when truthy, otherwise 6 |
| Amount.Sanitize | app/risk_engine/core.py:97-101 | an amount survives iff `0 < amt <= 10^12` and is then unchanged; otherwise it becomes 0 |
| Amount.Normalize | app/risk_engine/core.py:93-103 | the normalised amount is 0 or lies in `(0, 10^12]`; it is non-zero iff the value and decimals parse and `value / 10^decimals` lies in `(0, 10^12]`, and it then equals that quotient |
| Amount.MalformedIsZero | app/risk_engine/core.py:94-103 | an unparseable value or unparseable decimals give exactly 0 |
| Amount.DecimalsDefaultToSix | app/risk_engine/core.py:96-97 | missing or zero decimals in both places mean 6 decimals |
| Amount.UsdtFilterIgnoresCase | app/risk_engine/core.py:89-91 | the USDT test does not depend on the letter case of the contract addresses |
| Amount.TokenInfoAddressWins | app/risk_engine/core.py:90-91 | a non-empty `token_info.address` alone decides the USDT test, compared case-insensitively with the USDT contract |
| Flows.Flow | app/risk_engine/core.py:114-125 | a USDT flow total is never negative |
| Flows.FlowPermutation | app/risk_engine/core.py:105-126 | the inflow and outflow totals do not depend on the order of the records |
| Flows.OnlyUsdtCounts | app/risk_engine/core.py:114-116 | dropping every non-USDT record leaves the totals unchanged |
| Flows.SelfTransferCountsTwice | app/risk_engine/core.py:124-125 | a USDT transfer from the wallet to itself adds its amount to both inflow and outflow |
| Flows.FlowBound | app/risk_engine/core.py:99-100 | each total is at most the number of records times the 10^12 outlier bound |
| Flows.EarliestLatestAreExtremes | app/risk_engine/core.py:108-112 | the tracked first and last timestamps are absent iff no record has one; otherwise they are the minimum and maximum of all records' timestamps, whatever the contract |
| Flows.EarliestLatestPermutation | app/risk_engine/core.py:108-112 | the first and last timestamps do not depend on the order of the records |
| Flows.AsWrittenAgreesWithoutZero | app/risk_engine/core.py:111-112 | when no record is stamped 0, the source's `not first_ts` update yields the true minimum and maximum |
| Flows.ZeroTimestampMakesFirstSeenOrderDependent | app/risk_engine/core.py:111-112 | with records stamped 3, 0, 5 the as-written `first_ts` is 5; the same records ordered 0, 3, 5 give 3; the earliest stamp is 0 |
| Flows.AggregateFlows | app/risk_engine/core.py:105-126 | the loop returns the USDT inflow and outflow of the wallet (both non-negative) and the earliest and latest timestamps over all records; these equal what the source computes whenever no record is stamped 0 |
| Dust.TierBoundaries | app/risk_engine/core.py:142-147 | the micro threshold itself is micro, the small threshold itself is small, and anything above it is not dust |
| Dust.TierOfRecord | app/risk_engine/core.py:131-147 | a USDT record with amount in `(0, micro]` is micro, in `(micro, small]` small; a non-USDT or zero-amount record, or a larger one, is not dust |
| Dust.AppendBumpsOneTier | app/risk_engine/core.py:142-147 | one more record raises only the counter of its own tier and direction, by one, and no other counter |
| Dust.DustWithinUsdt | app/risk_engine/core.py:128-147 | incoming dust events are at most the USDT records sent to the wallet, and outgoing ones at most those sent by it |
| Dust.UniqueCounterpartiesBound | app/risk_engine/core.py:143-151 | distinct dust sources are at most the incoming dust events, and distinct destinations at most the outgoing ones |
| Dust.CountDust | app/risk_engine/core.py:128-152 | the loop returns the per-tier, per-direction counts and the distinct sources and destinations, with `unique_sources <= dust_in <= USDT received` and likewise outwards |
| Counterparties.Senders | app/risk_engine/core.py:69-71 | the sender set never holds the wallet itself or the empty string |
| Counterparties.Receivers | app/risk_engine/core.py:70-72 | the receiver set never holds the wallet itself or the empty string |
| Counterparties.SendersMembership | app/risk_engine/core.py:66-73 | an address is a sender iff it is the non-empty stripped `from` of some record and differs from the wallet |
| Counterparties.ReceiversMembership | app/risk_engine/core.py:66-73 | an address is a receiver iff it is the non-empty stripped `to` of some record and differs from the wallet |
| Counterparties.ExtractCounterparties | app/risk_engine/core.py:66-73 | the loop returns exactly the sender and receiver sets, neither holding the wallet or "" |
| Counterparties.FailedLookupIsNotRisky | app/risk_engine/core.py:78-86 | an address whose security lookup raises is never reported risky |
| Counterparties.FlaggedUnion | app/risk_engine/core.py:201-205 | filtering the union of two sets equals the union of the filtered sets |
| Counterparties.BatchSecurityCheck | app/risk_engine/core.py:75-87 | the loop returns a subset of its input: exactly the addresses whose security lookup succeeds and flags them, or whose blacklist lookup then succeeds with `total > 0` |
| Scoring.LevelOf | app/risk_engine/core.py:230 | High iff score >= 70, Medium iff 30 <= score < 70, Low iff score < 30 |
| Scoring.CounterpartyAddendCapped | app/risk_engine/core.py:206-210 | the counterparty addend lies in `[0, cap]`, grows with the hit count and is exactly the cap once `hits * hit >= cap` |
| Scoring.DustAddendCapped | app/risk_engine/core.py:217-224 | the dust addend is at most the cap, non-negative once the threshold is met, grows with the event count and is exactly the cap once the linear term reaches it |
| Scoring.FiveDustEventsAddFourteen | app/risk_engine/core.py:217-218 | with base 10, 2 per event, cap 30 and threshold 3, five events add 14 points |
| Scoring.ScoreBounds | app/risk_engine/core.py:229 | the final score is at most 100, and at least 0 when the weights are non-negative |
| Scoring.ScoreMonotone | app/risk_engine/core.py:204-229 | with non-negative weights, more risky counterparties or more dust events never lower the score |
| Scoring.ReasonsPresent | app/risk_engine/core.py:176-224 | each reason code is present iff its condition holds: blacklisted; fraud flag; blacklist evidence without blacklisting; at least one risky counterparty; enough dust events |
| Scoring.EvidenceExcludesBlacklist | app/risk_engine/core.py:186 | `BLACKLIST_USDT_EVIDENCE` and `BLACKLIST_USDT` never appear together |
| Scoring.ReasonsInEvaluationOrder | app/risk_engine/core.py:176-223 | the reasons follow the fixed order BLACKLIST_USDT, FRAUD_FLAG, BLACKLIST_USDT_EVIDENCE, COUNTERPARTY_HIGH, DUST_ACTIVITY, each at most once |
| Scoring.ReasonWeights | app/risk_engine/core.py:178-221 | each reason carries the weight the source writes for it, including the capped counterparty and dust addends |
| Scoring.ReasonsExplainScore | app/risk_engine/core.py:172-229 | when the evidence weight equals the blacklist weight and fraud does not meet evidence without blacklisting, the score is `min(sum of reason weights, 100)` |
| Scoring.AccumulateScore | app/risk_engine/core.py:172-229 | the step-by-step accumulation gives the specified score and reasons, the score within its bounds and the reasons in evaluation order |
| Summary.BuildSummary | app/risk_engine/core.py:60-64 | the summary is the fixed no-signal sentence iff there are no reasons |
| Summary.TopCodesAreSortedSet | app/risk_engine/core.py:63 | the listed codes are strictly sorted, are exactly the codes of the reasons, and are the only such list: `sorted({r["code"] for r in reasons})` |
| Summary.SummaryIgnoresRepeats | app/risk_engine/core.py:63-64 | repeating a reason does not change the summary |
| Exposure.Counts.Denominator | app/risk_engine/core.py:155 | the denominator is at least 1 and at least the total, and equals the total when it is positive |
| Exposure.BreakdownMembership | app/risk_engine/core.py:158-166 | an entry is present iff its category's count is positive, with share `100 * count / denominator` |
| Exposure.BreakdownInOrder | app/risk_engine/core.py:161-166 | the k-th entry is the share of the k-th category with a positive count, and those categories come in strictly increasing order |
| Exposure.NoPositiveNoEntries | app/risk_engine/core.py:158-167 | the breakdown is empty iff every count is 0 |
| Exposure.SharesAddUp | app/risk_engine/core.py:155-167 | the shares sum to `100 * total / denominator` |
| Exposure.ExposureShares | app/risk_engine/core.py:154-167 | the breakdown is empty iff the counts sum to 0; otherwise its exact shares sum to 100 and each lies in `(0, 100]` |
| Exposure.Add | app/risk_engine/core.py:158-159 | `add` appends an entry exactly when the count is positive |
| Exposure.ExposureBreakdown | app/risk_engine/core.py:154-167 | the six `add` steps build the specified breakdown, with the emptiness, sum-to-100 and share-range properties |
| Account.BuildBasicInfo | app/risk_engine/core.py:28-58 | the call fails iff the unwrapped payload is not an object, or a truthy creation or last-operation timestamp is a non-empty string, list or object, or a number of milliseconds outside the years 1 to 9999; kept timestamps are truthy and formattable |
| Account.PlainObjectIsKept | app/risk_engine/core.py:47 | an object without `"data"` is its own payload |
| Account.UnwrapObject | app/risk_engine/core.py:41-44 | a `"data"` object is the payload |
| Account.UnwrapList | app/risk_engine/core.py:45-46 | the first element of a non-empty `"data"` list is the payload |
| Account.OtherDataIsKept | app/risk_engine/core.py:41-47 | any other `"data"` value leaves the envelope as the payload |
| Account.TimestampFallbacks | app/risk_engine/core.py:50-57 | the balance is read as is; `create_time` wins over `createTime` when truthy, `latest_opration_time` over `latest_operation_time`, and a falsy pair gives no timestamp; the call succeeds iff neither chosen timestamp makes `fmt_time` raise |
| Account.StringTimestampFails | app/risk_engine/core.py:28-56 | a non-empty string `create_time` makes the call fail |
| Account.OutOfRangeTimestampFails | app/risk_engine/core.py:28-57 | a non-zero integer `latest_opration_time` makes the call fail iff it lies outside the years 1 to 9999 |
| Account.NonObjectListHeadFails | app/risk_engine/core.py:45-50 | a `"data"` list whose first element is not an object makes the call fail |
| Format.RoundHalfEven | app/risk_engine/core.py:23 | the rounded value is within half a unit of the input, and even on a tie |
| Format.RoundingIsUnique | app/risk_engine/core.py:23 | any integer meeting those two conditions is the rounded value |
| Format.GroupRoundTrip | app/risk_engine/core.py:24 | the thousands-grouped digits read back, commas dropped, as the number |
| Format.GroupShape | app/risk_engine/core.py:24 | the grouped form holds only digits and commas and has no leading zero |
| Format.FmtAmountRoundTrip | app/risk_engine/core.py:19-26 | the formatted amount reads back as the input rounded half-to-even to cents, with its sign and within 0.005 of it; `"0.00"` when the rounded value exceeds 28 digits |
| Wallet.WhenTruthy | app/risk_engine/core.py:236-237 | a timestamp is formatted iff it is present and non-zero |
| Wallet.HitsAreFlaggedCounterparties | app/risk_engine/core.py:205 | the hit count is the number of flagged addresses among all counterparties, and at most the number of counterparties |
| Wallet.QuietWalletIsLow | app/risk_engine/core.py:172-230 | a wallet without flags, evidence, risky counterparties or enough dust scores 0, is Low and gets the no-signal summary |
| Wallet.BlacklistedIsHigh | app/risk_engine/core.py:177-179 | a blacklisted wallet is High whenever the blacklist weight is at least 70, and its summary names signals |
| Wallet.FarFutureTransferRaises | app/risk_engine/core.py:236 | a single transfer stamped after the year 9999 makes the whole call fail |
| Wallet.ScoreWallet | app/risk_engine/core.py:171-257 | the report exists iff none of the subject's lookups, `build_basic_info`, or formatting the first or last transfer time raises; each field is the specified score, level, reasons, summary, exposure and basic information, with the score at most 100; `first_transfer`/`last_transfer` hold the earliest and latest timestamps over all records (`Flows.EarliestTs`/`LatestTs`), which differ from the code's running values only when a record is stamped 0 (see Findings) |

## Left out

- **HTTP transport.** `app/sources/tronscan.py` and `app/sources/trongrid.py` are not part of this model. Their results are inputs: lookup functions, the account overview as a JSON value, and the transfer page as a list of parsed records.
- **Failures of the overview and transfer calls.** These are not modelled as raising. A page that is not a list is read as no records.
- **Concurrency.** `async`/`await` is not modelled. The counterparty lookups run one address at a time, and their result is a set, so order does not matter.
- **Other parts of the program.** `app/main.py`, `app/storage/`, `app/pdf_report/build.py` and `app/utils/address.py` are not part of this model. They are web routing, storage, PDF drawing and base58 checks.
- **`fmt_time` (core.py:28-35).** Calendar conversion and `strftime` are not modelled, only whether the call raises. The report keeps the raw timestamp that would be formatted. The range is years 1 to 9999 in UTC. Float rounding of `ms/1000` at the range ends and platform limits of the C time functions are not modelled.
- Scoring.AccumulateScore: the weights are integers, so the truncations `int(add)` (core.py:221-224) and `int(min(score, 100))` (core.py:229) of fractional weights are not modelled.
- **Exposure shares.** The `round(100.0 * v / total, 1)` in floating point is not modelled. Shares are exact ratios, so "the shares sum to 100" holds for the exact values only.
- **Decimal context.** Only two parts of the default `Decimal` context are modelled: the 28-digit limit on `quantize` in `fmt_amount`, and round-half-even. Rounding of divisions and sums beyond 28 digits, and the exponent range, are left out.
- **Value strings.** Values are parsed integers or malformed. Fractional and exponent strings (e.g. `"1.5"`, `"1e3"`), `NaN` and `Infinity` are treated as malformed and give 0.
- **Decimals.** Decimals are integers. A decimals string such as `"0"` is truthy in Python and is not modelled.
- **Letter case.** `upper()` and `lower()` only change ASCII letters.
- **Thresholds.** The thresholds read from the environment (core.py:11-16) are configuration parameters. `CACHE_MINUTES` is not used by the core.
- **Record shapes.** Transfer records are parsed into fields, so items that are not objects, and nested `token_info` values other than objects, are not modelled.
- **Lookup payloads.** Only the `is_black_list`, `has_fraud_transaction` and `total` fields are kept, as booleans and an integer. The report holds these parsed values, not the raw payloads.
- **Reason details.** The `detail` text of each reason is kept as the values it interpolates, not as rendered text.
- Dust.CountDust: invariance of the dust counters under reordering of the records is not proved.

## Findings

| source | as written | input that shows it | evidently intended | confidence | as-written member | corrected member |
|---|---|---|---|---|---|---|
| app/risk_engine/core.py:111-112 | `first_ts = ts if not first_ts or ts < first_ts else first_ts` treats a stored timestamp 0 as "not yet set", and `last_ts` likewise | transfers stamped 3, 0, 5 in that order give `first_ts = 5`, though 0 and 3 both precede it; the order 0, 3, 5 gives 3 | the earliest and latest timestamp over all records, independent of their order (an absence test `first_ts is None`) | not executed; needs a record stamped 0 | Flows.ZeroTimestampMakesFirstSeenOrderDependent | Flows.EarliestLatestAreExtremes |
