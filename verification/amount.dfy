/**
 * Amount normalisation and the USDT contract filter: `_normalize_amount_usdt`
 * and `_is_usdt_trc20`.
 */
module Amount {
  import opened Text
  import opened Records

  /** `Decimal(10) ** e`, exactly, for any integer exponent. */
  function Pow10(e: int): (r: real)
    ensures r > 0.0
    decreases if e < 0 then -e else e
  {
    if e == 0 then 1.0
    else if e > 0 then 10.0 * Pow10(e - 1)
    else Pow10(e + 1) / 10.0
  }

  /**
   * `token_info.decimals or decimals or 6`: the first truthy field, else 6.
   * Missing fields and an integer 0 fall through.
   */
  function ResolvedDecimals(t: Transfer): (d: RawNum)
    ensures !d.Absent?
    ensures Truthy(t.tokenDecimals) ==> d == t.tokenDecimals
    ensures !Truthy(t.tokenDecimals) && Truthy(t.decimals) ==> d == t.decimals
    ensures !Truthy(t.tokenDecimals) && !Truthy(t.decimals) ==> d == Num(6)
  {
    if Truthy(t.tokenDecimals) then t.tokenDecimals
    else if Truthy(t.decimals) then t.decimals
    else Num(6)
  }

  /** The outlier guard: a quotient `<= 0` or `> 10^12` is replaced by 0. */
  function Sanitize(amt: real): (r: real)
    ensures r == 0.0 || 0.0 < r <= UsdtMaxEvent
    ensures r != 0.0 <==> 0.0 < amt <= UsdtMaxEvent
    ensures r != 0.0 ==> r == amt
  {
    if amt <= 0.0 || amt > UsdtMaxEvent then 0.0 else amt
  }

  /**
   * `_normalize_amount_usdt`: `value / 10^decimals` in exact decimal
   * arithmetic; any parse failure, and any outlier, yields 0.
   */
  function Normalize(t: Transfer): (r: real)
    ensures r == 0.0 || 0.0 < r <= UsdtMaxEvent
    ensures r != 0.0 <==>
      && t.value.Num? && ResolvedDecimals(t).Num?
      && 0.0 < t.value.n as real / Pow10(ResolvedDecimals(t).n) <= UsdtMaxEvent
    ensures r != 0.0 ==> r == t.value.n as real / Pow10(ResolvedDecimals(t).n)
  {
    match (t.value, ResolvedDecimals(t))
    case (Num(v), Num(d)) => Sanitize(v as real / Pow10(d))
    case _ => 0.0
  }

  /** An unparseable value or decimals field normalises to exactly 0. */
  lemma MalformedIsZero(t: Transfer)
    requires !t.value.Num? || ResolvedDecimals(t).Malformed?
    ensures Normalize(t) == 0.0
  {
  }

  /** With both decimals fields missing or zero, the value is read with 6 decimals. */
  lemma {:induction false} DecimalsDefaultToSix(t: Transfer, v: int)
    requires t.value == Num(v)
    requires t.tokenDecimals == Absent || t.tokenDecimals == Num(0)
    requires t.decimals == Absent || t.decimals == Num(0)
    ensures Normalize(t) == Sanitize(v as real / 1000000.0)
  {
    assert Pow10(6) == 1000000.0 by {
      assert Pow10(3) == 1000.0;
    }
  }

  /** `_is_usdt_trc20`: the upper-cased contract equals the upper-cased USDT contract. */
  predicate IsUsdt(t: Transfer) {
    Upper(Contract(t)) == UsdtContractUpper
  }

  /** `USDT_CONTRACT_UP`, computed once at start-up. */
  const UsdtContractUpper: string := Upper(UsdtContract)

  /**
   * The contract filter ignores case: a record whose contract is the USDT
   * contract written in lower case is still a USDT record, and changing the
   * case of any contract never changes the verdict.
   */
  lemma UsdtFilterIgnoresCase(t: Transfer)
    ensures IsUsdt(t) == IsUsdt(t.(tokenAddress := Lower(t.tokenAddress), contractAddress := Lower(t.contractAddress)))
    ensures IsUsdt(t) == IsUsdt(t.(tokenAddress := Upper(t.tokenAddress), contractAddress := Upper(t.contractAddress)))
  {
    UpperOfLower(t.tokenAddress);
    UpperOfLower(t.contractAddress);
  }

  /** The nested `token_info.address` wins over `contract_address` whenever it is present. */
  lemma TokenInfoAddressWins(t: Transfer)
    requires t.tokenAddress != ""
    ensures IsUsdt(t) <==> Upper(t.tokenAddress) == Upper(UsdtContract)
  {
  }
}
