/**
 * `score_wallet`: the whole assessment of one address, with the upstream
 * answers (compliance lookups, account overview, TRC-20 transfer page)
 * given as inputs.
 */
module Wallet {
  import opened Records
  import opened Flows
  import opened Dust
  import opened Counterparties
  import opened Scoring
  import opened Summary
  import opened Exposure
  import opened Account
  import opened Format

  /** `basic_info` of the report. */
  datatype BasicInfo = BasicInfo(
    /** The fields read from the account overview; `None` when the overview is not an object. */
    account: Option<AccountInfo>,
    inflowUsdt: string,
    outflowUsdt: string,
    /** The timestamps handed to the time formatter; `None` where the source writes `None`. */
    firstTransfer: Option<int>,
    lastTransfer: Option<int>,
    dustInEvents: nat,
    dustOutEvents: nat,
    dustTotal: nat)

  /** The result of `score_wallet`. */
  datatype WalletReport = WalletReport(
    address: string,
    riskScore: int,
    riskLevel: Level,
    reasons: seq<Reason>,
    summary: string,
    basicInfo: BasicInfo,
    security: SecurityReport,
    blacklist: BlacklistReport,
    exposure: seq<Entry>)

  /** `trc20.get("data", []) or []`, with anything but a list read as no records. */
  function ItemsOf(page: Option<seq<Transfer>>): seq<Transfer> {
    if page.Some? then page.value else []
  }

  /** `fmt_time(ts) if ts else None`: the timestamp to format, or nothing when it is missing or 0. */
  function WhenTruthy(ts: Option<int>): (r: Option<int>)
    ensures r.Some? <==> ts.Some? && ts.value != 0
    ensures r.Some? ==> r == ts
  {
    if ts.Some? && ts.value != 0 then ts else None
  }

  /** `fmt_time(ts) if ts else None` raises on a transfer timestamp: it is non-zero and outside the years `datetime` spans. */
  predicate TransferTimeRaises(ts: Option<int>) {
    ts.Some? && ts.value != 0 && !Formattable(ts.value)
  }

  /**
   * The calls of `score_wallet` that are not guarded and raise out of it: the
   * subject's two lookups, `build_basic_info`, and formatting the first and
   * last transfer times.
   */
  predicate Raises(address: string, lookups: Lookups, account: Json, page: Option<seq<Transfer>>) {
    || lookups.security(address).None?
    || lookups.blacklist(address).None?
    || (account.JObj? && BuildBasicInfo(account).None?)
    || TransferTimeRaises(EarliestTs(ItemsOf(page)))
    || TransferTimeRaises(LatestTs(ItemsOf(page)))
  }

  /** `len(risky_in | risky_out)` */
  function Hits(items: seq<Transfer>, address: string, lookups: Lookups): nat {
    |Flagged(Senders(items, address), lookups) + Flagged(Receivers(items, address), lookups)|
  }

  /** The risky counterparties counted by `hits` are exactly the flagged addresses among all counterparties. */
  lemma HitsAreFlaggedCounterparties(items: seq<Transfer>, address: string, lookups: Lookups)
    ensures Hits(items, address, lookups) == |Flagged(Senders(items, address) + Receivers(items, address), lookups)|
    ensures Hits(items, address, lookups) <= |Senders(items, address) + Receivers(items, address)|
  {
    var all := Senders(items, address) + Receivers(items, address);
    FlaggedUnion(Senders(items, address), Receivers(items, address), lookups);
    assert Flagged(all, lookups) <= all;
    SubsetCardinality(Flagged(all, lookups), all);
  }

  lemma {:induction false} SubsetCardinality(a: set<string>, b: set<string>)
    requires a <= b
    ensures |a| <= |b|
    decreases b
  {
    if a != {} {
      var x :| x in a;
      SubsetCardinality(a - {x}, b - {x});
    }
  }

  /**
   * A wallet with no direct flag, no blacklist evidence, no risky
   * counterparty and too few dust events scores 0, is Low, and gets the
   * no-signal summary.
   */
  lemma QuietWalletIsLow(sec: SecurityReport, bl: BlacklistReport, hits: nat, dust: DustCounters, w: Weights, cfg: Config)
    requires !sec.isBlackList && !sec.hasFraudTransaction && bl.total <= 0 && hits == 0
    requires dust.Events() < cfg.dustMinEvents
    ensures Score(sec, bl, hits, dust.Events(), w, cfg) == 0
    ensures LevelOf(Score(sec, bl, hits, dust.Events(), w, cfg)) == Low
    ensures Reasons(sec, bl, hits, dust, w, cfg) == []
    ensures BuildSummary(Low, Reasons(sec, bl, hits, dust, w, cfg)) == NoSignals
  {
  }

  /** A directly blacklisted wallet reaches High whenever the blacklist weight is at least 70. */
  lemma BlacklistedIsHigh(sec: SecurityReport, bl: BlacklistReport, hits: nat, dust: DustCounters, w: Weights, cfg: Config)
    requires w.NonNegative() && w.blacklistUsdt >= 70
    requires sec.isBlackList
    ensures LevelOf(Score(sec, bl, hits, dust.Events(), w, cfg)) == High
    ensures BuildSummary(High, Reasons(sec, bl, hits, dust, w, cfg)) != NoSignals
  {
    CounterpartyAddendCapped(hits, hits, w);
    DustAddendCapped(dust.Events(), dust.Events(), w, cfg);
    ReasonsPresent(sec, bl, hits, dust, w, cfg, BlacklistUsdt);
  }

  /** A transfer stamped 10^21 ms, past the year 9999, makes `score_wallet` raise whatever else it is given. */
  lemma FarFutureTransferRaises(address: string, lookups: Lookups, account: Json)
    ensures Raises(address, lookups, account, Some([StampedRecord(1000000000000000000000)]))
  {
    var items := [StampedRecord(1000000000000000000000)];
    assert items[..0] == [];
    assert EarliestTs(items) == Some(1000000000000000000000);
  }

  /** `score_wallet(address)` */
  method ScoreWallet(address: string, lookups: Lookups, account: Json, page: Option<seq<Transfer>>, w: Weights, cfg: Config)
    returns (r: Option<WalletReport>)
    ensures r.None? <==> Raises(address, lookups, account, page)
    ensures r.Some? ==>
      var rep, items := r.value, ItemsOf(page);
      var sec, bl := lookups.security(address).value, lookups.blacklist(address).value;
      var dust := DustCounters(
        CountIn(items, address, cfg, Micro), CountOut(items, address, cfg, Micro),
        CountIn(items, address, cfg, Small), CountOut(items, address, cfg, Small),
        |Sources(items, address, cfg)|, |Dests(items, address, cfg)|);
      var hits := Hits(items, address, lookups);
      && rep.address == address && rep.security == sec && rep.blacklist == bl
      && rep.riskScore == Score(sec, bl, hits, dust.Events(), w, cfg)
      && rep.riskScore <= 100 && (w.NonNegative() ==> 0 <= rep.riskScore)
      && rep.riskLevel == LevelOf(rep.riskScore)
      && rep.reasons == Reasons(sec, bl, hits, dust, w, cfg)
      && rep.summary == BuildSummary(rep.riskLevel, rep.reasons)
      && rep.exposure == Breakdown(Categories,
           Counts(|Flagged(Senders(items, address), lookups)|, |Flagged(Receivers(items, address), lookups)|,
                  dust.DustIn(), dust.DustOut(), 0, 0).AsSeq(),
           Counts(|Flagged(Senders(items, address), lookups)|, |Flagged(Receivers(items, address), lookups)|,
                  dust.DustIn(), dust.DustOut(), 0, 0).Denominator() as real)
      && rep.basicInfo == BasicInfo(
           if account.JObj? then BuildBasicInfo(account) else None,
           FmtAmount(Inflow(items, address)), FmtAmount(Outflow(items, address)),
           WhenTruthy(EarliestTs(items)), WhenTruthy(LatestTs(items)),
           dust.DustIn(), dust.DustOut(), dust.Events())
  {
    var sec := lookups.security(address);
    if sec.None? {
      return None;
    }
    var bl := lookups.blacklist(address);
    if bl.None? {
      return None;
    }
    var items := ItemsOf(page);
    var ins, outs := ExtractCounterparties(items, address);
    var riskyIn := BatchSecurityCheck(ins, lookups);
    var riskyOut := BatchSecurityCheck(outs, lookups);
    var hits := |riskyIn + riskyOut|;
    var dust := CountDust(items, address, cfg);
    var score, reasons := AccumulateScore(sec.value, bl.value, hits, dust, w, cfg);
    var inflow, outflow, firstTs, lastTs := AggregateFlows(items, address);
    var level := LevelOf(score);
    var accountInfo: Option<AccountInfo> := None;
    if account.JObj? {
      accountInfo := BuildBasicInfo(account);
      if accountInfo.None? {
        return None;
      }
    }
    if TransferTimeRaises(firstTs) || TransferTimeRaises(lastTs) {
      return None;
    }
    var basic := BasicInfo(accountInfo, FmtAmount(inflow), FmtAmount(outflow),
      WhenTruthy(firstTs), WhenTruthy(lastTs), dust.DustIn(), dust.DustOut(), dust.Events());
    var exposure := ExposureBreakdown(Counts(|riskyIn|, |riskyOut|, dust.DustIn(), dust.DustOut(), 0, 0));
    r := Some(WalletReport(address, score, level, reasons, BuildSummary(level, reasons), basic,
      sec.value, bl.value, exposure));
  }
}
