/**
 * Signal scoring (the accumulation inside `score_wallet`): direct flags,
 * blacklist evidence, risky one-hop counterparties and dust activity are
 * combined, in a fixed order, into a score capped at 100, a list of
 * reasons and a three-level classification.
 */
module Scoring {
  import opened Records
  import opened Dust

  /** The reason codes, declared in evaluation order. */
  datatype Code = BlacklistUsdt | FraudFlag | BlacklistUsdtEvidence | CounterpartyHigh | DustActivity
  {
    /** The code as it appears in the report. */
    function Name(): string {
      match this
      case BlacklistUsdt => "BLACKLIST_USDT"
      case FraudFlag => "FRAUD_FLAG"
      case BlacklistUsdtEvidence => "BLACKLIST_USDT_EVIDENCE"
      case CounterpartyHigh => "COUNTERPARTY_HIGH"
      case DustActivity => "DUST_ACTIVITY"
    }

    /** Position of the step that emits the code. */
    function Rank(): nat {
      match this
      case BlacklistUsdt => 0
      case FraudFlag => 1
      case BlacklistUsdtEvidence => 2
      case CounterpartyHigh => 3
      case DustActivity => 4
    }
  }

  /** What the `detail` text of a reason reports. */
  datatype Detail =
    | SecurityBlacklisted
    | SecurityFraud
    | StablecoinBlacklistMatch
    | RiskyCounterparties(hits: nat)
    | DustEvents(events: nat, dustIn: nat, dustOut: nat, uniqueSources: nat, uniqueDests: nat,
                 microUsdt: real, smallUsdt: real)

  datatype Reason = Reason(code: Code, weight: int, detail: Detail)

  datatype Level = Low | Medium | High
  {
    function Name(): string {
      match this
      case Low => "Low"
      case Medium => "Medium"
      case High => "High"
    }
  }

  function Min(a: int, b: int): int { if a <= b then a else b }
  function Max(a: int, b: int): int { if a >= b then a else b }

  /** `min(hits * W.COUNTERPARTY_HIT, W.COUNTERPARTY_CAP)` */
  function CounterpartyAddend(hits: nat, w: Weights): int {
    Min(hits * w.counterpartyHit, w.counterpartyCap)
  }

  /** `min(W.DUST_BASE + (events - DUST_MIN_EVENTS) * W.DUST_PER_EVENT, W.DUST_CAP)` */
  function DustAddend(events: nat, w: Weights, cfg: Config): int {
    Min(w.dustBase + (events - cfg.dustMinEvents) * w.dustPerEvent, w.dustCap)
  }

  /** Whether some reason of the list carries code `c`. */
  predicate HasCode(reasons: seq<Reason>, c: Code) {
    exists i :: 0 <= i < |reasons| && reasons[i].code == c
  }

  /** `[r]` when the step fires, else nothing. */
  function Opt(fires: bool, r: Reason): seq<Reason> {
    if fires then [r] else []
  }

  /** The reason each step emits when it fires. */
  function BlacklistReason(w: Weights): Reason { Reason(BlacklistUsdt, w.blacklistUsdt, SecurityBlacklisted) }
  function FraudReason(w: Weights): Reason { Reason(FraudFlag, w.fraudFlag, SecurityFraud) }
  function EvidenceReason(w: Weights): Reason { Reason(BlacklistUsdtEvidence, w.blacklistUsdtEvidence, StablecoinBlacklistMatch) }
  function CounterpartyReason(hits: nat, w: Weights): Reason {
    Reason(CounterpartyHigh, CounterpartyAddend(hits, w), RiskyCounterparties(hits))
  }
  function DustReason(dust: DustCounters, w: Weights, cfg: Config): Reason {
    Reason(DustActivity, DustAddend(dust.Events(), w, cfg),
      DustEvents(dust.Events(), dust.DustIn(), dust.DustOut(), dust.uniqueSources, dust.uniqueDests,
                 cfg.dustMicroUsdt, cfg.dustSmallUsdt))
  }

  /** The reasons, in evaluation order. */
  function Reasons(sec: SecurityReport, bl: BlacklistReport, hits: nat, dust: DustCounters, w: Weights, cfg: Config): seq<Reason> {
    Opt(sec.isBlackList, BlacklistReason(w))
    + Opt(sec.hasFraudTransaction, FraudReason(w))
    + Opt(bl.total > 0 && !sec.isBlackList, EvidenceReason(w))
    + Opt(hits > 0, CounterpartyReason(hits, w))
    + Opt(dust.Events() >= cfg.dustMinEvents, DustReason(dust, w, cfg))
  }

  lemma HasCodeAppend(rs: seq<Reason>, fires: bool, r: Reason, c: Code)
    ensures HasCode(rs + Opt(fires, r), c) <==> HasCode(rs, c) || (fires && r.code == c)
  {
    var s := rs + Opt(fires, r);
    if HasCode(s, c) {
      var i :| 0 <= i < |s| && s[i].code == c;
      if i < |rs| {
        assert rs[i] == s[i];
      }
    }
    if fires && r.code == c {
      assert s[|rs|] == r;
    }
    if HasCode(rs, c) {
      var i :| 0 <= i < |rs| && rs[i].code == c;
      assert s[i] == rs[i];
    }
  }

  /** The codes rank strictly upwards from the front of the list, all of them below `k`. */
  predicate RanksBelow(rs: seq<Reason>, k: int) {
    rs == [] || (rs[|rs| - 1].code.Rank() < k && RanksBelow(rs[..|rs| - 1], rs[|rs| - 1].code.Rank()))
  }

  lemma {:induction false} RanksBelowAscending(rs: seq<Reason>, k: int)
    requires RanksBelow(rs, k)
    ensures forall i :: 0 <= i < |rs| ==> rs[i].code.Rank() < k
    ensures forall i, j :: 0 <= i < j < |rs| ==> rs[i].code.Rank() < rs[j].code.Rank()
  {
    if rs != [] {
      var n := |rs| - 1;
      RanksBelowAscending(rs[..n], rs[n].code.Rank());
      assert forall i :: 0 <= i < n ==> rs[i] == rs[..n][i];
    }
  }

  lemma OrderedAppend(rs: seq<Reason>, fires: bool, r: Reason, k: int)
    requires RanksBelow(rs, r.code.Rank()) && r.code.Rank() < k
    ensures RanksBelow(rs + Opt(fires, r), k)
  {
    if fires {
      assert (rs + [r])[..|rs|] == rs;
    } else {
      assert rs + [] == rs;
    }
  }

  /** The score before the final cap. */
  function RawScore(sec: SecurityReport, bl: BlacklistReport, hits: nat, events: nat, w: Weights, cfg: Config): int {
    var s1 := if sec.isBlackList then Max(0, w.blacklistUsdt) else 0;
    var s2 := if sec.hasFraudTransaction then s1 + w.fraudFlag else s1;
    var s3 := if bl.total > 0 && !sec.isBlackList then Max(s2, w.blacklistUsdt) else s2;
    var s4 := if hits > 0 then s3 + CounterpartyAddend(hits, w) else s3;
    if events >= cfg.dustMinEvents then s4 + DustAddend(events, w, cfg) else s4
  }

  /** `int(min(score, 100))` */
  function Score(sec: SecurityReport, bl: BlacklistReport, hits: nat, events: nat, w: Weights, cfg: Config): int {
    Min(RawScore(sec, bl, hits, events, w, cfg), 100)
  }

  /** The three levels and their exact thresholds. */
  function LevelOf(score: int): (l: Level)
    ensures l == High <==> 70 <= score
    ensures l == Medium <==> 30 <= score < 70
    ensures l == Low <==> score < 30
  {
    if score >= 70 then High else if score >= 30 then Medium else Low
  }

  /** The counterparty addend never exceeds its cap, never goes below 0 and never shrinks as hits grow. */
  lemma CounterpartyAddendCapped(h1: nat, h2: nat, w: Weights)
    requires w.NonNegative()
    ensures 0 <= CounterpartyAddend(h1, w) <= w.counterpartyCap
    ensures h1 <= h2 ==> CounterpartyAddend(h1, w) <= CounterpartyAddend(h2, w)
    ensures h1 * w.counterpartyHit >= w.counterpartyCap ==> CounterpartyAddend(h1, w) == w.counterpartyCap
  {
    if h1 <= h2 {
      assert h1 * w.counterpartyHit <= h2 * w.counterpartyHit by {
        assert (h2 - h1) * w.counterpartyHit >= 0;
      }
    }
  }

  /** The dust addend never exceeds its cap, never goes below 0 once due, and never shrinks as events grow. */
  lemma DustAddendCapped(e1: nat, e2: nat, w: Weights, cfg: Config)
    requires w.NonNegative()
    ensures DustAddend(e1, w, cfg) <= w.dustCap
    ensures e1 >= cfg.dustMinEvents ==> 0 <= DustAddend(e1, w, cfg)
    ensures e1 <= e2 ==> DustAddend(e1, w, cfg) <= DustAddend(e2, w, cfg)
    ensures w.dustBase + (e1 - cfg.dustMinEvents) * w.dustPerEvent >= w.dustCap ==> DustAddend(e1, w, cfg) == w.dustCap
  {
    if e1 >= cfg.dustMinEvents {
      assert (e1 - cfg.dustMinEvents) * w.dustPerEvent >= 0;
    }
    if e1 <= e2 {
      assert (e1 - cfg.dustMinEvents) * w.dustPerEvent <= (e2 - cfg.dustMinEvents) * w.dustPerEvent by {
        assert (e2 - e1) * w.dustPerEvent >= 0;
        assert (e2 - cfg.dustMinEvents) * w.dustPerEvent
            == (e1 - cfg.dustMinEvents) * w.dustPerEvent + (e2 - e1) * w.dustPerEvent;
      }
    }
  }

  /** The final score is at most 100, and at least 0 when every weight is non-negative. */
  lemma ScoreBounds(sec: SecurityReport, bl: BlacklistReport, hits: nat, events: nat, w: Weights, cfg: Config)
    ensures Score(sec, bl, hits, events, w, cfg) <= 100
    ensures w.NonNegative() ==> 0 <= Score(sec, bl, hits, events, w, cfg)
  {
    if w.NonNegative() {
      CounterpartyAddendCapped(hits, hits, w);
      DustAddendCapped(events, events, w, cfg);
    }
  }

  /** More risky counterparties or more dust events never lower the score. */
  lemma ScoreMonotone(sec: SecurityReport, bl: BlacklistReport, h1: nat, h2: nat, e1: nat, e2: nat, w: Weights, cfg: Config)
    requires w.NonNegative()
    requires h1 <= h2 && e1 <= e2
    ensures Score(sec, bl, h1, e1, w, cfg) <= Score(sec, bl, h2, e2, w, cfg)
  {
    CounterpartyAddendCapped(h1, h2, w);
    CounterpartyAddendCapped(h2, h2, w);
    DustAddendCapped(e1, e2, w, cfg);
    DustAddendCapped(e2, e2, w, cfg);
  }

  /** Which reasons appear, each in both directions, and that the evidence reason excludes the blacklist reason. */
  lemma ReasonsPresent(sec: SecurityReport, bl: BlacklistReport, hits: nat, dust: DustCounters, w: Weights, cfg: Config, c: Code)
    ensures var rs := Reasons(sec, bl, hits, dust, w, cfg);
      HasCode(rs, c) <==> match c
        case BlacklistUsdt => sec.isBlackList
        case FraudFlag => sec.hasFraudTransaction
        case BlacklistUsdtEvidence => bl.total > 0 && !sec.isBlackList
        case CounterpartyHigh => hits > 0
        case DustActivity => dust.Events() >= cfg.dustMinEvents
  {
    var r1 := Opt(sec.isBlackList, BlacklistReason(w));
    var r2 := r1 + Opt(sec.hasFraudTransaction, FraudReason(w));
    var r3 := r2 + Opt(bl.total > 0 && !sec.isBlackList, EvidenceReason(w));
    var r4 := r3 + Opt(hits > 0, CounterpartyReason(hits, w));
    HasCodeAppend([], sec.isBlackList, BlacklistReason(w), c);
    assert [] + r1 == r1;
    HasCodeAppend(r1, sec.hasFraudTransaction, FraudReason(w), c);
    HasCodeAppend(r2, bl.total > 0 && !sec.isBlackList, EvidenceReason(w), c);
    HasCodeAppend(r3, hits > 0, CounterpartyReason(hits, w), c);
    HasCodeAppend(r4, dust.Events() >= cfg.dustMinEvents, DustReason(dust, w, cfg), c);
  }

  /** The evidence reason appears only when the direct blacklist reason did not. */
  lemma EvidenceExcludesBlacklist(sec: SecurityReport, bl: BlacklistReport, hits: nat, dust: DustCounters, w: Weights, cfg: Config)
    ensures var rs := Reasons(sec, bl, hits, dust, w, cfg);
      HasCode(rs, BlacklistUsdtEvidence) ==> !HasCode(rs, BlacklistUsdt)
  {
    ReasonsPresent(sec, bl, hits, dust, w, cfg, BlacklistUsdtEvidence);
    ReasonsPresent(sec, bl, hits, dust, w, cfg, BlacklistUsdt);
  }

  /** Reasons appear in the fixed evaluation order, each at most once. */
  lemma ReasonsInEvaluationOrder(sec: SecurityReport, bl: BlacklistReport, hits: nat, dust: DustCounters, w: Weights, cfg: Config)
    ensures var rs := Reasons(sec, bl, hits, dust, w, cfg);
      forall i, j :: 0 <= i < j < |rs| ==> rs[i].code.Rank() < rs[j].code.Rank()
  {
    var r1 := Opt(sec.isBlackList, BlacklistReason(w));
    var r2 := r1 + Opt(sec.hasFraudTransaction, FraudReason(w));
    var r3 := r2 + Opt(bl.total > 0 && !sec.isBlackList, EvidenceReason(w));
    var r4 := r3 + Opt(hits > 0, CounterpartyReason(hits, w));
    var r5 := r4 + Opt(dust.Events() >= cfg.dustMinEvents, DustReason(dust, w, cfg));
    assert RanksBelow(r1, 1) by {
      OrderedAppend([], sec.isBlackList, BlacklistReason(w), 1);
      assert [] + r1 == r1;
    }
    assert RanksBelow(r2, 2) by {
      OrderedAppend(r1, sec.hasFraudTransaction, FraudReason(w), 2);
    }
    assert RanksBelow(r3, 3) by {
      OrderedAppend(r2, bl.total > 0 && !sec.isBlackList, EvidenceReason(w), 3);
    }
    assert RanksBelow(r4, 4) by {
      OrderedAppend(r3, hits > 0, CounterpartyReason(hits, w), 4);
    }
    assert RanksBelow(r5, 5) by {
      OrderedAppend(r4, dust.Events() >= cfg.dustMinEvents, DustReason(dust, w, cfg), 5);
    }
    assert Reasons(sec, bl, hits, dust, w, cfg) == r5;
    RanksBelowAscending(r5, 5);
  }

  /**
   * Every reason carries the weight and detail its step writes: the weight
   * `W` names for the direct flags and the evidence, and the capped addend
   * for counterparties and dust.
   */
  lemma ReasonWeights(sec: SecurityReport, bl: BlacklistReport, hits: nat, dust: DustCounters, w: Weights, cfg: Config, i: nat)
    requires i < |Reasons(sec, bl, hits, dust, w, cfg)|
    ensures var r := Reasons(sec, bl, hits, dust, w, cfg)[i];
      r == match r.code
        case BlacklistUsdt => Reason(BlacklistUsdt, w.blacklistUsdt, SecurityBlacklisted)
        case FraudFlag => Reason(FraudFlag, w.fraudFlag, SecurityFraud)
        case BlacklistUsdtEvidence => Reason(BlacklistUsdtEvidence, w.blacklistUsdtEvidence, StablecoinBlacklistMatch)
        case CounterpartyHigh => Reason(CounterpartyHigh, CounterpartyAddend(hits, w), RiskyCounterparties(hits))
        case DustActivity =>
          Reason(DustActivity, DustAddend(dust.Events(), w, cfg),
            DustEvents(dust.Events(), dust.DustIn(), dust.DustOut(), dust.uniqueSources, dust.uniqueDests,
                       cfg.dustMicroUsdt, cfg.dustSmallUsdt))
  {
  }

  function WeightSum(rs: seq<Reason>): int {
    if rs == [] then 0 else WeightSum(rs[..|rs| - 1]) + rs[|rs| - 1].weight
  }

  lemma {:induction false} WeightSumAppend(a: seq<Reason>, b: seq<Reason>)
    ensures WeightSum(a + b) == WeightSum(a) + WeightSum(b)
    decreases |b|
  {
    if b == [] {
      assert a + b == a;
    } else {
      assert (a + b)[..|a + b| - 1] == a + b[..|b| - 1];
      WeightSumAppend(a, b[..|b| - 1]);
    }
  }

  /**
   * The reasons explain the score: with non-negative weights and the two
   * blacklist weights equal, the score is the capped sum of the reasons'
   * weights, except when a fraud flag meets blacklist evidence without a
   * direct blacklisting (there the evidence step takes a maximum, not a sum).
   */
  lemma ReasonsExplainScore(sec: SecurityReport, bl: BlacklistReport, hits: nat, dust: DustCounters, w: Weights, cfg: Config)
    requires w.NonNegative() && w.blacklistUsdtEvidence == w.blacklistUsdt
    requires !(sec.hasFraudTransaction && bl.total > 0 && !sec.isBlackList)
    ensures Score(sec, bl, hits, dust.Events(), w, cfg) == Min(WeightSum(Reasons(sec, bl, hits, dust, w, cfg)), 100)
  {
    var r1 := Opt(sec.isBlackList, BlacklistReason(w));
    var r2 := Opt(sec.hasFraudTransaction, FraudReason(w));
    var r3 := Opt(bl.total > 0 && !sec.isBlackList, EvidenceReason(w));
    var r4 := Opt(hits > 0, CounterpartyReason(hits, w));
    var r5 := Opt(dust.Events() >= cfg.dustMinEvents, DustReason(dust, w, cfg));
    assert WeightSum(Reasons(sec, bl, hits, dust, w, cfg))
        == WeightSum(r1) + WeightSum(r2) + WeightSum(r3) + WeightSum(r4) + WeightSum(r5) by {
      WeightSumAppend(r1, r2);
      WeightSumAppend(r1 + r2, r3);
      WeightSumAppend(r1 + r2 + r3, r4);
      WeightSumAppend(r1 + r2 + r3 + r4, r5);
    }
    WeightSumOpt(sec.isBlackList, BlacklistReason(w));
    WeightSumOpt(sec.hasFraudTransaction, FraudReason(w));
    WeightSumOpt(bl.total > 0 && !sec.isBlackList, EvidenceReason(w));
    WeightSumOpt(hits > 0, CounterpartyReason(hits, w));
    WeightSumOpt(dust.Events() >= cfg.dustMinEvents, DustReason(dust, w, cfg));
  }

  lemma WeightSumOpt(fires: bool, r: Reason)
    ensures WeightSum(Opt(fires, r)) == if fires then r.weight else 0
  {
    assert [r][..0] == [];
  }

  /** With these weights, five dust events against a minimum of three add `min(10 + 2 * 2, 30) = 14`. */
  lemma FiveDustEventsAddFourteen(w: Weights, cfg: Config)
    requires cfg.dustMinEvents == 3 && w.dustBase == 10 && w.dustPerEvent == 2 && w.dustCap == 30
    ensures DustAddend(5, w, cfg) == 14
  {
  }

  /** The scoring steps of `score_wallet`, with the lookups' answers and the counters as inputs. */
  method AccumulateScore(sec: SecurityReport, bl: BlacklistReport, hits: nat, dust: DustCounters, w: Weights, cfg: Config)
    returns (score: int, reasons: seq<Reason>)
    ensures score == Score(sec, bl, hits, dust.Events(), w, cfg)
    ensures reasons == Reasons(sec, bl, hits, dust, w, cfg)
    ensures score <= 100 && (w.NonNegative() ==> 0 <= score)
    ensures forall i, j :: 0 <= i < j < |reasons| ==> reasons[i].code.Rank() < reasons[j].code.Rank()
  {
    ghost var o1 := Opt(sec.isBlackList, BlacklistReason(w));
    ghost var o2 := Opt(sec.hasFraudTransaction, FraudReason(w));
    ghost var o3 := Opt(bl.total > 0 && !sec.isBlackList, EvidenceReason(w));
    ghost var o4 := Opt(hits > 0, CounterpartyReason(hits, w));
    ghost var o5 := Opt(dust.Events() >= cfg.dustMinEvents, DustReason(dust, w, cfg));
    reasons := [];
    score := 0;
    if sec.isBlackList {
      reasons := reasons + [BlacklistReason(w)];
      score := Max(score, w.blacklistUsdt);
    }
    assert reasons == o1 && score == (if sec.isBlackList then Max(0, w.blacklistUsdt) else 0);
    if sec.hasFraudTransaction {
      reasons := reasons + [FraudReason(w)];
      score := score + w.fraudFlag;
    }
    assert reasons == o1 + o2;
    assert HasCode(reasons, BlacklistUsdt) <==> sec.isBlackList by {
      HasCodeAppend(o1, sec.hasFraudTransaction, FraudReason(w), BlacklistUsdt);
      HasCodeAppend([], sec.isBlackList, BlacklistReason(w), BlacklistUsdt);
      assert [] + o1 == o1;
    }
    if bl.total > 0 && !HasCode(reasons, BlacklistUsdt) {
      reasons := reasons + [EvidenceReason(w)];
      score := Max(score, w.blacklistUsdt);
    }
    assert reasons == o1 + o2 + o3;
    if hits > 0 {
      var add := CounterpartyAddend(hits, w);
      reasons := reasons + [Reason(CounterpartyHigh, add, RiskyCounterparties(hits))];
      score := score + add;
    }
    assert reasons == o1 + o2 + o3 + o4;
    var dustIn := dust.microIn + dust.smallIn;
    var dustOut := dust.microOut + dust.smallOut;
    var dustEvents := dustIn + dustOut;
    if dustEvents >= cfg.dustMinEvents {
      var add := DustAddend(dustEvents, w, cfg);
      reasons := reasons + [Reason(DustActivity, add,
        DustEvents(dustEvents, dustIn, dustOut, dust.uniqueSources, dust.uniqueDests, cfg.dustMicroUsdt, cfg.dustSmallUsdt))];
      score := score + add;
    }
    assert reasons == o1 + o2 + o3 + o4 + o5;
    assert score == RawScore(sec, bl, hits, dustEvents, w, cfg);
    score := Min(score, 100);
    ScoreBounds(sec, bl, hits, dustEvents, w, cfg);
    ReasonsInEvaluationOrder(sec, bl, hits, dust, w, cfg);
  }
}
