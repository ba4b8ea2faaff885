/**
 * Dust classification (`_dust_counters_trc20_usdt`): USDT transfers to or
 * from the subject are sorted into a micro and a small tier, per direction,
 * and the distinct counterparties of those transfers are counted.
 */
module Dust {
  import opened Records
  import opened Amount

  datatype Tier = Micro | Small | NotDust

  /** The tier of a non-zero amount: `<= micro`, else `<= small`, else not dust. */
  function TierOfAmount(amt: real, cfg: Config): Tier {
    if amt <= cfg.dustMicroUsdt then Micro
    else if amt <= cfg.dustSmallUsdt then Small
    else NotDust
  }

  /** The tier of a record: only USDT records with a non-zero normalised amount are dust candidates. */
  function TierOf(t: Transfer, cfg: Config): Tier {
    if !IsUsdt(t) then NotDust
    else
      var amt := Normalize(t);
      if amt == 0.0 then NotDust else TierOfAmount(amt, cfg)
  }

  /** The exact thresholds: the micro bound is micro dust, the small bound is small dust, above it nothing is. */
  lemma TierBoundaries(cfg: Config, amt: real)
    requires cfg.dustMicroUsdt < cfg.dustSmallUsdt
    ensures TierOfAmount(cfg.dustMicroUsdt, cfg) == Micro
    ensures TierOfAmount(cfg.dustSmallUsdt, cfg) == Small
    ensures amt > cfg.dustSmallUsdt ==> TierOfAmount(amt, cfg) == NotDust
  {
  }

  /** Number of records of `tier` received by the subject. */
  function CountIn(items: seq<Transfer>, self: string, cfg: Config, tier: Tier): nat {
    if items == [] then 0
    else
      var t := items[|items| - 1];
      CountIn(items[..|items| - 1], self, cfg, tier) + (if TierOf(t, cfg) == tier && Recipient(t) == self then 1 else 0)
  }

  /** Number of records of `tier` sent by the subject. */
  function CountOut(items: seq<Transfer>, self: string, cfg: Config, tier: Tier): nat {
    if items == [] then 0
    else
      var t := items[|items| - 1];
      CountOut(items[..|items| - 1], self, cfg, tier) + (if TierOf(t, cfg) == tier && Sender(t) == self then 1 else 0)
  }

  /** Senders of the dust received by the subject (`uniq_src`). */
  function Sources(items: seq<Transfer>, self: string, cfg: Config): set<string> {
    if items == [] then {}
    else
      var t := items[|items| - 1];
      Sources(items[..|items| - 1], self, cfg) + (if TierOf(t, cfg) != NotDust && Recipient(t) == self then {Sender(t)} else {})
  }

  /** Recipients of the dust sent by the subject (`uniq_dst`). */
  function Dests(items: seq<Transfer>, self: string, cfg: Config): set<string> {
    if items == [] then {}
    else
      var t := items[|items| - 1];
      Dests(items[..|items| - 1], self, cfg) + (if TierOf(t, cfg) != NotDust && Sender(t) == self then {Recipient(t)} else {})
  }

  /** Number of USDT records received by the subject, whatever their amount. */
  function UsdtReceived(items: seq<Transfer>, self: string): nat {
    if items == [] then 0
    else
      var t := items[|items| - 1];
      UsdtReceived(items[..|items| - 1], self) + (if IsUsdt(t) && Recipient(t) == self then 1 else 0)
  }

  /** Number of USDT records sent by the subject, whatever their amount. */
  function UsdtSent(items: seq<Transfer>, self: string): nat {
    if items == [] then 0
    else
      var t := items[|items| - 1];
      UsdtSent(items[..|items| - 1], self) + (if IsUsdt(t) && Sender(t) == self then 1 else 0)
  }

  /**
   * One more record bumps at most one tier per direction: a micro amount
   * only the micro counters, a small amount only the small counters, a
   * larger amount (or a non-USDT or zero-amount record) none.
   */
  lemma {:induction false} AppendBumpsOneTier(items: seq<Transfer>, t: Transfer, self: string, cfg: Config)
    ensures var inc := if Recipient(t) == self then 1 else 0;
      && CountIn(items + [t], self, cfg, Micro) == CountIn(items, self, cfg, Micro) + (if TierOf(t, cfg) == Micro then inc else 0)
      && CountIn(items + [t], self, cfg, Small) == CountIn(items, self, cfg, Small) + (if TierOf(t, cfg) == Small then inc else 0)
    ensures var inc := if Sender(t) == self then 1 else 0;
      && CountOut(items + [t], self, cfg, Micro) == CountOut(items, self, cfg, Micro) + (if TierOf(t, cfg) == Micro then inc else 0)
      && CountOut(items + [t], self, cfg, Small) == CountOut(items, self, cfg, Small) + (if TierOf(t, cfg) == Small then inc else 0)
  {
    assert (items + [t])[..|items|] == items;
  }

  /**
   * Which tier a record falls in: a USDT amount in `(0, micro]` is micro,
   * one in `(micro, small]` is small, one above both thresholds is not dust.
   */
  lemma TierOfRecord(t: Transfer, cfg: Config)
    ensures IsUsdt(t) && 0.0 < Normalize(t) <= cfg.dustMicroUsdt ==> TierOf(t, cfg) == Micro
    ensures IsUsdt(t) && 0.0 < Normalize(t) && cfg.dustMicroUsdt < Normalize(t) <= cfg.dustSmallUsdt ==> TierOf(t, cfg) == Small
    ensures Normalize(t) > cfg.dustMicroUsdt && Normalize(t) > cfg.dustSmallUsdt ==> TierOf(t, cfg) == NotDust
    ensures !IsUsdt(t) || Normalize(t) == 0.0 ==> TierOf(t, cfg) == NotDust
  {
  }

  /** Dust received is a part of the USDT received: `micro_in + small_in` never exceeds it, and likewise outwards. */
  lemma {:induction false} DustWithinUsdt(items: seq<Transfer>, self: string, cfg: Config)
    ensures CountIn(items, self, cfg, Micro) + CountIn(items, self, cfg, Small) <= UsdtReceived(items, self)
    ensures CountOut(items, self, cfg, Micro) + CountOut(items, self, cfg, Small) <= UsdtSent(items, self)
  {
    if items != [] {
      DustWithinUsdt(items[..|items| - 1], self, cfg);
    }
  }

  /** Each dust event adds at most one distinct counterparty. */
  lemma {:induction false} UniqueCounterpartiesBound(items: seq<Transfer>, self: string, cfg: Config)
    ensures |Sources(items, self, cfg)| <= CountIn(items, self, cfg, Micro) + CountIn(items, self, cfg, Small)
    ensures |Dests(items, self, cfg)| <= CountOut(items, self, cfg, Micro) + CountOut(items, self, cfg, Small)
  {
    if items != [] {
      UniqueCounterpartiesBound(items[..|items| - 1], self, cfg);
    }
  }

  /** The counters `_dust_counters_trc20_usdt` returns. */
  datatype DustCounters = DustCounters(
    microIn: nat, microOut: nat, smallIn: nat, smallOut: nat,
    uniqueSources: nat, uniqueDests: nat)
  {
    function DustIn(): nat { microIn + smallIn }
    function DustOut(): nat { microOut + smallOut }
    function Events(): nat { DustIn() + DustOut() }
  }

  lemma PrefixStep(items: seq<Transfer>, i: nat, self: string, cfg: Config)
    requires i < |items|
    ensures var t, p, q := items[i], items[..i], items[..i + 1];
      && CountIn(q, self, cfg, Micro) == CountIn(p, self, cfg, Micro) + (if TierOf(t, cfg) == Micro && Recipient(t) == self then 1 else 0)
      && CountIn(q, self, cfg, Small) == CountIn(p, self, cfg, Small) + (if TierOf(t, cfg) == Small && Recipient(t) == self then 1 else 0)
      && CountOut(q, self, cfg, Micro) == CountOut(p, self, cfg, Micro) + (if TierOf(t, cfg) == Micro && Sender(t) == self then 1 else 0)
      && CountOut(q, self, cfg, Small) == CountOut(p, self, cfg, Small) + (if TierOf(t, cfg) == Small && Sender(t) == self then 1 else 0)
      && Sources(q, self, cfg) == Sources(p, self, cfg) + (if TierOf(t, cfg) != NotDust && Recipient(t) == self then {Sender(t)} else {})
      && Dests(q, self, cfg) == Dests(p, self, cfg) + (if TierOf(t, cfg) != NotDust && Sender(t) == self then {Recipient(t)} else {})
  {
    assert items[..i + 1][..i] == items[..i];
  }

  /** `_dust_counters_trc20_usdt`: one pass over the records. */
  method CountDust(items: seq<Transfer>, self: string, cfg: Config) returns (c: DustCounters)
    ensures c.microIn == CountIn(items, self, cfg, Micro) && c.smallIn == CountIn(items, self, cfg, Small)
    ensures c.microOut == CountOut(items, self, cfg, Micro) && c.smallOut == CountOut(items, self, cfg, Small)
    ensures c.uniqueSources == |Sources(items, self, cfg)| && c.uniqueDests == |Dests(items, self, cfg)|
    ensures c.uniqueSources <= c.DustIn() <= UsdtReceived(items, self)
    ensures c.uniqueDests <= c.DustOut() <= UsdtSent(items, self)
  {
    var microIn, microOut, smallIn, smallOut := 0, 0, 0, 0;
    var uniqSrc: set<string>, uniqDst: set<string> := {}, {};
    for i := 0 to |items|
      invariant microIn == CountIn(items[..i], self, cfg, Micro) && smallIn == CountIn(items[..i], self, cfg, Small)
      invariant microOut == CountOut(items[..i], self, cfg, Micro) && smallOut == CountOut(items[..i], self, cfg, Small)
      invariant uniqSrc == Sources(items[..i], self, cfg) && uniqDst == Dests(items[..i], self, cfg)
    {
      var it := items[i];
      PrefixStep(items, i, self, cfg);
      if IsUsdt(it) {
        var amt := Normalize(it);
        if amt != 0.0 {
          var frm := Sender(it);
          var to := Recipient(it);
          if amt <= cfg.dustMicroUsdt {
            if to == self { microIn := microIn + 1; uniqSrc := uniqSrc + {frm}; }
            if frm == self { microOut := microOut + 1; uniqDst := uniqDst + {to}; }
          } else if amt <= cfg.dustSmallUsdt {
            if to == self { smallIn := smallIn + 1; uniqSrc := uniqSrc + {frm}; }
            if frm == self { smallOut := smallOut + 1; uniqDst := uniqDst + {to}; }
          }
        }
      }
    }
    assert items[..|items|] == items;
    UniqueCounterpartiesBound(items, self, cfg);
    DustWithinUsdt(items, self, cfg);
    c := DustCounters(microIn, microOut, smallIn, smallOut, |uniqSrc|, |uniqDst|);
  }
}
