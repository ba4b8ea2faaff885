/**
 * One-hop counterparties: `_extract_counterparties_trc20` collects who sent
 * to and who received from the subject, and `_batch_security_check` keeps
 * those the compliance lookups flag.
 */
module Counterparties {
  import opened Records

  /** Everyone who appears as a sender, other than the subject and the empty address (`ins`). */
  function Senders(items: seq<Transfer>, self: string): (r: set<string>)
    ensures self !in r && "" !in r
  {
    if items == [] then {}
    else
      var frm := Sender(items[|items| - 1]);
      Senders(items[..|items| - 1], self) + (if frm != "" && frm != self then {frm} else {})
  }

  /** Everyone who appears as a recipient, other than the subject and the empty address (`outs`). */
  function Receivers(items: seq<Transfer>, self: string): (r: set<string>)
    ensures self !in r && "" !in r
  {
    if items == [] then {}
    else
      var to := Recipient(items[|items| - 1]);
      Receivers(items[..|items| - 1], self) + (if to != "" && to != self then {to} else {})
  }

  /** `ins` is exactly the set of non-empty stripped senders other than the subject; every record counts. */
  lemma {:induction false} SendersMembership(items: seq<Transfer>, self: string, a: string)
    ensures a in Senders(items, self) <==>
      a != "" && a != self && exists i :: 0 <= i < |items| && Sender(items[i]) == a
  {
    if items != [] {
      var p, t := items[..|items| - 1], items[|items| - 1];
      SendersMembership(p, self, a);
      if a in Senders(p, self) {
        var i :| 0 <= i < |p| && Sender(p[i]) == a;
        assert items[i] == p[i];
      } else if a != "" && a != self && Sender(t) != a {
        forall i | 0 <= i < |items|
          ensures Sender(items[i]) != a
        {
          if i < |p| {
            assert items[i] == p[i];
          }
        }
      }
    }
  }


  /** `outs` is exactly the set of non-empty stripped recipients other than the subject; every record counts. */
  lemma {:induction false} ReceiversMembership(items: seq<Transfer>, self: string, a: string)
    ensures a in Receivers(items, self) <==>
      a != "" && a != self && exists i :: 0 <= i < |items| && Recipient(items[i]) == a
  {
    if items != [] {
      var p, t := items[..|items| - 1], items[|items| - 1];
      ReceiversMembership(p, self, a);
      if a in Receivers(p, self) {
        var i :| 0 <= i < |p| && Recipient(p[i]) == a;
        assert items[i] == p[i];
      } else if a != "" && a != self && Recipient(t) != a {
        forall i | 0 <= i < |items|
          ensures Recipient(items[i]) != a
        {
          if i < |p| {
            assert items[i] == p[i];
          }
        }
      }
    }
  }


  /** `_extract_counterparties_trc20`: one pass over all records. */
  method ExtractCounterparties(items: seq<Transfer>, self: string) returns (ins: set<string>, outs: set<string>)
    ensures ins == Senders(items, self) && outs == Receivers(items, self)
    ensures self !in ins && self !in outs && "" !in ins && "" !in outs
  {
    ins, outs := {}, {};
    for i := 0 to |items|
      invariant ins == Senders(items[..i], self) && outs == Receivers(items[..i], self)
    {
      assert items[..i + 1][..i] == items[..i];
      var frm := Sender(items[i]);
      var to := Recipient(items[i]);
      if frm != "" && frm != self {
        ins := ins + {frm};
      }
      if to != "" && to != self {
        outs := outs + {to};
      }
    }
    assert items[..|items|] == items;
  }

  /**
   * Whether `_batch_security_check` flags an address: its security lookup
   * answered and reported a blacklisting or a fraud flag, or else its
   * blacklist lookup answered with a positive total. A lookup that raised
   * flags nothing.
   */
  predicate IsRisky(a: string, lookups: Lookups) {
    match lookups.security(a)
    case None => false
    case Some(sec) =>
      || sec.isBlackList || sec.hasFraudTransaction
      || (lookups.blacklist(a).Some? && lookups.blacklist(a).value.total > 0)
  }

  /** The flagged part of a set of addresses. */
  function Flagged(addresses: set<string>, lookups: Lookups): set<string> {
    set a | a in addresses && IsRisky(a, lookups)
  }

  /** A failed security lookup keeps the address out, whatever the blacklist lookup would say. */
  lemma FailedLookupIsNotRisky(addresses: set<string>, lookups: Lookups, a: string)
    requires lookups.security(a).None?
    ensures a !in Flagged(addresses, lookups)
  {
  }

  /** Flagging distributes over union, so flagging `ins` and `outs` apart and joining them loses nothing. */
  lemma FlaggedUnion(s: set<string>, u: set<string>, lookups: Lookups)
    ensures Flagged(s + u, lookups) == Flagged(s, lookups) + Flagged(u, lookups)
  {
  }

  /**
   * `_batch_security_check`: the addresses are visited in an arbitrary
   * order; the result is the flagged subset whatever the order.
   */
  method BatchSecurityCheck(addresses: set<string>, lookups: Lookups) returns (risky: set<string>)
    ensures risky <= addresses
    ensures forall a :: a in risky <==> a in addresses && IsRisky(a, lookups)
    ensures risky == Flagged(addresses, lookups)
  {
    risky := {};
    var todo := addresses;
    while todo != {}
      invariant todo <= addresses
      invariant risky == Flagged(addresses - todo, lookups)
      decreases todo
    {
      var a :| a in todo;
      var sec := lookups.security(a);
      if sec.Some? {
        if sec.value.isBlackList || sec.value.hasFraudTransaction {
          risky := risky + {a};
        } else {
          var bl := lookups.blacklist(a);
          if bl.Some? && bl.value.total > 0 {
            risky := risky + {a};
          }
        }
      }
      assert addresses - (todo - {a}) == (addresses - todo) + {a};
      todo := todo - {a};
    }
    assert addresses - todo == addresses;
  }
}
