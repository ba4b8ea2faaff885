/**
 * Flow aggregation (`_aggregate_flows_trc20`): USDT inflow and outflow of
 * the subject address, and the first and last timestamps seen over all
 * records.
 */
module Flows {
  import opened Text
  import opened Records
  import opened Amount

  datatype Direction = In | Out

  /** What one record adds to the subject's inflow (`In`) or outflow (`Out`). */
  function Contribution(t: Transfer, self: string, dir: Direction): real
  {
    if !IsUsdt(t) then 0.0
    else if dir == In && Recipient(t) == self then Normalize(t)
    else if dir == Out && Sender(t) == self then Normalize(t)
    else 0.0
  }

  /** The sum of the contributions of all records, in list order. */
  function Flow(items: seq<Transfer>, self: string, dir: Direction): (r: real)
    ensures r >= 0.0
  {
    if items == [] then 0.0
    else Flow(items[..|items| - 1], self, dir) + Contribution(items[|items| - 1], self, dir)
  }

  function Inflow(items: seq<Transfer>, self: string): real { Flow(items, self, In) }
  function Outflow(items: seq<Transfer>, self: string): real { Flow(items, self, Out) }

  lemma {:induction false} FlowAppend(a: seq<Transfer>, b: seq<Transfer>, self: string, dir: Direction)
    ensures Flow(a + b, self, dir) == Flow(a, self, dir) + Flow(b, self, dir)
    decreases |b|
  {
    if b == [] {
      assert a + b == a;
    } else {
      var b' := b[..|b| - 1];
      assert (a + b)[..|a + b| - 1] == a + b';
      FlowAppend(a, b', self, dir);
    }
  }

  /** Taking one record out of the list takes its contribution out of the total. */
  lemma FlowRemoveAt(b: seq<Transfer>, j: nat, self: string, dir: Direction)
    requires j < |b|
    ensures Flow(b, self, dir) == Flow(b[..j] + b[j + 1..], self, dir) + Contribution(b[j], self, dir)
  {
    var x := b[j];
    assert b == b[..j] + ([x] + b[j + 1..]);
    assert [x][..0] == [];
    FlowAppend(b[..j], [x] + b[j + 1..], self, dir);
    FlowAppend([x], b[j + 1..], self, dir);
    FlowAppend(b[..j], b[j + 1..], self, dir);
  }

  /** Removing the last element of `a` and an equal element of `b` keeps the two lists permutations of each other. */
  lemma MultisetRemove<T>(a: seq<T>, b: seq<T>, j: nat)
    requires multiset(a) == multiset(b) && |a| > 0 && j < |b| && b[j] == a[|a| - 1]
    ensures multiset(a[..|a| - 1]) == multiset(b[..j] + b[j + 1..])
  {
    var a', b', x := a[..|a| - 1], b[..j] + b[j + 1..], b[j];
    assert a == a' + [x];
    assert b == b[..j] + [x] + b[j + 1..];
    assert multiset(b) == multiset(b[..j]) + multiset([x]) + multiset(b[j + 1..]);
    forall y ensures multiset(b')[y] == multiset(a')[y] {
      assert multiset(b)[y] == multiset(b')[y] + multiset([x])[y];
      assert multiset(a)[y] == multiset(a')[y] + multiset([x])[y];
    }
  }

  /** Both totals are invariant under any reordering of the transfer list. */
  lemma {:induction false} FlowPermutation(a: seq<Transfer>, b: seq<Transfer>, self: string, dir: Direction)
    requires multiset(a) == multiset(b)
    ensures Flow(a, self, dir) == Flow(b, self, dir)
    decreases |a|
  {
    if a == [] {
      assert |b| == |multiset(b)| == 0;
    } else {
      var x := a[|a| - 1];
      assert x in multiset(b);
      var j :| 0 <= j < |b| && b[j] == x;
      MultisetRemove(a, b, j);
      FlowPermutation(a[..|a| - 1], b[..j] + b[j + 1..], self, dir);
      FlowRemoveAt(b, j, self, dir);
    }
  }

  /** The USDT records of a list, in order. */
  function UsdtOnly(items: seq<Transfer>): seq<Transfer>
  {
    if items == [] then []
    else UsdtOnly(items[..|items| - 1]) + (if IsUsdt(items[|items| - 1]) then [items[|items| - 1]] else [])
  }

  /** Records of any other contract add nothing: only the USDT records make up the totals. */
  lemma {:induction false} OnlyUsdtCounts(items: seq<Transfer>, self: string, dir: Direction)
    ensures Flow(items, self, dir) == Flow(UsdtOnly(items), self, dir)
  {
    if items != [] {
      var p := items[..|items| - 1];
      var t := items[|items| - 1];
      var tail := if IsUsdt(t) then [t] else [];
      OnlyUsdtCounts(p, self, dir);
      assert UsdtOnly(items) == UsdtOnly(p) + tail;
      FlowAppend(UsdtOnly(p), tail, self, dir);
      assert Flow(tail, self, dir) == Contribution(t, self, dir) by {
        if IsUsdt(t) {
          assert [t][..0] == [];
          assert Flow([t], self, dir) == Flow([], self, dir) + Contribution(t, self, dir);
        }
      }
    }
  }

  /** A self-transfer of the subject counts in both directions. */
  lemma SelfTransferCountsTwice(t: Transfer, self: string)
    requires IsUsdt(t) && Sender(t) == self && Recipient(t) == self
    ensures Inflow([t], self) == Outflow([t], self) == Normalize(t)
  {
    assert [t][..0] == [];
    assert Flow([t], self, In) == Flow([], self, In) + Contribution(t, self, In);
    assert Flow([t], self, Out) == Flow([], self, Out) + Contribution(t, self, Out);
  }

  /** Each total is at most `10^12` per record. */
  lemma {:induction false} FlowBound(items: seq<Transfer>, self: string, dir: Direction)
    ensures Flow(items, self, dir) <= |items| as real * UsdtMaxEvent
  {
    if items != [] {
      FlowBound(items[..|items| - 1], self, dir);
    }
  }

  // ---------------------------------------------------------------------
  // Timestamp tracking

  /** The update `first_ts = ts if not first_ts or ts < first_ts else first_ts`. */
  function FirstStepAsWritten(acc: Option<int>, ts: Option<int>): Option<int> {
    match ts
    case None => acc
    case Some(x) => if acc.None? || acc.value == 0 || x < acc.value then ts else acc
  }

  /** The update `last_ts = ts if not last_ts or ts > last_ts else last_ts`. */
  function LastStepAsWritten(acc: Option<int>, ts: Option<int>): Option<int> {
    match ts
    case None => acc
    case Some(x) => if acc.None? || acc.value == 0 || x > acc.value then ts else acc
  }

  /** `first_ts` after the loop, as the source computes it. */
  function FirstSeenAsWritten(items: seq<Transfer>): Option<int> {
    if items == [] then None
    else FirstStepAsWritten(FirstSeenAsWritten(items[..|items| - 1]), Timestamp(items[|items| - 1]))
  }

  /** `last_ts` after the loop, as the source computes it. */
  function LastSeenAsWritten(items: seq<Transfer>): Option<int> {
    if items == [] then None
    else LastStepAsWritten(LastSeenAsWritten(items[..|items| - 1]), Timestamp(items[|items| - 1]))
  }

  /** The timestamps carried by a list of records. */
  function Stamps(items: seq<Transfer>): set<int> {
    if items == [] then {}
    else
      var last := Timestamp(items[|items| - 1]);
      Stamps(items[..|items| - 1]) + (if last.Some? then {last.value} else {})
  }

  lemma {:induction false} StampsMembership(items: seq<Transfer>, x: int)
    ensures x in Stamps(items) <==> exists i :: 0 <= i < |items| && Timestamp(items[i]) == Some(x)
  {
    if items != [] {
      var p := items[..|items| - 1];
      StampsMembership(p, x);
      if x in Stamps(p) {
        var i :| 0 <= i < |p| && Timestamp(p[i]) == Some(x);
        assert items[i] == p[i];
      }
      if exists i :: 0 <= i < |items| && Timestamp(items[i]) == Some(x) {
        var i :| 0 <= i < |items| && Timestamp(items[i]) == Some(x);
        if i < |p| {
          assert p[i] == items[i];
        }
      }
    }
  }

  /** The update of `first_ts` with absence checked by `first_ts is None`. */
  function FirstStep(acc: Option<int>, ts: Option<int>): Option<int> {
    match ts
    case None => acc
    case Some(x) => if acc.None? || x < acc.value then ts else acc
  }

  /** The update of `last_ts` with absence checked by `last_ts is None`. */
  function LastStep(acc: Option<int>, ts: Option<int>): Option<int> {
    match ts
    case None => acc
    case Some(x) => if acc.None? || x > acc.value then ts else acc
  }

  /** The earliest timestamp of the records. */
  function EarliestTs(items: seq<Transfer>): Option<int> {
    if items == [] then None
    else FirstStep(EarliestTs(items[..|items| - 1]), Timestamp(items[|items| - 1]))
  }

  /** The latest timestamp of the records. */
  function LatestTs(items: seq<Transfer>): Option<int> {
    if items == [] then None
    else LastStep(LatestTs(items[..|items| - 1]), Timestamp(items[|items| - 1]))
  }

  /** `EarliestTs` and `LatestTs` are the minimum and maximum of the timestamps present. */
  lemma {:induction false} EarliestLatestAreExtremes(items: seq<Transfer>)
    ensures EarliestTs(items).None? <==> Stamps(items) == {}
    ensures LatestTs(items).None? <==> Stamps(items) == {}
    ensures EarliestTs(items).Some? ==>
      EarliestTs(items).value in Stamps(items) && forall x :: x in Stamps(items) ==> EarliestTs(items).value <= x
    ensures LatestTs(items).Some? ==>
      LatestTs(items).value in Stamps(items) && forall x :: x in Stamps(items) ==> x <= LatestTs(items).value
  {
    if items != [] {
      EarliestLatestAreExtremes(items[..|items| - 1]);
    }
  }

  /** The corrected first and last timestamps do not depend on the order of the records. */
  lemma EarliestLatestPermutation(a: seq<Transfer>, b: seq<Transfer>)
    requires multiset(a) == multiset(b)
    ensures EarliestTs(a) == EarliestTs(b)
    ensures LatestTs(a) == LatestTs(b)
  {
    forall x ensures x in Stamps(a) <==> x in Stamps(b) {
      StampsMembership(a, x);
      StampsMembership(b, x);
      if exists i :: 0 <= i < |a| && Timestamp(a[i]) == Some(x) {
        var i :| 0 <= i < |a| && Timestamp(a[i]) == Some(x);
        assert a[i] in multiset(b);
        var j :| 0 <= j < |b| && b[j] == a[i];
      }
      if exists j :: 0 <= j < |b| && Timestamp(b[j]) == Some(x) {
        var j :| 0 <= j < |b| && Timestamp(b[j]) == Some(x);
        assert b[j] in multiset(a);
        var i :| 0 <= i < |a| && a[i] == b[j];
      }
    }
    assert Stamps(a) == Stamps(b);
    EarliestLatestAreExtremes(a);
    EarliestLatestAreExtremes(b);
  }

  /**
   * As long as no record carries the timestamp 0, the source's falsy test
   * changes nothing: it computes the true minimum and maximum.
   */
  lemma {:induction false} AsWrittenAgreesWithoutZero(items: seq<Transfer>)
    requires 0 !in Stamps(items)
    ensures FirstSeenAsWritten(items) == EarliestTs(items)
    ensures LastSeenAsWritten(items) == LatestTs(items)
  {
    if items != [] {
      var p := items[..|items| - 1];
      AsWrittenAgreesWithoutZero(p);
      EarliestLatestAreExtremes(p);
    }
  }

  /** A record that carries only the `timestamp` field. */
  function StampedRecord(ts: int): Transfer {
    Transfer("", "", "", "", "", "", Absent, Absent, Absent, None, Some(ts))
  }

  /**
   * The records stamped 3, 0 and 5, in that order, leave `first_ts` at 5,
   * which is neither the minimum 0 nor the minimum 3 of the non-zero stamps;
   * the same records in the order 0, 3, 5 leave it at 3.
   */
  lemma ZeroTimestampMakesFirstSeenOrderDependent()
    ensures FirstSeenAsWritten([StampedRecord(3), StampedRecord(0), StampedRecord(5)]) == Some(5)
    ensures FirstSeenAsWritten([StampedRecord(0), StampedRecord(3), StampedRecord(5)]) == Some(3)
    ensures EarliestTs([StampedRecord(3), StampedRecord(0), StampedRecord(5)]) == Some(0)
    ensures multiset([StampedRecord(3), StampedRecord(0), StampedRecord(5)])
         == multiset([StampedRecord(0), StampedRecord(3), StampedRecord(5)])
  {
    var a := [StampedRecord(3), StampedRecord(0), StampedRecord(5)];
    var b := [StampedRecord(0), StampedRecord(3), StampedRecord(5)];
    assert a[..2][..1] == [StampedRecord(3)] && a[..2] == [StampedRecord(3), StampedRecord(0)];
    assert b[..2][..1] == [StampedRecord(0)] && b[..2] == [StampedRecord(0), StampedRecord(3)];
    assert [StampedRecord(3)][..0] == [] && [StampedRecord(0)][..0] == [];
  }

  /** How every accumulator of the loop below changes with record `i`. */
  lemma PrefixStep(items: seq<Transfer>, i: nat, self: string)
    requires i < |items|
    ensures Inflow(items[..i + 1], self) == Inflow(items[..i], self) + Contribution(items[i], self, In)
    ensures Outflow(items[..i + 1], self) == Outflow(items[..i], self) + Contribution(items[i], self, Out)
    ensures EarliestTs(items[..i + 1]) == FirstStep(EarliestTs(items[..i]), Timestamp(items[i]))
    ensures LatestTs(items[..i + 1]) == LastStep(LatestTs(items[..i]), Timestamp(items[i]))
  {
    assert items[..i + 1][..i] == items[..i];
  }

  /**
   * `_aggregate_flows_trc20`: one pass over the records. Every timestamp is
   * tracked; only USDT records with a non-zero amount add to the totals.
   * The timestamps are the true earliest and latest ones, which is what the
   * source computes whenever no record is stamped 0.
   */
  method AggregateFlows(items: seq<Transfer>, self: string)
    returns (inflow: real, outflow: real, firstTs: Option<int>, lastTs: Option<int>)
    ensures inflow == Inflow(items, self) && outflow == Outflow(items, self)
    ensures inflow >= 0.0 && outflow >= 0.0
    ensures firstTs == EarliestTs(items) && lastTs == LatestTs(items)
    ensures firstTs.None? <==> Stamps(items) == {}
    ensures firstTs.Some? ==> firstTs.value in Stamps(items) && forall x :: x in Stamps(items) ==> firstTs.value <= x
    ensures lastTs.Some? ==> lastTs.value in Stamps(items) && forall x :: x in Stamps(items) ==> x <= lastTs.value
    ensures 0 !in Stamps(items) ==> firstTs == FirstSeenAsWritten(items) && lastTs == LastSeenAsWritten(items)
  {
    inflow, outflow := 0.0, 0.0;
    firstTs, lastTs := None, None;
    for i := 0 to |items|
      invariant inflow == Inflow(items[..i], self) && outflow == Outflow(items[..i], self)
      invariant firstTs == EarliestTs(items[..i]) && lastTs == LatestTs(items[..i])
    {
      var it := items[i];
      PrefixStep(items, i, self);
      var ts := Timestamp(it);
      if ts.Some? {
        firstTs := if firstTs.None? || ts.value < firstTs.value then ts else firstTs;
        lastTs := if lastTs.None? || ts.value > lastTs.value then ts else lastTs;
      }
      if IsUsdt(it) {
        var amt := Normalize(it);
        if amt != 0.0 {
          var frm := Sender(it);
          var to := Recipient(it);
          if to == self {
            inflow := inflow + amt;
          }
          if frm == self {
            outflow := outflow + amt;
          }
        }
      }
    }
    assert items[..|items|] == items;
    EarliestLatestAreExtremes(items);
    if 0 !in Stamps(items) {
      AsWrittenAgreesWithoutZero(items);
    }
  }
}
