/**
 * `_exposure_breakdown`: each category with a positive count gets the
 * percentage it makes up of all counts, in a fixed category order.
 */
module Exposure {

  /** One entry of the exposure list; `share` is the exact percentage. */
  datatype Entry = Entry(category: string, share: real)

  const Categories: seq<string> :=
    ["Blacklist Indirect In", "Blacklist Indirect Out", "Dust In (USDT)", "Dust Out (USDT)", "DEX", "Exchange"]

  /** The six counts, in the order of `Categories`. */
  datatype Counts = Counts(riskyIn: nat, riskyOut: nat, dustIn: nat, dustOut: nat, dex: nat, cex: nat)
  {
    function AsSeq(): (r: seq<nat>)
      ensures |r| == |Categories|
    {
      [riskyIn, riskyOut, dustIn, dustOut, dex, cex]
    }

    /** `max(1, risky_in_cnt + ... + cex_hits)` */
    function Denominator(): (d: nat)
      ensures d >= 1 && d >= Sum(AsSeq())
      ensures Sum(AsSeq()) > 0 ==> d == Sum(AsSeq())
    {
      var total := riskyIn + riskyOut + dustIn + dustOut + dex + cex;
      SumOfSix(riskyIn, riskyOut, dustIn, dustOut, dex, cex);
      if total < 1 then 1 else total
    }
  }

  function Sum(vs: seq<nat>): nat {
    if vs == [] then 0 else Sum(vs[..|vs| - 1]) + vs[|vs| - 1]
  }

  lemma SumOfSix(a: nat, b: nat, c: nat, d: nat, e: nat, f: nat)
    ensures Sum([a, b, c, d, e, f]) == a + b + c + d + e + f
  {
    var s := [a, b, c, d, e, f];
    assert s[..5] == [a, b, c, d, e] && Sum(s) == Sum(s[..5]) + f;
    var s5 := [a, b, c, d, e];
    assert s5[..4] == [a, b, c, d] && Sum(s5) == Sum(s5[..4]) + e;
    var s4 := [a, b, c, d];
    assert s4[..3] == [a, b, c] && Sum(s4) == Sum(s4[..3]) + d;
    var s3 := [a, b, c];
    assert s3[..2] == [a, b] && Sum(s3) == Sum(s3[..2]) + c;
    var s2 := [a, b];
    assert s2[..1] == [a] && Sum(s2) == Sum(s2[..1]) + b;
    assert [a][..0] == [];
  }

  function ShareSum(es: seq<Entry>): real {
    if es == [] then 0.0 else ShareSum(es[..|es| - 1]) + es[|es| - 1].share
  }

  /** The percentage `v` makes up of `d`. */
  function Pct(v: nat, d: real): real
    requires d > 0.0
  {
    100.0 * v as real / d
  }

  /** `[Entry(cat, 100 * v / d)]` when `v` is positive, else nothing. */
  function EntryIfPositive(cat: string, v: nat, d: real): seq<Entry>
    requires d > 0.0
  {
    if v > 0 then [Entry(cat, Pct(v, d))] else []
  }

  /** The entries for the categories whose count is positive, in category order. */
  function Breakdown(cats: seq<string>, vs: seq<nat>, d: real): seq<Entry>
    requires |cats| == |vs| && d > 0.0
  {
    if vs == [] then []
    else
      var n := |vs| - 1;
      Breakdown(cats[..n], vs[..n], d) + EntryIfPositive(cats[n], vs[n], d)
  }

  /** An entry is listed iff its category's count is positive, and it carries that count's share. */
  lemma {:induction false} BreakdownMembership(cats: seq<string>, vs: seq<nat>, d: real, e: Entry)
    requires |cats| == |vs| && d > 0.0
    ensures e in Breakdown(cats, vs, d) <==>
      exists i :: 0 <= i < |vs| && vs[i] > 0 && e == Entry(cats[i], Pct(vs[i], d))
  {
    if vs != [] {
      var n := |vs| - 1;
      BreakdownMembership(cats[..n], vs[..n], d, e);
      if exists i :: 0 <= i < |vs| && vs[i] > 0 && e == Entry(cats[i], Pct(vs[i], d)) {
        var i :| 0 <= i < |vs| && vs[i] > 0 && e == Entry(cats[i], Pct(vs[i], d));
        if i < n {
          assert vs[..n][i] == vs[i] && cats[..n][i] == cats[i];
        }
      }
      if e in Breakdown(cats[..n], vs[..n], d) {
        var i :| 0 <= i < n && vs[..n][i] > 0 && e == Entry(cats[..n][i], Pct(vs[..n][i], d));
        assert vs[i] > 0 && e == Entry(cats[i], Pct(vs[i], d));
      }
    }
  }

  /** The positions of the positive counts, in increasing order. */
  function PositiveIndices(vs: seq<nat>): seq<nat> {
    if vs == [] then []
    else
      var n := |vs| - 1;
      PositiveIndices(vs[..n]) + (if vs[n] > 0 then [n] else [])
  }

  /**
   * Entries come in category order: the `k`-th entry belongs to the `k`-th
   * position with a positive count, and those positions strictly increase.
   */
  lemma {:induction false} BreakdownInOrder(cats: seq<string>, vs: seq<nat>, d: real)
    requires |cats| == |vs| && d > 0.0
    ensures var b, ix := Breakdown(cats, vs, d), PositiveIndices(vs);
      && |b| == |ix|
      && (forall k :: 0 <= k < |ix| ==>
            ix[k] < |vs| && vs[ix[k]] > 0 && b[k] == Entry(cats[ix[k]], Pct(vs[ix[k]], d)))
      && (forall k, m :: 0 <= k < m < |ix| ==> ix[k] < ix[m])
  {
    if vs != [] {
      var n := |vs| - 1;
      BreakdownInOrder(cats[..n], vs[..n], d);
      var b', ix' := Breakdown(cats[..n], vs[..n], d), PositiveIndices(vs[..n]);
      var b, ix := Breakdown(cats, vs, d), PositiveIndices(vs);
      assert b == b' + EntryIfPositive(cats[n], vs[n], d);
      assert ix == ix' + (if vs[n] > 0 then [n] else []);
      forall k | 0 <= k < |ix'|
        ensures ix[k] < n && vs[ix[k]] > 0 && b[k] == Entry(cats[ix[k]], Pct(vs[ix[k]], d))
      {
        assert ix[k] == ix'[k] && b[k] == b'[k];
        assert vs[..n][ix'[k]] == vs[ix'[k]] && cats[..n][ix'[k]] == cats[ix'[k]];
      }
    }
  }

  lemma {:induction false} CountBelowSum(vs: seq<nat>, i: nat)
    requires i < |vs|
    ensures vs[i] <= Sum(vs)
  {
    var n := |vs| - 1;
    if i < n {
      CountBelowSum(vs[..n], i);
    }
  }

  lemma {:induction false} NoPositiveNoEntries(cats: seq<string>, vs: seq<nat>, d: real)
    requires |cats| == |vs| && d > 0.0
    ensures Sum(vs) == 0 <==> Breakdown(cats, vs, d) == []
  {
    if vs != [] {
      var n := |vs| - 1;
      NoPositiveNoEntries(cats[..n], vs[..n], d);
    }
  }

  lemma {:induction false} SharesAddUp(cats: seq<string>, vs: seq<nat>, d: real)
    requires |cats| == |vs| && d > 0.0
    ensures ShareSum(Breakdown(cats, vs, d)) == Pct(Sum(vs), d)
  {
    if vs != [] {
      var n := |vs| - 1;
      var pre := Breakdown(cats[..n], vs[..n], d);
      SharesAddUp(cats[..n], vs[..n], d);
      var a, b := Sum(vs[..n]), vs[n];
      var last := EntryIfPositive(cats[n], vs[n], d);
      assert Breakdown(cats, vs, d) == pre + last;
      if b > 0 {
        assert (pre + last)[..|pre + last| - 1] == pre;
        assert ShareSum(pre + last) == ShareSum(pre) + Pct(b, d);
      } else {
        assert pre + last == pre;
      }
      SplitShare(a, b, d);
    }
  }

  lemma SplitShare(a: nat, b: nat, d: real)
    requires d > 0.0
    ensures Pct(a, d) + Pct(b, d) == Pct(a + b, d)
  {
    calc {
      100.0 * a as real / d + 100.0 * b as real / d;
      (100.0 * a as real + 100.0 * b as real) / d;
      100.0 * (a + b) as real / d;
    }
  }

  lemma PctBounds(v: nat, d: real)
    requires 0 < v && v as real <= d
    ensures 0.0 < Pct(v, d) <= 100.0
    ensures v as real == d ==> Pct(v, d) == 100.0
  {
    var x := 100.0 * v as real;
    assert Pct(v, d) == x / d;
    assert x / d <= 100.0 by {
      assert x <= 100.0 * d;
      assert x / d * d == x;
    }
  }

  /**
   * The shares of a breakdown over `max(1, total)`: none when every count is 0;
   * otherwise each share lies in (0, 100] and together they make exactly 100.
   */
  lemma ExposureShares(c: Counts)
    ensures var b := Breakdown(Categories, c.AsSeq(), c.Denominator() as real);
      && (b == [] <==> Sum(c.AsSeq()) == 0)
      && (b != [] ==> ShareSum(b) == 100.0)
      && (forall e :: e in b ==> 0.0 < e.share <= 100.0)
  {
    var vs, d := c.AsSeq(), c.Denominator() as real;
    var b := Breakdown(Categories, vs, d);
    NoPositiveNoEntries(Categories, vs, d);
    SharesAddUp(Categories, vs, d);
    if Sum(vs) > 0 {
      PctBounds(Sum(vs), d);
    }
    forall e | e in b
      ensures 0.0 < e.share <= 100.0
    {
      BreakdownMembership(Categories, vs, d, e);
      var i :| 0 <= i < |vs| && vs[i] > 0 && e == Entry(Categories[i], Pct(vs[i], d));
      CountBelowSum(vs, i);
      PctBounds(vs[i], d);
    }
  }

  /** `add(cat, v)`: appends the entry when `v` is positive. */
  method Add(expo: seq<Entry>, cat: string, v: nat, total: nat) returns (r: seq<Entry>)
    requires total >= 1
    ensures r == expo + EntryIfPositive(cat, v, total as real)
  {
    r := expo;
    if v > 0 {
      r := r + [Entry(cat, 100.0 * v as real / total as real)];
    }
  }

  lemma BreakdownStep(cats: seq<string>, vs: seq<nat>, d: real, k: nat)
    requires |cats| == |vs| && d > 0.0 && k < |vs|
    ensures Breakdown(cats[..k + 1], vs[..k + 1], d) == Breakdown(cats[..k], vs[..k], d) + EntryIfPositive(cats[k], vs[k], d)
  {
    assert cats[..k + 1][..k] == cats[..k];
    assert vs[..k + 1][..k] == vs[..k];
  }

  /** The breakdown over the six categories, written out. */
  lemma BreakdownOfSix(c: Counts, d: real)
    requires d > 0.0
    ensures Breakdown(Categories, c.AsSeq(), d)
      == [] + EntryIfPositive(Categories[0], c.riskyIn, d) + EntryIfPositive(Categories[1], c.riskyOut, d)
         + EntryIfPositive(Categories[2], c.dustIn, d) + EntryIfPositive(Categories[3], c.dustOut, d)
         + EntryIfPositive(Categories[4], c.dex, d) + EntryIfPositive(Categories[5], c.cex, d)
  {
    var cs, vs := Categories, c.AsSeq();
    assert Breakdown(cs[..1], vs[..1], d) == [] + EntryIfPositive(cs[0], vs[0], d) by {
      assert Breakdown(cs[..0], vs[..0], d) == [];
      BreakdownStep(cs, vs, d, 0);
    }
    assert Breakdown(cs[..2], vs[..2], d) == Breakdown(cs[..1], vs[..1], d) + EntryIfPositive(cs[1], vs[1], d) by {
      BreakdownStep(cs, vs, d, 1);
    }
    assert Breakdown(cs[..3], vs[..3], d) == Breakdown(cs[..2], vs[..2], d) + EntryIfPositive(cs[2], vs[2], d) by {
      BreakdownStep(cs, vs, d, 2);
    }
    assert Breakdown(cs[..4], vs[..4], d) == Breakdown(cs[..3], vs[..3], d) + EntryIfPositive(cs[3], vs[3], d) by {
      BreakdownStep(cs, vs, d, 3);
    }
    assert Breakdown(cs[..5], vs[..5], d) == Breakdown(cs[..4], vs[..4], d) + EntryIfPositive(cs[4], vs[4], d) by {
      BreakdownStep(cs, vs, d, 4);
    }
    assert Breakdown(cs[..6], vs[..6], d) == Breakdown(cs[..5], vs[..5], d) + EntryIfPositive(cs[5], vs[5], d) by {
      BreakdownStep(cs, vs, d, 5);
    }
    assert cs[..6] == cs && vs[..6] == vs;
  }

  /** `_exposure_breakdown(...)` */
  method ExposureBreakdown(c: Counts) returns (expo: seq<Entry>)
    ensures expo == Breakdown(Categories, c.AsSeq(), c.Denominator() as real)
    ensures expo == [] <==> Sum(c.AsSeq()) == 0
    ensures expo != [] ==> ShareSum(expo) == 100.0
    ensures forall e :: e in expo ==> 0.0 < e.share <= 100.0
  {
    var total := c.riskyIn + c.riskyOut + c.dustIn + c.dustOut + c.dex + c.cex;
    if total < 1 {
      total := 1;
    }
    assert total == c.Denominator();
    expo := [];
    expo := Add(expo, Categories[0], c.riskyIn, total);
    expo := Add(expo, Categories[1], c.riskyOut, total);
    expo := Add(expo, Categories[2], c.dustIn, total);
    expo := Add(expo, Categories[3], c.dustOut, total);
    if c.dex > 0 {
      expo := Add(expo, Categories[4], c.dex, total);
    }
    if c.cex > 0 {
      expo := Add(expo, Categories[5], c.cex, total);
    }
    BreakdownOfSix(c, total as real);
    ExposureShares(c);
  }
}
