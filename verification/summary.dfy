/**
 * `build_summary`: a fixed sentence when no signal fired, otherwise the
 * level followed by the reason codes, deduplicated and in `sorted()` order.
 */
module Summary {
  import opened Text
  import opened Scoring

  const NoSignals := "No se " + "detectaron señales de riesgo en las verificaciones básicas."

  /** The codes listed by the alphabetical order of their names. */
  const Alphabetical: seq<Code> := [BlacklistUsdt, BlacklistUsdtEvidence, CounterpartyHigh, DustActivity, FraudFlag]

  /** Strictly increasing in Python's string order (hence also free of duplicates). */
  predicate StrictlySorted(xs: seq<string>) {
    forall i, j :: 0 <= i < j < |xs| ==> StrLess(xs[i], xs[j])
  }

  function Names(cs: seq<Code>): (r: seq<string>)
    ensures |r| == |cs|
    ensures forall i :: 0 <= i < |cs| ==> r[i] == cs[i].Name()
  {
    seq(|cs|, i requires 0 <= i < |cs| => cs[i].Name())
  }

  /** The codes of `cs` that some reason carries, in the order of `cs`. */
  function Present(cs: seq<Code>, reasons: seq<Reason>): seq<Code> {
    if cs == [] then []
    else if HasCode(reasons, cs[0]) then [cs[0]] + Present(cs[1..], reasons)
    else Present(cs[1..], reasons)
  }

  /** The codes listed after "Señales principales:". */
  function TopCodes(reasons: seq<Reason>): seq<string> {
    Names(Present(Alphabetical, reasons))
  }

  function BuildSummary(level: Level, reasons: seq<Reason>): (r: string)
    ensures r == NoSignals <==> reasons == []
  {
    if reasons == [] then NoSignals
    else
      var rest := level.Name() + ". Señales principales: " + Join(TopCodes(reasons), ", ") + ".";
      var r := "Nivel " + rest;
      assert r[1] == "Nivel "[1] == 'i';
      assert NoSignals[1] == "No se "[1] == 'o';
      r
  }

  lemma {:induction false} StrLessProperPrefix(a: string, b: string)
    requires b != []
    ensures StrLess(a, a + b)
  {
    if a != [] {
      assert (a + b)[1..] == a[1..] + b;
      StrLessProperPrefix(a[1..], b);
    }
  }

  lemma FirstCharLess(a: string, b: string)
    requires a != [] && b != [] && a[0] < b[0]
    ensures StrLess(a, b)
  {
  }

  lemma AlphabeticalIsSorted()
    ensures StrictlySorted(Names(Alphabetical))
  {
    var xs := Names(Alphabetical);
    assert xs == ["BLACKLIST_USDT", "BLACKLIST_USDT_EVIDENCE", "COUNTERPARTY_HIGH", "DUST_ACTIVITY", "FRAUD_FLAG"];
    forall i, j | 0 <= i < j < |xs|
      ensures StrLess(xs[i], xs[j])
    {
      if i == 0 && j == 1 {
        assert xs[1] == xs[0] + "_EVIDENCE";
        StrLessProperPrefix(xs[0], "_EVIDENCE");
      } else {
        FirstCharLess(xs[i], xs[j]);
      }
    }
  }

  lemma {:induction false} PresentMembership(cs: seq<Code>, reasons: seq<Reason>, c: Code)
    ensures c in Present(cs, reasons) <==> c in cs && HasCode(reasons, c)
  {
    if cs != [] {
      PresentMembership(cs[1..], reasons, c);
      assert c in cs <==> c == cs[0] || c in cs[1..];
    }
  }

  lemma {:induction false} PresentSorted(cs: seq<Code>, reasons: seq<Reason>)
    requires StrictlySorted(Names(cs))
    ensures StrictlySorted(Names(Present(cs, reasons)))
  {
    if cs != [] {
      var tail := cs[1..];
      var pt := Present(tail, reasons);
      assert StrictlySorted(Names(pt)) by {
        assert Names(tail) == Names(cs)[1..];
        SortedTail(Names(cs));
        PresentSorted(tail, reasons);
      }
      if HasCode(reasons, cs[0]) {
        assert StrictlySorted(Names([cs[0]] + pt)) by {
          NamesCons(cs[0], pt);
          HeadBelowPresent(cs, reasons);
          SortedCons(cs[0].Name(), Names(pt));
        }
      }
    }
  }

  lemma NamesCons(c: Code, cs: seq<Code>)
    ensures Names([c] + cs) == [c.Name()] + Names(cs)
  {
  }

  lemma SortedTail(xs: seq<string>)
    requires StrictlySorted(xs) && xs != []
    ensures StrictlySorted(xs[1..])
  {
    assert forall i :: 0 <= i < |xs| - 1 ==> xs[1..][i] == xs[i + 1];
  }

  lemma SortedCons(x: string, ys: seq<string>)
    requires StrictlySorted(ys) && forall j :: 0 <= j < |ys| ==> StrLess(x, ys[j])
    ensures StrictlySorted([x] + ys)
  {
    var zs := [x] + ys;
    forall i, j | 0 <= i < j < |zs|
      ensures StrLess(zs[i], zs[j])
    {
      assert zs[j] == ys[j - 1];
      if i > 0 {
        assert zs[i] == ys[i - 1];
      }
    }
  }

  /** The first code of a sorted list sorts before every later code that is present. */
  lemma HeadBelowPresent(cs: seq<Code>, reasons: seq<Reason>)
    requires StrictlySorted(Names(cs)) && cs != []
    ensures forall j :: 0 <= j < |Names(Present(cs[1..], reasons))| ==>
      StrLess(cs[0].Name(), Names(Present(cs[1..], reasons))[j])
  {
    var pt := Present(cs[1..], reasons);
    forall j | 0 <= j < |pt|
      ensures StrLess(cs[0].Name(), pt[j].Name())
    {
      PresentMembership(cs[1..], reasons, pt[j]);
      var k :| 0 <= k < |cs[1..]| && cs[1..][k] == pt[j];
      assert Names(cs)[0] == cs[0].Name() && Names(cs)[k + 1] == pt[j].Name();
    }
  }

  /** Two strictly sorted lists with the same elements are the same list. */
  lemma {:induction false} SortedUnique(xs: seq<string>, ys: seq<string>)
    requires StrictlySorted(xs) && StrictlySorted(ys)
    requires forall x :: x in xs <==> x in ys
    ensures xs == ys
    decreases |xs|
  {
    HeadIsMember(xs);
    HeadIsMember(ys);
    if xs != [] && ys != [] {
      var a, b := xs[0], ys[0];
      assert a in xs && b in ys;
      var k :| 0 <= k < |ys| && ys[k] == a;
      var m :| 0 <= m < |xs| && xs[m] == b;
      StrLessAsymmetric(a, b);
      assert a == b;
      forall x ensures x in xs[1..] <==> x in ys[1..] {
        StrLessIrreflexive(x);
        if x in xs[1..] {
          var i :| 1 <= i < |xs| && xs[i] == x;
          assert x in ys;
          var j :| 0 <= j < |ys| && ys[j] == x;
          assert ys[1..][j - 1] == x;
        }
        if x in ys[1..] {
          var i :| 1 <= i < |ys| && ys[i] == x;
          assert x in xs;
          var j :| 0 <= j < |xs| && xs[j] == x;
          assert xs[1..][j - 1] == x;
        }
      }
      SortedUnique(xs[1..], ys[1..]);
      assert xs == [a] + xs[1..];
      assert ys == [b] + ys[1..];
    }
  }

  lemma StrLessAsymmetric(a: string, b: string)
    ensures !(StrLess(a, b) && StrLess(b, a))
  {
    if StrLess(a, b) && StrLess(b, a) {
      StrLessTransitive(a, b, a);
      StrLessIrreflexive(a);
    }
  }

  lemma HeadIsMember(s: seq<string>)
    ensures s != [] ==> s[0] in s
  {
  }

  /**
   * The listed codes are exactly `sorted({r["code"] for r in reasons})`:
   * strictly sorted, each the name of some reason's code and every
   * reason's code named; and they are the only list with these properties.
   */
  lemma TopCodesAreSortedSet(reasons: seq<Reason>)
    ensures StrictlySorted(TopCodes(reasons))
    ensures forall n :: n in TopCodes(reasons) <==> exists i :: 0 <= i < |reasons| && reasons[i].code.Name() == n
    ensures forall ys ::
      (StrictlySorted(ys) && (forall n :: n in ys <==> exists i :: 0 <= i < |reasons| && reasons[i].code.Name() == n))
      ==> ys == TopCodes(reasons)
  {
    AlphabeticalIsSorted();
    PresentSorted(Alphabetical, reasons);
    var p := Present(Alphabetical, reasons);
    forall n ensures n in TopCodes(reasons) <==> exists i :: 0 <= i < |reasons| && reasons[i].code.Name() == n {
      if n in TopCodes(reasons) {
        var k :| 0 <= k < |p| && p[k].Name() == n;
        PresentMembership(Alphabetical, reasons, p[k]);
      }
      if exists i :: 0 <= i < |reasons| && reasons[i].code.Name() == n {
        var i :| 0 <= i < |reasons| && reasons[i].code.Name() == n;
        var c := reasons[i].code;
        PresentMembership(Alphabetical, reasons, c);
        var k :| 0 <= k < |p| && p[k] == c;
        assert TopCodes(reasons)[k] == n;
      }
    }
    forall ys | StrictlySorted(ys) && (forall n :: n in ys <==> exists i :: 0 <= i < |reasons| && reasons[i].code.Name() == n)
      ensures ys == TopCodes(reasons)
    {
      SortedUnique(ys, TopCodes(reasons));
    }
  }

  /** The summary of a run that found signals names each code once, however often it fired. */
  lemma SummaryIgnoresRepeats(level: Level, reasons: seq<Reason>, r: Reason)
    requires r in reasons
    ensures BuildSummary(level, reasons + [r]) == BuildSummary(level, reasons)
  {
    forall c ensures HasCode(reasons + [r], c) <==> HasCode(reasons, c) {
      if HasCode(reasons + [r], c) {
        var i :| 0 <= i < |reasons + [r]| && (reasons + [r])[i].code == c;
        if i == |reasons| {
          var j :| 0 <= j < |reasons| && reasons[j] == r;
        } else {
          assert reasons[i] == (reasons + [r])[i];
        }
      }
      if HasCode(reasons, c) {
        var i :| 0 <= i < |reasons| && reasons[i].code == c;
        assert (reasons + [r])[i] == reasons[i];
      }
    }
    PresentSame(Alphabetical, reasons + [r], reasons);
  }

  lemma {:induction false} PresentSame(cs: seq<Code>, a: seq<Reason>, b: seq<Reason>)
    requires forall c :: HasCode(a, c) <==> HasCode(b, c)
    ensures Present(cs, a) == Present(cs, b)
  {
    if cs != [] {
      PresentSame(cs[1..], a, b);
    }
  }
}
