/** What the ranked explanation of fraud_engine.py says about the score it comes with. */
module FraudExplanation {
  import opened Collections
  import opened FraudEngine

  // ---- the sort ----------------------------------------------------------------------

  /** In the order in which the factors are scored. */
  ghost predicate InFactorOrder(cs: seq<Contribution>) {
    forall i, j :: 0 <= i < j < |cs| ==> Rank(cs[i].factor) < Rank(cs[j].factor)
  }

  lemma SameMembers<T>(xs: seq<T>, ys: seq<T>)
    requires multiset(xs) == multiset(ys)
    ensures forall x :: x in xs <==> x in ys
  {
    forall x ensures x in xs <==> x in ys {
      assert x in multiset(xs) <==> x in multiset(ys);
    }
  }

  lemma {:induction false} InsertLastAdds(sorted: seq<Contribution>, c: Contribution)
    ensures multiset(InsertLast(sorted, c)) == multiset(sorted) + multiset{c}
    ensures forall x :: x in InsertLast(sorted, c) <==> x in sorted || x == c
  {
    if sorted != [] && sorted[|sorted| - 1].points < c.points {
      var front, last := sorted[..|sorted| - 1], sorted[|sorted| - 1];
      assert sorted == front + [last];
      InsertLastAdds(front, c);
    }
  }

  lemma {:induction false} InsertLastIsStable(sorted: seq<Contribution>, c: Contribution)
    requires Ranked(sorted) && forall x :: x in sorted ==> Rank(x.factor) < Rank(c.factor)
    ensures Ranked(InsertLast(sorted, c))
  {
    if sorted != [] && sorted[|sorted| - 1].points < c.points {
      var front, last := sorted[..|sorted| - 1], sorted[|sorted| - 1];
      assert sorted == front + [last];
      InsertLastIsStable(front, c);
      InsertLastAdds(front, c);
      assert forall x :: x in front ==> Precedes(x, last);
    }
  }

  /** The result is the one arrangement of the entries in which more points come
      first and equal points stay in the order of scoring. */
  lemma {:induction false} SortIsStable(cs: seq<Contribution>)
    requires InFactorOrder(cs)
    ensures Ranked(SortDescending(cs)) && multiset(SortDescending(cs)) == multiset(cs)
  {
    if cs != [] {
      var front, last := cs[..|cs| - 1], cs[|cs| - 1];
      assert cs == front + [last];
      SortIsStable(front);
      SameMembers(SortDescending(front), front);
      InsertLastAdds(SortDescending(front), last);
      InsertLastIsStable(SortDescending(front), last);
    }
  }

  // ---- which factors are reported ---------------------------------------------------------

  ghost predicate EntriesBelow(n: nat, cs: seq<Contribution>, t: Txn) {
    && (forall c :: c in cs ==> c == Entry(c.factor, t) && Reported(c.factor, t) && Rank(c.factor) < n)
    && (forall f :: Rank(f) < n && Reported(f, t) ==> Entry(f, t) in cs)
  }

  lemma {:induction false} ReportedEntriesAre(n: nat, t: Txn)
    requires n <= |FACTORS|
    ensures InFactorOrder(ReportedEntries(n, t)) && EntriesBelow(n, ReportedEntries(n, t), t)
  {
    if n > 0 {
      ReportedEntriesAre(n - 1, t);
      assert Rank(FACTORS[n - 1]) == n - 1;
      assert forall f :: Rank(f) == n - 1 ==> f == FACTORS[n - 1];
    }
  }

  lemma EntriesPermuted(n: nat, cs: seq<Contribution>, ds: seq<Contribution>, t: Txn)
    requires EntriesBelow(n, cs, t) && forall c :: c in ds <==> c in cs
    ensures EntriesBelow(n, ds, t)
  {
  }

  lemma ExplanationEntries(t: Txn)
    ensures Ranked(Explanation(t)) && EntriesBelow(|FACTORS|, Explanation(t), t)
  {
    var unsorted := ReportedEntries(|FACTORS|, t);
    ReportedEntriesAre(|FACTORS|, t);
    SortIsStable(unsorted);
    SameMembers(SortDescending(unsorted), unsorted);
    EntriesPermuted(|FACTORS|, unsorted, SortDescending(unsorted), t);
  }

  /** `feature_contributions` lists exactly the factors of magnitude 0.05 or more,
      each once, ranked; the transaction type is always among them. */
  lemma ExplanationIsExact(t: Txn)
    ensures Ranked(Explanation(t))
    ensures forall c :: c in Explanation(t) ==> c == Entry(c.factor, t) && Reported(c.factor, t)
    ensures forall f :: Reported(f, t) ==> Entry(f, t) in Explanation(t)
    ensures Entry(TxnTypeRisk, t) in Explanation(t)
  {
    ExplanationEntries(t);
    assert Reported(TxnTypeRisk, t);
  }

  lemma EachFactorOnce(t: Txn, i: nat, j: nat)
    requires i < j < |Explanation(t)|
    ensures Explanation(t)[i].factor != Explanation(t)[j].factor
  {
    ExplanationIsExact(t);
    var cs := Explanation(t);
    assert cs[i] in cs && cs[j] in cs;
    assert Precedes(cs[i], cs[j]);
  }

  lemma EntryPoints(c: Contribution, f: Factor, t: Txn)
    requires c == Entry(f, t)
    ensures c.points == Rounded(f, t)
  {
  }

  lemma RoundedClosely(x: real, scale: nat)
    requires scale == 100 || scale == 10_000
    ensures x - 0.5 / scale as real <= RoundTo(x, scale) <= x + 0.5 / scale as real
  {
  }

  /** What an entry says: its magnitude to four decimals, the factor's weight, and the
      points to the hundredth. */
  lemma EntriesAreClose(t: Txn, k: nat)
    requires k < |Explanation(t)|
    ensures var e := Explanation(t)[k];
            && e.weight == Weight(e.factor)
            && Magnitude(e.factor, t) - 0.00005 <= e.magnitude <= Magnitude(e.factor, t) + 0.00005
            && Points(e.factor, t) - 0.005 <= e.points <= Points(e.factor, t) + 0.005
  {
    ExplanationIsExact(t);
    var e := Explanation(t)[k];
    assert e in Explanation(t) && e == Entry(e.factor, t);
    RoundedClosely(Magnitude(e.factor, t), 10_000);
    RoundedClosely(Points(e.factor, t), 100);
  }

  // ---- the explanation accounts for the score -------------------------------------------------

  function SumPoints(cs: seq<Contribution>): real {
    if cs == [] then 0.0 else SumPoints(cs[..|cs| - 1]) + cs[|cs| - 1].points
  }

  lemma SumSnoc(cs: seq<Contribution>, c: Contribution)
    ensures SumPoints(cs + [c]) == SumPoints(cs) + c.points
  {
    assert (cs + [c])[..|cs|] == cs;
  }

  lemma {:induction false} InsertKeepsSum(sorted: seq<Contribution>, c: Contribution)
    ensures SumPoints(InsertLast(sorted, c)) == SumPoints(sorted) + c.points
  {
    if sorted == [] || sorted[|sorted| - 1].points >= c.points {
      SumSnoc(sorted, c);
    } else {
      InsertKeepsSum(sorted[..|sorted| - 1], c);
      SumSnoc(InsertLast(sorted[..|sorted| - 1], c), sorted[|sorted| - 1]);
    }
  }

  lemma {:induction false} SortKeepsSum(cs: seq<Contribution>)
    ensures SumPoints(SortDescending(cs)) == SumPoints(cs)
  {
    if cs != [] {
      SortKeepsSum(cs[..|cs| - 1]);
      InsertKeepsSum(SortDescending(cs[..|cs| - 1]), cs[|cs| - 1]);
    }
  }

  function Rounded(f: Factor, t: Txn): real {
    RoundTo(Points(f, t), 100)
  }

  /** What one factor shows in the explanation. */
  function Shown(f: Factor, t: Txn): real {
    if Reported(f, t) then Rounded(f, t) else 0.0
  }

  lemma SumStep(n: nat, f: Factor, t: Txn)
    requires 0 < n <= |FACTORS| && FACTORS[n - 1] == f
    ensures SumPoints(ReportedEntries(n, t)) == SumPoints(ReportedEntries(n - 1, t)) + Shown(f, t)
  {
    EntryPoints(Entry(f, t), f, t);
    if Reported(f, t) {
      SumSnoc(ReportedEntries(n - 1, t), Entry(f, t));
    } else {
      assert ReportedEntries(n, t) == ReportedEntries(n - 1, t);
    }
  }

  lemma SumIsShown(t: Txn)
    ensures SumPoints(Explanation(t)) == Shown(AmountAnomaly, t) + Shown(BalanceDrain, t)
      + Shown(DestinationAnomaly, t) + Shown(TxnTypeRisk, t) + Shown(RoundAmountBias, t)
  {
    SortKeepsSum(ReportedEntries(|FACTORS|, t));
    SumStep(5, RoundAmountBias, t);
    SumStep(4, TxnTypeRisk, t);
    SumStep(3, DestinationAnomaly, t);
    SumStep(2, BalanceDrain, t);
    SumStep(1, AmountAnomaly, t);
  }

  lemma RoundToCents(x: real)
    ensures x - 0.005 <= RoundTo(x, 100) <= x + 0.005
  {
  }

  lemma WholePoints(x: real, k: int)
    requires x == k as real
    ensures RoundTo(x, 100) == x
  {
    assert RoundHalfEven(x * 100.0) == 100 * k;
  }

  /** What rounding and the 0.05 floor hide of each factor. */
  lemma GapOf(f: Factor, t: Txn)
    ensures -0.005 <= Points(f, t) - Shown(f, t)
    ensures f.AmountAnomaly? ==> Points(f, t) - Shown(f, t) < 1.75
    ensures f.BalanceDrain? ==> Points(f, t) - Shown(f, t) < 1.25
    ensures Reported(f, t) || f.DestinationAnomaly? ==> Points(f, t) - Shown(f, t) <= 0.005
  {
    MagnitudeRange(f, t);
    RoundToCents(Points(f, t));
  }

  lemma ExactGaps(t: Txn)
    ensures Shown(TxnTypeRisk, t) == Points(TxnTypeRisk, t) == Rounded(TxnTypeRisk, t)
    ensures Shown(RoundAmountBias, t) == Points(RoundAmountBias, t)
  {
    var k := TypePointsAreWhole(t);
    WholePoints(Points(TxnTypeRisk, t), k);
    var b := BiasPointsAreWhole(t);
    WholePoints(Points(RoundAmountBias, t), b);
  }

  lemma TypePointsAreWhole(t: Txn) returns (k: int)
    ensures Points(TxnTypeRisk, t) == k as real
  {
    k := match t.kind case Transfer => 10 case CashOut => 9 case Debit => 3 case Payment => 2 case CashIn => 1;
  }

  lemma BiasPointsAreWhole(t: Txn) returns (k: int)
    ensures Points(RoundAmountBias, t) == k as real
  {
    var m := RoundBias(t.amount);
    k := if m == 1.0 then 10 else if m == 0.8 then 8 else if m == 0.6 then 6 else if m == 0.3 then 3 else 0;
  }

  lemma RoundedAround(x: real, cents: int)
    ensures x <= cents as real / 100.0 ==> RoundTo(x, 100) <= cents as real / 100.0
    ensures x >= cents as real / 100.0 ==> RoundTo(x, 100) >= cents as real / 100.0
  {
    assert RoundHalfEven(cents as real) == cents;
    if x <= cents as real / 100.0 {
      RoundingIsMonotone(x * 100.0, cents as real);
    } else {
      RoundingIsMonotone(cents as real, x * 100.0);
    }
  }

  /** With a small amount the destination counts a whole number of points and less
      than half a point more. */
  lemma DestinationBase(t: Txn) returns (d: int)
    requires !Reported(AmountAnomaly, t)
    ensures d as real <= Points(DestinationAnomaly, t) < d as real + 0.4
    ensures Shown(DestinationAnomaly, t) >= d as real
  {
    MagnitudeRange(AmountAnomaly, t);
    d := if t.destBefore > 0 then 0 else if t.amount > 0 && t.destAfter == 0 then 20 else 12;
    RoundedAround(Points(DestinationAnomaly, t), 100 * d);
  }

  /** Amount and drain both too weak to be listed. */
  lemma HiddenPair(t: Txn)
    requires !Reported(AmountAnomaly, t) && !Reported(BalanceDrain, t)
    ensures Score(t) as real - SumPoints(Explanation(t)) <= 3.0
  {
    var d := DestinationBase(t);
    var k := TypePointsAreWhole(t);
    var b := BiasPointsAreWhole(t);
    GapOf(AmountAnomaly, t);
    GapOf(BalanceDrain, t);
    ExactGaps(t);
    SumIsShown(t);
    ScoreRange(t);
    assert Sum(t) < (d + k + b) as real + 3.4;
    assert Score(t) <= d + k + b + 3;
  }

  /** The points listed add up to the score within these bounds, although weak
      factors are dropped and every number is rounded. */
  lemma ExplanationAccountsForScore(t: Txn)
    ensures -0.515 <= Score(t) as real - SumPoints(Explanation(t)) <= 3.0
  {
    ScoreRange(t);
    SumIsShown(t);
    GapOf(AmountAnomaly, t);
    GapOf(BalanceDrain, t);
    GapOf(DestinationAnomaly, t);
    ExactGaps(t);
    if !Reported(AmountAnomaly, t) && !Reported(BalanceDrain, t) {
      HiddenPair(t);
    }
  }

  /** Three whole points go unexplained whenever the two dropped factors reach 2.5. */
  lemma ThreeHidden(t: Txn)
    requires !Reported(AmountAnomaly, t) && !Reported(BalanceDrain, t) && t.destBefore > 0
    requires Points(AmountAnomaly, t) + Points(BalanceDrain, t) > 2.5
    ensures Score(t) as real - SumPoints(Explanation(t)) == 3.0
  {
    var k := TypePointsAreWhole(t);
    var b := BiasPointsAreWhole(t);
    ExactGaps(t);
    SumIsShown(t);
    ScoreRange(t);
    assert (k + b) as real + 2.5 < Sum(t) < (k + b) as real + 3.0;
    assert Score(t) == k + b + 3;
  }

  /** They do: a deposit of $9,999.99 that is off by $499.99 scores 4 and lists 1. */
  lemma ThreePointsUnexplained()
    ensures exists t: Txn :: Score(t) as real - SumPoints(Explanation(t)) == 3.0
  {
    var t := Txn(CashIn, 999_999, 0, 950_000, 1, 1);
    assert Discrepancy(t) == 49_999;
    WeakMismatch(t);
    ThreeHidden(t);
  }

  lemma WeakMismatch(t: Txn)
    requires !FullyDrained(t) && t.amount == 999_999 && Discrepancy(t) == 49_999
    ensures !Reported(AmountAnomaly, t) && Points(AmountAnomaly, t) > 1.7
    ensures !Reported(BalanceDrain, t) && Points(BalanceDrain, t) > 1.2
  {
  }

  // ---- the summary sentence -----------------------------------------------------------------------

  lemma {:induction false} QuotedNothing(cs: seq<Contribution>, clauses: set<Factor>)
    ensures Quoted(cs, clauses) == [] <==> forall i :: 0 <= i < |cs| ==> cs[i].factor !in clauses
  {
    if cs != [] {
      QuotedNothing(cs[1..], clauses);
      assert forall i :: 0 < i < |cs| ==> cs[i] == cs[1..][i - 1];
    }
  }

  lemma {:induction false} ClausesAre(n: nat, t: Txn)
    requires n <= |FACTORS|
    ensures forall f :: f in ClausesOf(n, t) <==> Rank(f) < n && HasClause(f, t)
  {
    if n > 0 {
      ClausesAre(n - 1, t);
      assert Rank(FACTORS[n - 1]) == n - 1;
      assert forall f :: Rank(f) == n - 1 ==> f == FACTORS[n - 1];
    }
  }

  lemma OtherFactorsHaveClauses(f: Factor, t: Txn)
    requires Reported(f, t) && !f.TxnTypeRisk?
    ensures HasClause(f, t)
  {
  }

  function SummaryOf(t: Txn): Summary {
    BuildSummary(Explanation(t), ClausesOf(|FACTORS|, t), Score(t))
  }

  function FactorsOf(cs: seq<Contribution>): (fs: seq<Factor>)
    ensures |fs| == |cs| && forall k :: 0 <= k < |cs| ==> fs[k] == cs[k].factor
  {
    if cs == [] then [] else [cs[0].factor] + FactorsOf(cs[1..])
  }

  lemma {:induction false} QuotedAre(cs: seq<Contribution>, clauses: set<Factor>)
    ensures forall f :: f in Quoted(cs, clauses) <==> f in FactorsOf(cs) && f in clauses
    ensures Subsequence(Quoted(cs, clauses), FactorsOf(cs))
  {
    if cs != [] {
      var rest := Quoted(cs[1..], clauses);
      QuotedAre(cs[1..], clauses);
      assert FactorsOf(cs)[1..] == FactorsOf(cs[1..]);
      assert rest != [] ==> rest[0] in rest;
      if cs[0].factor in clauses {
        assert ([cs[0].factor] + rest)[1..] == rest;
      } else {
        assert Quoted(cs, clauses) == [] + rest == rest;
      }
    }
  }

  /** Of the reported factors only a low-risk type has nothing to say. */
  predicate Quotable(f: Factor, t: Txn) {
    f != TxnTypeRisk || t.kind.Transfer? || t.kind.CashOut?
  }

  lemma ReportedQuotable(f: Factor, t: Txn)
    requires Reported(f, t)
    ensures HasClause(f, t) <==> Quotable(f, t)
  {
    if f != TxnTypeRisk {
      OtherFactorsHaveClauses(f, t);
    }
  }

  function TopOf(t: Txn): seq<Contribution> {
    if |Explanation(t)| <= 3 then Explanation(t) else Explanation(t)[..3]
  }

  lemma TopAreReported(t: Txn)
    ensures forall f :: f in FactorsOf(TopOf(t)) ==> Reported(f, t)
  {
    ExplanationIsExact(t);
    var top := TopOf(t);
    forall f | f in FactorsOf(top) ensures Reported(f, t) {
      var k :| 0 <= k < |top| && top[k].factor == f;
      assert top[k] in Explanation(t);
    }
  }

  /** The sentence quotes, in the order of the explanation, exactly those of its first
      three factors that have something to say, and closes by the score. */
  lemma SummaryExactly(t: Txn)
    requires SummaryOf(t).Cites?
    ensures var s, top := SummaryOf(t), FactorsOf(TopOf(t));
            && Subsequence(s.factors, top) && (forall f :: f in s.factors <==> f in top && Quotable(f, t))
            && (s.closing == Clear <==> Score(t) <= 40) && (s.closing == Critical <==> Score(t) >= 76)
  {
    var top := TopOf(t);
    QuotedAre(top, ClausesOf(|FACTORS|, t));
    ClausesAre(|FACTORS|, t);
    TopAreReported(t);
    forall f | f in FactorsOf(top) ensures f in ClausesOf(|FACTORS|, t) <==> Quotable(f, t) {
      ReportedQuotable(f, t);
    }
  }

  /** "No risk factors of note" is said exactly when the one factor reported is a
      low-risk transaction type, and then the score is at most 6. */
  lemma NothingOfNoteExactly(t: Txn)
    ensures SummaryOf(t).NothingOfNote? <==>
              (forall f :: Reported(f, t) ==> f == TxnTypeRisk) && !t.kind.Transfer? && !t.kind.CashOut?
    ensures SummaryOf(t).NothingOfNote? ==> Score(t) <= 6
  {
    var cs, clauses := Explanation(t), ClausesOf(|FACTORS|, t);
    var top := if |cs| <= 3 then cs else cs[..3];
    ExplanationIsExact(t);
    ClausesAre(|FACTORS|, t);
    QuotedNothing(top, clauses);
    if SummaryOf(t).NothingOfNote? {
      OnlyTypeReported(t);
      LowScore(t);
    } else {
      var i :| 0 <= i < |top| && top[i].factor in clauses;
      assert top[i] in cs;
    }
  }

  lemma OnlyTypeReported(t: Txn)
    requires SummaryOf(t).NothingOfNote?
    ensures (forall f :: Reported(f, t) ==> f == TxnTypeRisk) && !t.kind.Transfer? && !t.kind.CashOut?
  {
    var cs, clauses := Explanation(t), ClausesOf(|FACTORS|, t);
    var top := if |cs| <= 3 then cs else cs[..3];
    ExplanationIsExact(t);
    ClausesAre(|FACTORS|, t);
    QuotedNothing(top, clauses);
    assert forall i :: 0 <= i < |top| ==> cs[i] in cs && top[i] == cs[i];
    forall i | 0 <= i < |top| ensures top[i].factor == TxnTypeRisk {
      if !top[i].factor.TxnTypeRisk? {
        OtherFactorsHaveClauses(top[i].factor, t);
      }
    }
    if |cs| > 1 {
      EachFactorOnce(t, 0, 1);
    }
  }

  lemma LowScore(t: Txn)
    requires forall f :: Reported(f, t) ==> f == TxnTypeRisk
    requires !t.kind.Transfer? && !t.kind.CashOut?
    ensures Score(t) <= 6
  {
    assert !Reported(AmountAnomaly, t) && !Reported(BalanceDrain, t);
    assert !Reported(DestinationAnomaly, t) && !Reported(RoundAmountBias, t);
    MagnitudeRange(DestinationAnomaly, t);
    ScoreRange(t);
    RoundingIsMonotone(Sum(t), 6.0);
  }
}
