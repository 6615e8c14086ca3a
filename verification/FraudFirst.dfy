/** "The first entry is the factor that actually moved the score most": exactly the
    transactions for which the ranked explanation of fraud_engine.py keeps that word,
    as thresholds in whole cents. It breaks where a weak factor is not listed, and
    where two factors round to the same hundredth of a point. */
module FraudFirst {
  import opened FraudEngine
  import opened FraudExplanation

  /** No factor moved the score by more than the one listed first. */
  ghost predicate FirstIsBiggest(t: Txn)
    requires Explanation(t) != []
  {
    forall f :: Points(f, t) <= Points(Explanation(t)[0].factor, t)
  }

  // ---- the inputs, in whole cents -----------------------------------------------------------

  /** The amount, as far as it counts: it is worth 7 * cents / 4,000,000 points. */
  function Cents(t: Txn): nat {
    if t.amount <= HIGH_AMOUNT_CENTS then t.amount else HIGH_AMOUNT_CENTS
  }

  function Base(t: Txn): nat {
    if t.amount >= 100 then t.amount else 100
  }

  /** The discrepancy, as far as it counts: it is worth 25 * gap / base points. */
  function Gap(t: Txn): nat {
    if FullyDrained(t) || (Discrepancy(t) >= Base(t) && Discrepancy(t) > TOLERANCE_CENTS) then Base(t)
    else if Discrepancy(t) <= TOLERANCE_CENTS then 0
    else Discrepancy(t)
  }

  function TypePoints(kind: TxnType): nat {
    match kind case Transfer => 10 case CashOut => 9 case Debit => 3 case Payment => 2 case CashIn => 1
  }

  function BiasPoints(amount: nat): nat {
    if amount == 0 then 0
    else if amount % 1_000_000 == 0 then 10
    else if amount % 500_000 == 0 then 8
    else if amount % 100_000 == 0 then 6
    else if amount % 10_000 == 0 then 3
    else 0
  }

  /** Empty before, not swept: worth 12 + cents / 2,500,000 points. */
  predicate EmptyDestination(t: Txn) {
    t.destBefore == 0 && !(t.amount > 0 && t.destAfter == 0)
  }

  /** The best of the other factors otherwise, a whole number of points. */
  function WholeRival(t: Txn): nat {
    if t.destBefore == 0 then 20
    else if BiasPoints(t.amount) > TypePoints(t.kind) then BiasPoints(t.amount)
    else TypePoints(t.kind)
  }

  /** n / d to the nearest integer, a tie to the even one. */
  function HalfEven(n: nat, d: nat): nat
    requires d > 0
  {
    var q, r := n / d, n % d;
    if 2 * r < d || (2 * r == d && q % 2 == 0) then q else q + 1
  }

  /** The hundredths of a point the amount shows, and an empty destination. */
  function AmountShows(cents: nat): nat {
    HalfEven(7 * cents, 40_000)
  }

  function EmptyShows(cents: nat): nat {
    HalfEven(30_000_000 + cents, 25_000)
  }

  // ---- the failing families --------------------------------------------------------------------

  /** A deposit that is not round into an account with a balance: only its type, worth
      1 point, is sure to be listed, and an unlisted amount or drain can be worth more;
      a listed drain can be worth less than the unlisted amount. */
  predicate SmallDeposit(t: Txn) {
    && t.kind.CashIn? && t.destBefore > 0 && BiasPoints(t.amount) == 0 && Cents(t) < 1_000_000
    && if 20 * Gap(t) >= Base(t) then 7 * Cents(t) * Base(t) > 100_000_000 * Gap(t)
       else 7 * Cents(t) > 4_000_000 || 25 * Gap(t) > Base(t)
  }

  /** The drain shows at most `k` hundredths. */
  predicate DrainShowsAtMost(t: Txn, k: nat) {
    5000 * Gap(t) < (2 * k + 1) * Base(t) || (5000 * Gap(t) == (2 * k + 1) * Base(t) && k % 2 == 0)
  }

  /** The drain shows at least `k` hundredths. */
  predicate DrainShowsAtLeast(t: Txn, k: nat) {
    (2 * k - 1) * Base(t) < 5000 * Gap(t) || ((2 * k - 1) * Base(t) == 5000 * Gap(t) && k % 2 == 0)
  }

  /** The drain is worth more than the amount and shows the same. */
  predicate DrainTiesAmount(t: Txn) {
    7 * Cents(t) * Base(t) < 100_000_000 * Gap(t) && DrainShowsAtMost(t, AmountShows(Cents(t)))
  }

  /** Against `w` whole points, worth more than amount or drain and showing the same. */
  predicate TiesAtWhole(t: Txn, w: nat) {
    var c := Cents(t);
    || (c >= 1_000_000 && 4_000_000 * w - 20_000 <= 7 * c < 4_000_000 * w && DrainShowsAtMost(t, 100 * w))
    || (c >= 1_000_000 && 7 * c >= 4_000_000 * w - 20_000 && DrainTiesAmount(t))
    || (20 * Gap(t) >= Base(t) && 7 * c < 4_000_000 * w - 20_000
        && DrainShowsAtLeast(t, 100 * w) && 25 * Gap(t) < w * Base(t))
  }

  /** Cents for which an empty destination shows more than the amount, and for which it
      is worth more and shows the same. */
  predicate EmptyShowsMore(cents: nat) {
    cents < 8_882_858 || 8_887_500 <= cents <= 8_888_571
  }

  predicate EmptyTiesAmount(cents: nat) {
    8_882_858 <= cents <= 8_887_499 || 8_888_572 <= cents <= 8_888_888
  }

  /** An empty destination is worth more than the drain and shows the same. */
  predicate EmptyTiesDrain(t: Txn) {
    62_500_000 * Gap(t) < (30_000_000 + Cents(t)) * Base(t) && DrainShowsAtLeast(t, EmptyShows(Cents(t)))
  }

  predicate TiesAtEmpty(t: Txn) {
    var c := Cents(t);
    || (EmptyTiesAmount(c) && DrainShowsAtMost(t, AmountShows(c)))
    || (!EmptyShowsMore(c) && DrainTiesAmount(t))
    || (EmptyShowsMore(c) && EmptyTiesDrain(t))
  }

  predicate Misleading(t: Txn) {
    SmallDeposit(t) || if EmptyDestination(t) then TiesAtEmpty(t) else TiesAtWhole(t, WholeRival(t))
  }

  // ---- which factor comes first --------------------------------------------------------------------

  lemma HeadPrecedes(cs: seq<Contribution>, c: Contribution)
    requires Ranked(cs) && c in cs
    ensures cs[0] == c || Precedes(cs[0], c)
  {
    var i :| 0 <= i < |cs| && cs[i] == c;
    if i > 0 {
      assert Precedes(cs[0], cs[i]);
    }
  }

  /** The first entry is reported, and shows more than every other reported factor, or
      as much and is scored earlier. */
  lemma FirstBeats(t: Txn) returns (first: Factor)
    ensures Explanation(t) != [] && Explanation(t)[0].factor == first && Reported(first, t)
    ensures forall g :: Reported(g, t) && g != first ==>
              Rounded(g, t) < Rounded(first, t) || (Rounded(g, t) == Rounded(first, t) && Rank(first) < Rank(g))
  {
    ExplanationIsExact(t);
    var cs := Explanation(t);
    HeadPrecedes(cs, Entry(TxnTypeRisk, t));
    first := cs[0].factor;
    assert cs[0] in cs;
    EntryPoints(cs[0], first, t);
    forall g | Reported(g, t) && g != first
      ensures Rounded(g, t) < Rounded(first, t) || (Rounded(g, t) == Rounded(first, t) && Rank(first) < Rank(g))
    {
      HeadPrecedes(cs, Entry(g, t));
      EntryPoints(Entry(g, t), g, t);
    }
  }

  // ---- what the other three factors are worth ----------------------------------------------------------

  /** Points of the best factor besides amount and drain. */
  function Rival(t: Txn): real {
    if EmptyDestination(t) then Points(DestinationAnomaly, t) else WholeRival(t) as real
  }

  lemma TypeAndBias(t: Txn)
    ensures Points(TxnTypeRisk, t) == TypePoints(t.kind) as real
    ensures Points(RoundAmountBias, t) == BiasPoints(t.amount) as real
    ensures Reported(TxnTypeRisk, t) && (Reported(RoundAmountBias, t) <==> BiasPoints(t.amount) > 0)
  {
  }

  lemma DestinationPoints(t: Txn)
    ensures t.destBefore > 0 ==> Points(DestinationAnomaly, t) == 0.0 && !Reported(DestinationAnomaly, t)
    ensures t.destBefore == 0 ==> Points(DestinationAnomaly, t) >= 12.0 && Reported(DestinationAnomaly, t)
    ensures t.destBefore == 0 && !EmptyDestination(t) ==> Points(DestinationAnomaly, t) == 20.0
  {
    MagnitudeRange(AmountAnomaly, t);
  }

  predicate Other(f: Factor) {
    !f.AmountAnomaly? && !f.BalanceDrain?
  }

  lemma RivalIsBest(t: Txn)
    ensures forall f :: Other(f) ==> Points(f, t) <= Rival(t)
    ensures exists f :: Other(f) && Reported(f, t) && Points(f, t) == Rival(t)
  {
    TypeAndBias(t);
    DestinationPoints(t);
    if t.destBefore == 0 {
      assert Other(DestinationAnomaly);
    } else if BiasPoints(t.amount) > TypePoints(t.kind) {
      assert Other(RoundAmountBias);
    } else {
      assert Other(TxnTypeRisk);
    }
  }

  /** Of the other three, the one that shows most is worth most. */
  lemma BestOther(t: Txn, f: Factor)
    requires Other(f) && Reported(f, t)
    requires forall g :: Other(g) && Reported(g, t) ==> Rounded(g, t) <= Rounded(f, t)
    ensures Points(f, t) == Rival(t)
  {
    TypeAndBias(t);
    DestinationPoints(t);
    FraudExplanation.WholePoints(Points(TxnTypeRisk, t), TypePoints(t.kind));
    FraudExplanation.WholePoints(Points(RoundAmountBias, t), BiasPoints(t.amount));
    RoundedAround(Points(DestinationAnomaly, t), 1200);
    assert Other(DestinationAnomaly) && Other(TxnTypeRisk) && Other(RoundAmountBias);
  }

  // ---- the claim over the three numbers --------------------------------------------------------------------

  function RivalShows(t: Txn): real {
    RoundTo(Rival(t), 100)
  }

  ghost predicate AmountFirst(t: Txn) {
    && Reported(AmountAnomaly, t) && Rounded(AmountAnomaly, t) >= RivalShows(t)
    && (Reported(BalanceDrain, t) ==> Rounded(AmountAnomaly, t) >= Rounded(BalanceDrain, t))
  }

  ghost predicate DrainFirst(t: Txn) {
    && Reported(BalanceDrain, t) && Rounded(BalanceDrain, t) >= RivalShows(t)
    && (Reported(AmountAnomaly, t) ==> Rounded(AmountAnomaly, t) < Rounded(BalanceDrain, t))
  }

  /** Who comes first is decided by the amount, the drain and the best of the others. */
  lemma WhoIsFirst(t: Txn)
    ensures Explanation(t) != []
    ensures var first := Explanation(t)[0].factor;
            && (AmountFirst(t) <==> first == AmountAnomaly)
            && (DrainFirst(t) <==> first == BalanceDrain)
            && (Other(first) ==> Points(first, t) == Rival(t))
  {
    var first := FirstBeats(t);
    RivalIsBest(t);
    var best :| Other(best) && Reported(best, t) && Points(best, t) == Rival(t);
    if Other(first) {
      BestOther(t, first);
    }
  }

  ghost predicate Beaten(t: Txn) {
    var a, d, r := Points(AmountAnomaly, t), Points(BalanceDrain, t), Rival(t);
    if AmountFirst(t) then a < d || a < r
    else if DrainFirst(t) then d < a || d < r
    else r < a || r < d
  }

  lemma BiggestIsUnbeaten(t: Txn)
    ensures Explanation(t) != []
    ensures FirstIsBiggest(t) <==> !Beaten(t)
  {
    WhoIsFirst(t);
    RivalIsBest(t);
    var best :| Other(best) && Reported(best, t) && Points(best, t) == Rival(t);
    var first := Explanation(t)[0].factor;
    if FirstIsBiggest(t) {
      assert Points(AmountAnomaly, t) <= Points(first, t) && Points(BalanceDrain, t) <= Points(first, t);
      assert Points(best, t) <= Points(first, t);
    } else {
      var f :| Points(f, t) > Points(first, t);
      assert Other(f) ==> Points(f, t) <= Rival(t);
    }
  }

  // ---- hundredths of a point -----------------------------------------------------------------------------------

  function Hundredths(x: real): int {
    RoundHalfEven(x * 100.0)
  }

  lemma ShowsMore(x: real, y: real)
    ensures RoundTo(x, 100) < RoundTo(y, 100) <==> Hundredths(x) < Hundredths(y)
    ensures RoundTo(x, 100) == RoundTo(y, 100) <==> Hundredths(x) == Hundredths(y)
  {
  }

  lemma HundredthsAtMost(x: real, k: int)
    ensures Hundredths(x) <= k <==> 200.0 * x < (2 * k + 1) as real || (200.0 * x == (2 * k + 1) as real && k % 2 == 0)
  {
  }

  lemma HundredthsAtLeast(x: real, k: int)
    ensures Hundredths(x) >= k <==> 200.0 * x > (2 * k - 1) as real || (200.0 * x == (2 * k - 1) as real && k % 2 == 0)
  {
  }

  lemma HundredthsMonotone(x: real, y: real)
    ensures x <= y ==> Hundredths(x) <= Hundredths(y)
  {
    if x <= y {
      RoundingIsMonotone(x * 100.0, y * 100.0);
    }
  }

  // ---- the amount --------------------------------------------------------------------------------------------------

  function AmountPoints(t: Txn): real { Points(AmountAnomaly, t) }

  function DrainPoints(t: Txn): real { Points(BalanceDrain, t) }

  lemma AmountWorth(t: Txn)
    ensures 4_000_000.0 * AmountPoints(t) == (7 * Cents(t)) as real
    ensures Reported(AmountAnomaly, t) <==> Cents(t) >= 1_000_000
  {
  }

  lemma AmountShowsThat(t: Txn)
    ensures Hundredths(AmountPoints(t)) == AmountShows(Cents(t))
  {
    AmountWorth(t);
    HundredthsAtMost(AmountPoints(t), AmountShows(Cents(t)));
    HundredthsAtLeast(AmountPoints(t), AmountShows(Cents(t)));
  }

  // ---- the drain ---------------------------------------------------------------------------------------------------

  lemma Quotient(n: nat, d: nat)
    requires d > 0
    ensures n as real / d as real * d as real == n as real
  {
  }

  lemma Scaled(x: real, y: real, b: real)
    requires b > 0.0
    ensures x < y <==> x * b < y * b
    ensures x == y <==> x * b == y * b
  {
  }

  lemma MismatchShare(n: nat, d: nat)
    requires d > 0
    ensures n as real / d as real * d as real == n as real
    ensures n as real / d as real >= 1.0 <==> n >= d
  {
    Quotient(n, d);
    Scaled(n as real / d as real, 1.0, d as real);
  }

  lemma MismatchIsGap(t: Txn)
    ensures DrainMagnitude(t) * Base(t) as real == Gap(t) as real
  {
    MismatchShare(Discrepancy(t), Base(t));
  }

  lemma Ratios(y: real, b: real, g: real, x: real, d: real, n: real)
    requires b > 0.0 && d > 0.0 && y * b == g && x * d == n
    ensures y < x <==> g * d < n * b
    ensures y == x <==> g * d == n * b
  {
    Scaled(y, x, b);
    Scaled(y * b, x * b, d);
    assert x * b * d == x * d * b;
  }

  lemma RealProduct(a: int, b: int)
    ensures (a * b) as real == a as real * b as real
  {
  }

  lemma WholeRatios(y: real, b: nat, g: nat, x: real, d: nat, n: int)
    requires b > 0 && d > 0 && y * b as real == g as real && x * d as real == n as real
    ensures y < x <==> g * d < n * b
    ensures y == x <==> g * d == n * b
  {
    Ratios(y, b as real, g as real, x, d as real, n as real);
    RealProduct(g, d);
    RealProduct(n, b);
  }

  lemma DrainWorth(t: Txn)
    ensures DrainPoints(t) * Base(t) as real == 25.0 * Gap(t) as real
    ensures Reported(BalanceDrain, t) <==> 20 * Gap(t) >= Base(t)
  {
    MismatchIsGap(t);
    var m, b := DrainMagnitude(t), Base(t) as real;
    WholeRatios(m, Base(t), Gap(t), 0.05, 20, 1);
    assert DrainPoints(t) == 25.0 * m;
    assert DrainPoints(t) * b == 25.0 * (m * b);
  }

  /** Comparing the drain with n / d points is comparing whole numbers. */
  lemma DrainAgainst(t: Txn, x: real, n: int, d: nat)
    requires d > 0 && x * d as real == n as real
    ensures DrainPoints(t) < x <==> 25 * Gap(t) * d < n * Base(t)
    ensures DrainPoints(t) == x <==> 25 * Gap(t) * d == n * Base(t)
  {
    DrainWorth(t);
    WholeRatios(DrainPoints(t), Base(t), 25 * Gap(t), x, d, n);
  }

  lemma DrainShows(t: Txn, k: nat)
    ensures Hundredths(DrainPoints(t)) <= k <==> DrainShowsAtMost(t, k)
    ensures Hundredths(DrainPoints(t)) >= k <==> DrainShowsAtLeast(t, k)
  {
    HundredthsAtMost(DrainPoints(t), k);
    HundredthsAtLeast(DrainPoints(t), k);
    DrainAgainst(t, (2 * k + 1) as real / 200.0, 2 * k + 1, 200);
    DrainAgainst(t, (2 * k - 1) as real / 200.0, 2 * k - 1, 200);
  }

  lemma DrainAgainstAmount(t: Txn)
    ensures AmountPoints(t) < DrainPoints(t) <==> 7 * Cents(t) * Base(t) < 100_000_000 * Gap(t)
    ensures DrainPoints(t) < AmountPoints(t) <==> 7 * Cents(t) * Base(t) > 100_000_000 * Gap(t)
  {
    AmountWorth(t);
    DrainAgainst(t, AmountPoints(t), 7 * Cents(t), 4_000_000);
  }

  lemma DrainTiesMeans(t: Txn)
    ensures DrainTiesAmount(t) <==>
              AmountPoints(t) < DrainPoints(t) && Hundredths(DrainPoints(t)) <= Hundredths(AmountPoints(t))
  {
    DrainAgainstAmount(t);
    AmountShowsThat(t);
    DrainShows(t, AmountShows(Cents(t)));
  }

  // ---- a whole rival ----------------------------------------------------------------------------------------------

  lemma AmountAgainstWhole(t: Txn, w: nat)
    ensures AmountPoints(t) < w as real <==> 7 * Cents(t) < 4_000_000 * w
    ensures Hundredths(AmountPoints(t)) >= 100 * w <==> 7 * Cents(t) >= 4_000_000 * w - 20_000
  {
    AmountWorth(t);
    HundredthsAtLeast(AmountPoints(t), 100 * w);
  }

  /** `TiesAtWhole` over points. */
  ghost predicate TiesAt(t: Txn, w: real) {
    var a, d, k := Hundredths(AmountPoints(t)), Hundredths(DrainPoints(t)), Hundredths(w);
    || (Reported(AmountAnomaly, t) && a >= k && AmountPoints(t) < w && d <= k)
    || (Reported(AmountAnomaly, t) && a >= k && AmountPoints(t) < DrainPoints(t) && d <= a)
    || (Reported(BalanceDrain, t) && a < k && d >= k && DrainPoints(t) < w)
  }

  lemma HundredthsOfWhole(w: int)
    ensures Hundredths(w as real) == 100 * w
  {
  }

  lemma TiesAtWholeMeans(t: Txn, w: nat)
    ensures TiesAtWhole(t, w) <==> TiesAt(t, w as real)
  {
    AmountWorth(t);
    DrainWorth(t);
    HundredthsOfWhole(w);
    AmountAgainstWhole(t, w);
    DrainAgainst(t, w as real, w, 1);
    DrainShows(t, 100 * w);
    DrainTiesMeans(t);
  }

  // ---- an empty destination -----------------------------------------------------------------------------------------

  lemma EmptyWorth(t: Txn)
    requires EmptyDestination(t)
    ensures 2_500_000.0 * Rival(t) == (30_000_000 + Cents(t)) as real
    ensures Hundredths(Rival(t)) == EmptyShows(Cents(t))
  {
    HundredthsAtMost(Rival(t), EmptyShows(Cents(t)));
    HundredthsAtLeast(Rival(t), EmptyShows(Cents(t)));
  }

  lemma AmountShowsIs(cents: nat, k: nat)
    requires 40_000 * (2 * k - 1) < 14 * cents < 40_000 * (2 * k + 1)
    ensures AmountShows(cents) == k
  {
  }

  lemma EmptyShowsIs(cents: nat, k: nat)
    requires 25_000 * (2 * k - 1) <= 60_000_000 + 2 * cents < 25_000 * (2 * k + 1)
    requires 25_000 * (2 * k - 1) == 60_000_000 + 2 * cents ==> k % 2 == 0
    ensures EmptyShows(cents) == k
  {
  }

  /** What is shown is within half a hundredth of what it is worth. */
  lemma ShowsWithin(cents: nat)
    ensures 14 * cents - 40_000 <= 80_000 * AmountShows(cents) <= 14 * cents + 40_000
    ensures 59_975_000 + 2 * cents <= 50_000 * EmptyShows(cents) <= 60_025_000 + 2 * cents
  {
  }

  /** Close to where the two are worth the same, 15.55 points, the shown hundredths go
      up at different cents. */
  lemma ShownNearby(cents: nat)
    ensures 8_877_143 <= cents <= 8_882_857 ==> AmountShows(cents) == 1554
    ensures 8_882_858 <= cents <= 8_888_571 ==> AmountShows(cents) == 1555
    ensures 8_888_572 <= cents <= 8_894_285 ==> AmountShows(cents) == 1556
    ensures 8_894_286 <= cents <= 8_899_999 ==> AmountShows(cents) == 1557
    ensures 8_862_501 <= cents <= 8_887_499 ==> EmptyShows(cents) == 1555
    ensures 8_887_500 <= cents < 8_912_500 ==> EmptyShows(cents) == 1556
  {
    if 8_877_143 <= cents <= 8_882_857 {
      AmountShowsIs(cents, 1554);
    } else if 8_882_858 <= cents <= 8_888_571 {
      AmountShowsIs(cents, 1555);
    } else if 8_888_572 <= cents <= 8_894_285 {
      AmountShowsIs(cents, 1556);
    } else if 8_894_286 <= cents <= 8_899_999 {
      AmountShowsIs(cents, 1557);
    }
    if 8_862_501 <= cents <= 8_887_499 {
      EmptyShowsIs(cents, 1555);
    } else if 8_887_500 <= cents < 8_912_500 {
      EmptyShowsIs(cents, 1556);
    }
  }

  lemma EmptyThresholds(cents: nat)
    ensures EmptyShowsMore(cents) <==> AmountShows(cents) < EmptyShows(cents)
    ensures EmptyTiesAmount(cents) <==> AmountShows(cents) == EmptyShows(cents) && 27 * cents < 240_000_000
  {
    ShowsWithin(cents);
    ShownNearby(cents);
  }

  lemma EmptyTiesDrainMeans(t: Txn)
    requires EmptyDestination(t)
    ensures EmptyTiesDrain(t) <==> DrainPoints(t) < Rival(t) && Hundredths(DrainPoints(t)) >= Hundredths(Rival(t))
  {
    EmptyWorth(t);
    DrainAgainst(t, Rival(t), 30_000_000 + Cents(t), 2_500_000);
    DrainShows(t, EmptyShows(Cents(t)));
  }

  lemma EmptyAgainstAmount(t: Txn)
    requires EmptyDestination(t)
    ensures EmptyShowsMore(Cents(t)) <==> Hundredths(AmountPoints(t)) < Hundredths(Rival(t))
    ensures EmptyTiesAmount(Cents(t)) <==>
              Hundredths(AmountPoints(t)) == Hundredths(Rival(t)) && AmountPoints(t) < Rival(t)
  {
    EmptyWorth(t);
    AmountWorth(t);
    AmountShowsThat(t);
    EmptyThresholds(Cents(t));
  }

  lemma TiesAtEmptyMeans(t: Txn)
    requires EmptyDestination(t)
    ensures TiesAtEmpty(t) <==> TiesAt(t, Rival(t))
  {
    EmptyAgainstAmount(t);
    EmptyTiesDrainMeans(t);
    DrainTiesMeans(t);
    AmountShowsThat(t);
    DrainShows(t, AmountShows(Cents(t)));
    ListedWhenWorth(t);
    HundredthsMonotone(AmountPoints(t), Rival(t));
    HundredthsMonotone(Rival(t), AmountPoints(t));
    DestinationPoints(t);
  }

  // ---- the claim ---------------------------------------------------------------------------------------------------

  /** Amount and drain are listed from 1.75 and 1.25 points on. */
  lemma ListedWhenWorth(t: Txn)
    ensures Reported(AmountAnomaly, t) <==> AmountPoints(t) >= 1.75
    ensures Reported(BalanceDrain, t) <==> DrainPoints(t) >= 1.25
    ensures Hundredths(AmountPoints(t)) >= 176 ==> Reported(AmountAnomaly, t)
    ensures Hundredths(DrainPoints(t)) >= 126 ==> Reported(BalanceDrain, t)
    ensures Reported(AmountAnomaly, t) ==> Hundredths(AmountPoints(t)) >= 175
    ensures Reported(BalanceDrain, t) ==> Hundredths(DrainPoints(t)) >= 125
  {
    HundredthsAtLeast(AmountPoints(t), 176);
    HundredthsAtLeast(AmountPoints(t), 175);
    HundredthsAtLeast(DrainPoints(t), 126);
    HundredthsAtLeast(DrainPoints(t), 125);
  }

  lemma Orders(t: Txn)
    ensures var a, d, r := AmountPoints(t), DrainPoints(t), Rival(t);
            && (a <= d ==> Hundredths(a) <= Hundredths(d)) && (d <= a ==> Hundredths(d) <= Hundredths(a))
            && (a <= r ==> Hundredths(a) <= Hundredths(r)) && (r <= a ==> Hundredths(r) <= Hundredths(a))
            && (d <= r ==> Hundredths(d) <= Hundredths(r)) && (r <= d ==> Hundredths(r) <= Hundredths(d))
  {
    HundredthsMonotone(AmountPoints(t), DrainPoints(t));
    HundredthsMonotone(DrainPoints(t), AmountPoints(t));
    HundredthsMonotone(AmountPoints(t), Rival(t));
    HundredthsMonotone(Rival(t), AmountPoints(t));
    HundredthsMonotone(DrainPoints(t), Rival(t));
    HundredthsMonotone(Rival(t), DrainPoints(t));
  }

  lemma FirstByHundredths(t: Txn)
    ensures var a, d, k := Hundredths(AmountPoints(t)), Hundredths(DrainPoints(t)), Hundredths(Rival(t));
            && (AmountFirst(t) <==> Reported(AmountAnomaly, t) && a >= k && (Reported(BalanceDrain, t) ==> a >= d))
            && (DrainFirst(t) <==> Reported(BalanceDrain, t) && d >= k && (Reported(AmountAnomaly, t) ==> a < d))
  {
    ShowsMore(AmountPoints(t), Rival(t));
    ShowsMore(DrainPoints(t), Rival(t));
    ShowsMore(AmountPoints(t), DrainPoints(t));
  }

  /** Something else that is worth 2 points or more is always listed: only ties fail. */
  lemma BeatenByTies(t: Txn)
    requires Rival(t) >= 2.0
    ensures Beaten(t) <==> TiesAt(t, Rival(t))
  {
    ListedWhenWorth(t);
    Orders(t);
    FirstByHundredths(t);
    HundredthsAtLeast(Rival(t), 200);
  }

  ghost predicate Outweighed(t: Txn) {
    && !Reported(AmountAnomaly, t)
    && if Reported(BalanceDrain, t) then AmountPoints(t) > DrainPoints(t)
       else AmountPoints(t) > 1.0 || DrainPoints(t) > 1.0
  }

  lemma BeatenWhenWeak(t: Txn)
    requires Rival(t) == 1.0
    ensures Beaten(t) <==> TiesAt(t, 1.0) || Outweighed(t)
  {
    ListedWhenWorth(t);
    Orders(t);
    FirstByHundredths(t);
    HundredthsOfWhole(1);
  }

  lemma SmallDepositMeans(t: Txn)
    ensures SmallDeposit(t) <==> !EmptyDestination(t) && WholeRival(t) == 1 && Outweighed(t)
  {
    AmountWorth(t);
    DrainWorth(t);
    DrainAgainstAmount(t);
    DrainAgainst(t, 1.0, 1, 1);
  }

  /** The claim holds for every transaction outside the misleading families, and for
      none inside them. */
  lemma FirstIsBiggestExactly(t: Txn)
    ensures Explanation(t) != []
    ensures FirstIsBiggest(t) <==> !Misleading(t)
  {
    BiggestIsUnbeaten(t);
    SmallDepositMeans(t);
    DestinationPoints(t);
    if EmptyDestination(t) {
      TiesAtEmptyMeans(t);
      BeatenByTies(t);
    } else {
      TiesAtWholeMeans(t, WholeRival(t));
      if WholeRival(t) == 1 {
        BeatenWhenWeak(t);
      } else {
        BeatenByTies(t);
      }
    }
  }

  /** A deposit of $9,001.23 is explained by its type, worth 1 point, while the
      amount added 1.58 and is not mentioned. */
  lemma AMisleadingDeposit()
    ensures exists t: Txn :: SmallDeposit(t) && Explanation(t) != [] && !FirstIsBiggest(t)
  {
    var t := Txn(CashIn, 900_123, 0, 900_123, 1, 900_124);
    assert Discrepancy(t) == 0;
    FirstIsBiggestExactly(t);
  }

  /** A deposit of $100,000.01 whose books are off by $70,012.00: amount and drain both
      show 17.50, the amount comes first and the drain was worth more. */
  lemma AMisleadingTie()
    ensures exists t: Txn :: !SmallDeposit(t) && Misleading(t) && Explanation(t) != [] && !FirstIsBiggest(t)
  {
    var t := Txn(CashIn, 10_000_001, 0, 17_001_201, 1, 1);
    assert Discrepancy(t) == 7_001_200 && BiasPoints(t.amount) == 0 && AmountShows(10_000_001) == 1750;
    FirstIsBiggestExactly(t);
  }
}
