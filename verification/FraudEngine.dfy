/** ml_service/app/models/fraud_engine.py: five weighted factors, a rounded score, a
    risk level and a ranked explanation. Money is in whole cents, all other
    arithmetic in exact rationals. */
module FraudEngine {
  import opened Collections

  // ---- inputs ----------------------------------------------------------------------

  datatype TxnType = Transfer | CashOut | Debit | Payment | CashIn

  datatype Txn = Txn(kind: TxnType, amount: nat, origBefore: nat, origAfter: nat, destBefore: nat, destAfter: nat)

  datatype Factor = AmountAnomaly | BalanceDrain | DestinationAnomaly | TxnTypeRisk | RoundAmountBias

  const FACTORS: seq<Factor> := [AmountAnomaly, BalanceDrain, DestinationAnomaly, TxnTypeRisk, RoundAmountBias]

  const HIGH_AMOUNT_CENTS := 20_000_000
  const TOLERANCE_CENTS := 100
  const MIN_REPORTED_MAGNITUDE := 0.05

  function Weight(f: Factor): real {
    match f
    case AmountAnomaly => 0.35
    case BalanceDrain => 0.25
    case DestinationAnomaly => 0.20
    case TxnTypeRisk => 0.10
    case RoundAmountBias => 0.10
  }

  // ---- rounding ----------------------------------------------------------------------

  /** Python's `round`: to the nearest integer, a tie to the even one. */
  function RoundHalfEven(x: real): (r: int)
    ensures r as real - 0.5 <= x <= r as real + 0.5
    ensures x == r as real - 0.5 || x == r as real + 0.5 ==> r % 2 == 0
  {
    var low := x.Floor;
    var rest := x - low as real;
    if rest < 0.5 || (rest == 0.5 && low % 2 == 0) then low else low + 1
  }

  function RoundTo(x: real, scale: nat): real
    requires scale > 0
  {
    RoundHalfEven(x * scale as real) as real / scale as real
  }

  lemma RoundingIsMonotone(x: real, y: real)
    requires x <= y
    ensures RoundHalfEven(x) <= RoundHalfEven(y)
  {
    var a, b := RoundHalfEven(x), RoundHalfEven(y);
    assert a as real - 0.5 <= x && y <= b as real + 0.5;
    assert a <= b + 1;
  }

  // ---- the five factors -----------------------------------------------------------------

  function Min(x: real, y: real): real { if x <= y then x else y }

  function UnitClamp(x: real): real { if Min(x, 1.0) >= 0.0 then Min(x, 1.0) else 0.0 }

  function Max(x: int, y: int): int { if x >= y then x else y }

  function Abs(x: int): nat { if x < 0 then -x else x }

  function AmountShare(t: Txn): real {
    Min(t.amount as real / HIGH_AMOUNT_CENTS as real, 1.0)
  }

  function Discrepancy(t: Txn): nat {
    var expected := if t.kind.CashIn? then t.origBefore + t.amount else t.origBefore - t.amount;
    Abs(expected - t.origAfter)
  }

  function Mismatch(t: Txn): real {
    if Discrepancy(t) <= TOLERANCE_CENTS then 0.0
    else Min(Discrepancy(t) as real / Max(t.amount, 100) as real, 1.0)
  }

  predicate FullyDrained(t: Txn) {
    t.origBefore > 0 && t.origAfter == 0
  }

  function DrainMagnitude(t: Txn): real {
    if FullyDrained(t) then 1.0 else Mismatch(t)
  }

  function DestinationMagnitude(t: Txn): real {
    if t.destBefore > 0 then 0.0
    else if t.amount > 0 && t.destAfter == 0 then 1.0
    else 0.6 + 0.4 * AmountShare(t)
  }

  function TypeRisk(kind: TxnType): real {
    match kind
    case Transfer => 1.00
    case CashOut => 0.90
    case Debit => 0.30
    case Payment => 0.20
    case CashIn => 0.10
  }

  function RoundBias(amount: nat): real {
    if amount == 0 then 0.0
    else if amount % 1_000_000 == 0 then 1.0
    else if amount % 500_000 == 0 then 0.8
    else if amount % 100_000 == 0 then 0.6
    else if amount % 10_000 == 0 then 0.3
    else 0.0
  }

  function Magnitude(f: Factor, t: Txn): real {
    match f
    case AmountAnomaly => AmountShare(t)
    case BalanceDrain => DrainMagnitude(t)
    case DestinationAnomaly => DestinationMagnitude(t)
    case TxnTypeRisk => TypeRisk(t.kind)
    case RoundAmountBias => RoundBias(t.amount)
  }

  /** Whether the factor has anything to say in the summary sentence. */
  predicate HasClause(f: Factor, t: Txn) {
    match f
    case AmountAnomaly => true
    case BalanceDrain => FullyDrained(t) || Mismatch(t) > 0.0
    case DestinationAnomaly => t.destBefore == 0
    case TxnTypeRisk => TypeRisk(t.kind) >= 0.5
    case RoundAmountBias => RoundBias(t.amount) > 0.0
  }

  lemma ShareRange(a: real, b: real)
    requires a >= 0.0 && b > 0.0
    ensures 0.0 <= Min(a / b, 1.0) <= 1.0
    ensures a > 0.0 ==> Min(a / b, 1.0) > 0.0
  {
  }

  /** The clamp in the scoring loop never bites. */
  lemma MagnitudeRange(f: Factor, t: Txn)
    ensures 0.0 <= Magnitude(f, t) <= 1.0
  {
    ShareRange(t.amount as real, HIGH_AMOUNT_CENTS as real);
    ShareRange(Discrepancy(t) as real, Max(t.amount, 100) as real);
  }

  /** Books off by no more than a dollar are no evidence, unless the sender was emptied. */
  lemma BooksBalanceExactly(t: Txn)
    ensures DrainMagnitude(t) == 0.0 <==>
              && !(t.origBefore > 0 && t.origAfter == 0)
              && var expected := if t.kind == CashIn then t.origBefore + t.amount else t.origBefore - t.amount;
                 -100 <= expected - t.origAfter <= 100
  {
    if Discrepancy(t) > TOLERANCE_CENTS {
      ShareRange(Discrepancy(t) as real, Max(t.amount, 100) as real);
    }
  }

  /** The round-number search, largest unit first. */
  method ScoreRoundAmountBias(amount: nat) returns (magnitude: real)
    ensures magnitude == RoundBias(amount)
  {
    if amount <= 0 {
      return 0.0;
    }
    var units := [(10_000, 1.0), (5_000, 0.8), (1_000, 0.6), (100, 0.3)];
    var i := 0;
    while i < |units|
      invariant 0 <= i <= |units|
      invariant forall k :: 0 <= k < i ==> amount % (units[k].0 * 100) != 0
    {
      if amount % (units[i].0 * 100) == 0 {
        assert i > 0 ==> amount % (units[0].0 * 100) != 0;
        assert i > 1 ==> amount % (units[1].0 * 100) != 0;
        assert i > 2 ==> amount % (units[2].0 * 100) != 0;
        return units[i].1;
      }
      i := i + 1;
    }
    assert amount % (units[0].0 * 100) != 0 && amount % (units[1].0 * 100) != 0;
    assert amount % (units[2].0 * 100) != 0 && amount % (units[3].0 * 100) != 0;
    return 0.0;
  }

  // ---- score, level, explanation --------------------------------------------------------------

  datatype RiskLevel = Clear | Suspicious | Critical

  function LevelOf(score: int): RiskLevel {
    if score <= 40 then Clear else if score <= 75 then Suspicious else Critical
  }

  /** `_risk_level`: the first threshold not exceeded. */
  method RiskLevelFor(score: int) returns (level: RiskLevel)
    ensures level == LevelOf(score)
    ensures level == Clear <==> score <= 40
    ensures level == Suspicious <==> 41 <= score <= 75
    ensures level == Critical <==> score >= 76
  {
    var thresholds := [(40, Clear), (75, Suspicious), (100, Critical)];
    var i := 0;
    while i < |thresholds|
      invariant 0 <= i <= |thresholds|
      invariant forall k :: 0 <= k < i ==> score > thresholds[k].0
    {
      if score <= thresholds[i].0 {
        assert i > 0 ==> score > thresholds[0].0;
        assert i > 1 ==> score > thresholds[1].0;
        return thresholds[i].1;
      }
      i := i + 1;
    }
    assert score > thresholds[2].0;
    return Critical;
  }

  /** One entry of `feature_contributions`; its description is a string per factor. */
  datatype Contribution = Contribution(factor: Factor, magnitude: real, weight: real, points: real)

  function Weighted(f: Factor, t: Txn): real {
    Weight(f) * Magnitude(f, t)
  }

  function Points(f: Factor, t: Txn): real {
    100.0 * Weighted(f, t)
  }

  function EntryFor(f: Factor, magnitude: real, contribution: real): Contribution {
    Contribution(f, RoundTo(magnitude, 10_000), Weight(f), RoundTo(100.0 * contribution, 100))
  }

  function Entry(f: Factor, t: Txn): Contribution {
    EntryFor(f, Magnitude(f, t), Weighted(f, t))
  }

  predicate Reported(f: Factor, t: Txn) {
    Magnitude(f, t) >= MIN_REPORTED_MAGNITUDE
  }

  function Rank(f: Factor): nat {
    match f
    case AmountAnomaly => 0
    case BalanceDrain => 1
    case DestinationAnomaly => 2
    case TxnTypeRisk => 3
    case RoundAmountBias => 4
  }

  /** Before in a stable sort by points, most first. */
  predicate Precedes(a: Contribution, b: Contribution) {
    a.points > b.points || (a.points == b.points && Rank(a.factor) < Rank(b.factor))
  }

  ghost predicate Ranked(cs: seq<Contribution>) {
    forall i, j :: 0 <= i < j < |cs| ==> Precedes(cs[i], cs[j])
  }

  /** `list.sort(key=points, reverse=True)`, which keeps the order of equals. */
  function SortDescending(cs: seq<Contribution>): seq<Contribution> {
    if cs == [] then [] else InsertLast(SortDescending(cs[..|cs| - 1]), cs[|cs| - 1])
  }

  function InsertLast(sorted: seq<Contribution>, c: Contribution): seq<Contribution> {
    if sorted == [] || sorted[|sorted| - 1].points >= c.points then sorted + [c]
    else InsertLast(sorted[..|sorted| - 1], c) + [sorted[|sorted| - 1]]
  }

  datatype Summary = NothingOfNote | Cites(factors: seq<Factor>, closing: RiskLevel)

  /** The clauses quoted: those of the top entries that have one. */
  function Quoted(cs: seq<Contribution>, clauses: set<Factor>): seq<Factor> {
    if cs == [] then []
    else (if cs[0].factor in clauses then [cs[0].factor] else []) + Quoted(cs[1..], clauses)
  }

  function BuildSummary(cs: seq<Contribution>, clauses: set<Factor>, score: int): Summary {
    if cs == [] then NothingOfNote
    else
      var top := Quoted(if |cs| <= 3 then cs else cs[..3], clauses);
      if top == [] then NothingOfNote else Cites(top, LevelOf(score))
  }

  datatype Prediction = Prediction(score: int, level: RiskLevel, summary: Summary, contributions: seq<Contribution>)

  // ---- what score_transaction promises ------------------------------------------------------------

  function Total(n: nat, t: Txn): real
    requires n <= |FACTORS|
  {
    if n == 0 then 0.0 else Total(n - 1, t) + Weighted(FACTORS[n - 1], t)
  }

  function ReportedEntries(n: nat, t: Txn): seq<Contribution>
    requires n <= |FACTORS|
  {
    if n == 0 then []
    else ReportedEntries(n - 1, t) + if Reported(FACTORS[n - 1], t) then [Entry(FACTORS[n - 1], t)] else []
  }

  function ClausesOf(n: nat, t: Txn): set<Factor>
    requires n <= |FACTORS|
  {
    if n == 0 then {}
    else ClausesOf(n - 1, t) + if HasClause(FACTORS[n - 1], t) then {FACTORS[n - 1]} else {}
  }

  function Clamped(score: int): int {
    Max(0, if score <= 100 then score else 100)
  }

  function Score(t: Txn): int {
    Clamped(RoundHalfEven(100.0 * Total(|FACTORS|, t)))
  }

  function Explanation(t: Txn): seq<Contribution> {
    SortDescending(ReportedEntries(|FACTORS|, t))
  }

  lemma ClampIsIdle(f: Factor, t: Txn)
    ensures UnitClamp(Magnitude(f, t)) == Magnitude(f, t)
  {
    MagnitudeRange(f, t);
  }

  /** The entry of a factor, if it is worth one. */
  function EntryIfNoted(f: Factor, magnitude: real): Option<Contribution> {
    if magnitude >= MIN_REPORTED_MAGNITUDE then Some(EntryFor(f, magnitude, Weight(f) * magnitude)) else None
  }

  /** One scorer's result, clamped and weighted, and its entry. */
  method Weigh(factor: Factor, t: Txn) returns (contribution: real, entry: Option<Contribution>)
    ensures contribution == Weighted(factor, t)
    ensures entry == EntryIfNoted(factor, Magnitude(factor, t))
  {
    var magnitude := UnitClamp(Magnitude(factor, t));
    ClampIsIdle(factor, t);
    contribution := Weight(factor) * magnitude;
    entry := EntryIfNoted(factor, magnitude);
  }

  function IfNoted(entry: Option<Contribution>): seq<Contribution> {
    if entry.Some? then [entry.value] else []
  }

  /** What is gathered from the first `n` factors. */
  ghost predicate Gathered(n: nat, t: Txn, total: real, contributions: seq<Contribution>, clauses: set<Factor>)
    requires n <= |FACTORS|
  {
    total == Total(n, t) && contributions == ReportedEntries(n, t) && clauses == ClausesOf(n, t)
  }

  lemma GatherOne(n: nat, t: Txn, f: Factor, total: real, contributions: seq<Contribution>, clauses: set<Factor>)
    requires n < |FACTORS| && f == FACTORS[n] && Gathered(n, t, total, contributions, clauses)
    ensures Gathered(n + 1, t, total + Weighted(f, t),
                     contributions + IfNoted(EntryIfNoted(f, Magnitude(f, t))),
                     clauses + if HasClause(f, t) then {f} else {})
  {
  }

  /** The pass: total, reported entries and clauses. */
  method Gather(t: Txn) returns (total: real, contributions: seq<Contribution>, clauses: set<Factor>)
    ensures Gathered(|FACTORS|, t, total, contributions, clauses)
  {
    total, contributions, clauses := 0.0, [], {};
    var i := 0;
    while i < |FACTORS|
      invariant 0 <= i <= |FACTORS|
      invariant Gathered(i, t, total, contributions, clauses)
    {
      var factor := FACTORS[i];
      GatherOne(i, t, factor, total, contributions, clauses);
      var contribution, entry := Weigh(factor, t);
      total := total + contribution;
      clauses := clauses + if HasClause(factor, t) then {factor} else {};
      contributions := contributions + IfNoted(entry);
      i := i + 1;
    }
  }

  /** `score_transaction`: one pass over the factors, then sort, round and describe. */
  method ScoreTransaction(t: Txn) returns (p: Prediction)
    ensures p.score == Score(t) && p.level == LevelOf(Score(t)) && p.contributions == Explanation(t)
    ensures p.summary == BuildSummary(Explanation(t), ClausesOf(|FACTORS|, t), Score(t))
    ensures p.level == Clear <==> p.score <= 40
    ensures p.level == Suspicious <==> 41 <= p.score <= 75
    ensures p.level == Critical <==> p.score >= 76
    ensures p.summary.Cites? ==> p.summary.closing == p.level
  {
    var total, contributions, clauses := Gather(t);
    contributions := SortDescending(contributions);
    var score := Clamped(RoundHalfEven(100.0 * total));
    var level := RiskLevelFor(score);
    p := Prediction(score, level, BuildSummary(contributions, clauses, score), contributions);
  }

  // ---- verdict bounds --------------------------------------------------------------------------------

  lemma TotalStep(n: nat, f: Factor, t: Txn)
    requires 0 < n <= |FACTORS| && FACTORS[n - 1] == f
    ensures Total(n, t) == Total(n - 1, t) + Weighted(f, t)
  {
  }

  lemma TotalIsTheSum(t: Txn)
    ensures 100.0 * Total(|FACTORS|, t) == Sum(t)
  {
    TotalStep(5, RoundAmountBias, t);
    TotalStep(4, TxnTypeRisk, t);
    TotalStep(3, DestinationAnomaly, t);
    TotalStep(2, BalanceDrain, t);
    TotalStep(1, AmountAnomaly, t);
  }

  lemma PointsRange(t: Txn)
    ensures 0.0 <= Points(AmountAnomaly, t) <= 35.0
    ensures 0.0 <= Points(BalanceDrain, t) <= 25.0
    ensures 0.0 <= Points(DestinationAnomaly, t) <= 20.0
    ensures 1.0 <= Points(TxnTypeRisk, t) <= 10.0
    ensures 0.0 <= Points(RoundAmountBias, t) <= 10.0
  {
    MagnitudeRange(AmountAnomaly, t);
    MagnitudeRange(BalanceDrain, t);
    MagnitudeRange(DestinationAnomaly, t);
  }

  function Sum(t: Txn): real {
    Points(AmountAnomaly, t) + Points(BalanceDrain, t) + Points(DestinationAnomaly, t)
    + Points(TxnTypeRisk, t) + Points(RoundAmountBias, t)
  }

  /** The clamp of the score never bites either: it is the rounded sum, at least 1. */
  lemma ScoreRange(t: Txn)
    ensures 1 <= Score(t) <= 100 && Score(t) == RoundHalfEven(Sum(t))
  {
    TotalIsTheSum(t);
    PointsRange(t);
    RoundingIsMonotone(1.0, Sum(t));
    RoundingIsMonotone(Sum(t), 100.0);
  }

  /** CRITICAL cannot be reached on a modest amount, nor with books that balance. */
  lemma CriticalNeeds(t: Txn)
    requires LevelOf(Score(t)) == Critical
    ensures t.amount >= 6_000_000 && DrainMagnitude(t) >= 0.02
  {
    ScoreRange(t);
    PointsRange(t);
    assert Points(AmountAnomaly, t) >= 10.5 && Points(BalanceDrain, t) >= 0.5;
    AmountFromPoints(t);
  }

  lemma AmountFromPoints(t: Txn)
    requires Points(AmountAnomaly, t) >= 10.5
    ensures t.amount >= 6_000_000
  {
    assert AmountShare(t) >= 0.3;
    assert t.amount as real >= 6_000_000.0;
  }

  lemma SweptPoints(swept: Txn)
    requires swept == Txn(Transfer, 6_000_000, 6_000_000, 0, 0, 0)
    ensures Points(AmountAnomaly, swept) == 10.5 && Points(BalanceDrain, swept) == 25.0
    ensures Points(DestinationAnomaly, swept) == 20.0
    ensures Points(TxnTypeRisk, swept) == 10.0 && Points(RoundAmountBias, swept) == 10.0
  {
  }

  lemma SweptIsCritical(swept: Txn)
    requires swept == Txn(Transfer, 6_000_000, 6_000_000, 0, 0, 0)
    ensures LevelOf(Score(swept)) == Critical
  {
    SweptPoints(swept);
    CriticalAt76(swept);
  }

  lemma OffBooksPoints(off: Txn)
    requires off == Txn(Transfer, 20_000_000, 20_400_000, 800_000, 0, 0)
    ensures DrainMagnitude(off) == 0.02
    ensures Points(AmountAnomaly, off) == 35.0 && Points(BalanceDrain, off) == 0.5
    ensures Points(DestinationAnomaly, off) == 20.0
    ensures Points(TxnTypeRisk, off) == 10.0 && Points(RoundAmountBias, off) == 10.0
  {
    assert Discrepancy(off) == 400_000;
  }

  lemma OffBooksAreCritical(off: Txn)
    requires off == Txn(Transfer, 20_000_000, 20_400_000, 800_000, 0, 0)
    ensures LevelOf(Score(off)) == Critical && DrainMagnitude(off) == 0.02
  {
    OffBooksPoints(off);
    CriticalAt76(off);
  }

  lemma CriticalAt76(t: Txn)
    requires Sum(t) == 75.5
    ensures LevelOf(Score(t)) == Critical
  {
    ScoreRange(t);
  }

  /** Both bounds are met by a CRITICAL transaction. */
  lemma CriticalBoundsAreReached()
    ensures exists t: Txn :: LevelOf(Score(t)) == Critical && t.amount == 6_000_000
    ensures exists t: Txn :: LevelOf(Score(t)) == Critical && DrainMagnitude(t) == 0.02
  {
    var swept := Txn(Transfer, 6_000_000, 6_000_000, 0, 0, 0);
    SweptIsCritical(swept);
    var off := Txn(Transfer, 20_000_000, 20_400_000, 800_000, 0, 0);
    OffBooksAreCritical(off);
  }

  /** Money that empties its sender and passes straight through is never CLEAR. */
  lemma PassThroughIsNeverClear(t: Txn)
    requires t.amount > 0 && FullyDrained(t) && t.destBefore == 0 && t.destAfter == 0
    ensures Score(t) >= 46 && LevelOf(Score(t)) != Clear
  {
    ScoreRange(t);
    PointsRange(t);
    RoundingIsMonotone(46.0, Sum(t));
  }
}
