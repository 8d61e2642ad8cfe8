/** The distribution model: a fitted degree-20 polynomial density over the
    score range [0, 100], its numerical integral by the composite trapezoid
    rule, the percentile of a score under it, and the letter rank. */
module Distribution {
  import opened JsMath

  /** The number of trapezoid sub-intervals used for every integral. */
  const Steps: nat := 1000

  /** The 21 fitted coefficients of the score density, lowest degree first. */
  const DistributionCoefficients: seq<real> := [
    0.030211826004335650547316660663454968016594648361206,
    0.013518574829454534230504123397841757408384044403194,
    -0.0093674692849267450679070398401925165012707211507788,
    0.0021659680488067420369504746920794127700710767347410,
    -0.00027898940306635343236880066067764022572265980454622,
    0.000023053889416584420159133707763337580849212295225800,
    -0.0000012965650651843637690227325338250341317695790824096,
    0.000000050601287255789775418234906926694095432675192993297,
    -0.0000000013436511856543748062634214106789898378414857454583,
    0.000000000021754773033924342677430788722117185179858679870413,
    -0.000000000000095537118135007520031556745915800938398789485350631,
    -0.0000000000000048830170654929876010800931090395724702494825537098,
    0.00000000000000013771659799247569255047169013659563043094492324512,
    -0.0000000000000000017090617264269014104296368963230063678999264733767,
    0.0000000000000000000067480936402211126262053013723543231821994389999740,
    0.00000000000000000000012351753738877223217020259884651930061251013644236,
    -0.0000000000000000000000024629444823606767373960585228699896712818695300858,
    0.000000000000000000000000021872957757460025840209525820152268933218404347937,
    -0.00000000000000000000000000011258800720698931828716203974387697686569662945859,
    0.00000000000000000000000000000032569863909040321972443819985850002388622535999350,
    -0.00000000000000000000000000000000041285411726670488194438240742597322709194044789584
  ]

  // ---------------------------------------------------------------------
  // Polynomial evaluation
  // ---------------------------------------------------------------------

  /** x raised to the n-th power. */
  function Pow(x: real, n: nat): (p: real)
  {
    if n == 0 then 1.0 else Pow(x, n - 1) * x
  }

  /** The sum of the first k terms, coefficients[i] * x^i for i < k. */
  function PartialSum(coefficients: seq<real>, x: real, k: nat): (s: real)
    requires k <= |coefficients|
  {
    if k == 0 then 0.0
    else PartialSum(coefficients, x, k - 1) + coefficients[k - 1] * Pow(x, k - 1)
  }

  /** The polynomial in nested (Horner) form, an independent definition of
      the same value. */
  function Horner(coefficients: seq<real>, x: real): (h: real)
  {
    if coefficients == [] then 0.0
    else coefficients[0] + x * Horner(coefficients[1..], x)
  }

  /** Splitting off the constant term: sum_{i<k} c[i] x^i = c[0] + x * sum_{i<k-1} c[i+1] x^i. */
  lemma {:induction false} PartialSumShift(coefficients: seq<real>, x: real, k: nat)
    requires 0 < k <= |coefficients|
    ensures PartialSum(coefficients, x, k)
         == coefficients[0] + x * PartialSum(coefficients[1..], x, k - 1)
  {
    if k > 1 {
      PartialSumShift(coefficients, x, k - 1);
      var tail := coefficients[1..];
      var rest := PartialSum(tail, x, k - 2);
      var t := tail[k - 2];
      var p := Pow(x, k - 2);
      assert coefficients[k - 1] == t && Pow(x, k - 1) == p * x;
      assert PartialSum(tail, x, k - 1) == rest + t * p;
      calc {
        PartialSum(coefficients, x, k);
        PartialSum(coefficients, x, k - 1) + coefficients[k - 1] * Pow(x, k - 1);
        coefficients[0] + x * rest + t * (p * x);
        { assert t * (p * x) == x * (t * p); }
        coefficients[0] + x * rest + x * (t * p);
        coefficients[0] + x * (rest + t * p);
      }
    }
  }

  /** The power-accumulating sum and Horner's rule compute the same polynomial. */
  lemma {:induction false} SumIsHorner(coefficients: seq<real>, x: real)
    ensures PartialSum(coefficients, x, |coefficients|) == Horner(coefficients, x)
  {
    if coefficients != [] {
      PartialSumShift(coefficients, x, |coefficients|);
      SumIsHorner(coefficients[1..], x);
    }
  }

  /** At x = 0 the polynomial is its constant term. */
  lemma HornerAtZero(coefficients: seq<real>)
    requires |coefficients| > 0
    ensures Horner(coefficients, 0.0) == coefficients[0]
  {
  }

  /** The density at x: the polynomial value floored at zero, since the fit
      can dip slightly below zero. */
  function Density(x: real, coefficients: seq<real>): (d: real)
    ensures d >= 0.0
  {
    MaxZero(PartialSum(coefficients, x, |coefficients|))
  }

  /** The density is the polynomial in Horner form where that is
      non-negative, and zero elsewhere. */
  lemma DensityIsClampedHorner(x: real, coefficients: seq<real>)
    ensures Density(x, coefficients) == MaxZero(Horner(coefficients, x))
    ensures Horner(coefficients, x) >= 0.0 ==> Density(x, coefficients) == Horner(coefficients, x)
  {
    SumIsHorner(coefficients, x);
  }

  /** `evaluatePolynomial`: accumulate coefficient times power of x, one
      term at a time, then floor at zero. */
  method EvaluatePolynomial(x: real, coefficients: seq<real>) returns (value: real)
    ensures value == Density(x, coefficients)
  {
    var result := 0.0;
    var power := 1.0;
    for k := 0 to |coefficients|
      invariant result == PartialSum(coefficients, x, k)
      invariant power == Pow(x, k)
    {
      result := result + coefficients[k] * power;
      power := power * x;
    }
    value := MaxZero(result);
  }

  // ---------------------------------------------------------------------
  // Trapezoid rule
  // ---------------------------------------------------------------------

  /** The i-th point of the grid of spacing dx from start. */
  function GridPoint(start: real, dx: real, i: nat): (x: real)
  {
    start + i as real * dx
  }

  /** The density summed over the interior grid points 1 <= i <= n. */
  function InteriorSum(coefficients: seq<real>, start: real, dx: real, n: nat): (s: real)
    ensures s >= 0.0
  {
    if n == 0 then 0.0
    else InteriorSum(coefficients, start, dx, n - 1) + Density(GridPoint(start, dx, n), coefficients)
  }

  /** The width of one of `steps` equal sub-intervals of [start, end]. */
  function StepWidth(start: real, end: real, steps: nat): (dx: real)
    requires steps >= 1
  {
    (end - start) / steps as real
  }

  /** The weighted sum of the trapezoid rule: half weight at both ends,
      full weight at the interior grid points 1 <= i <= n. */
  function WeightedSum(coefficients: seq<real>, start: real, end: real, dx: real, n: nat): (sum: real)
    ensures sum >= 0.0
  {
    Density(start, coefficients) / 2.0 + Density(end, coefficients) / 2.0
    + InteriorSum(coefficients, start, dx, n)
  }

  /** The composite trapezoid rule with `steps` equal sub-intervals over [start, end]. */
  function Trapezoid(start: real, end: real, steps: nat, coefficients: seq<real>): (area: real)
    requires steps >= 1
  {
    WeightedSum(coefficients, start, end, StepWidth(start, end, steps), steps - 1)
    * StepWidth(start, end, steps)
  }

  /** The integral vanishes on an empty interval and has the sign of
      end - start, the density being non-negative. */
  lemma TrapezoidSign(start: real, end: real, steps: nat, coefficients: seq<real>)
    requires steps >= 1
    ensures start == end ==> Trapezoid(start, end, steps, coefficients) == 0.0
    ensures start <= end ==> Trapezoid(start, end, steps, coefficients) >= 0.0
    ensures start >= end ==> Trapezoid(start, end, steps, coefficients) <= 0.0
  {
  }

  /** `trapezoidalIntegral`: the composite trapezoid rule, accumulating the
      interior points in a loop. */
  method TrapezoidalIntegral(start: real, end: real, steps: nat, coefficients: seq<real>)
    returns (area: real)
    requires steps >= 1
    ensures area == Trapezoid(start, end, steps, coefficients)
  {
    var dx := StepWidth(start, end, steps);
    var sum := EvaluatePolynomial(start, coefficients);
    sum := sum / 2.0;
    var last := EvaluatePolynomial(end, coefficients);
    sum := sum + last / 2.0;
    var i := 1;
    while i < steps
      invariant 1 <= i <= steps
      invariant sum == WeightedSum(coefficients, start, end, dx, i - 1)
    {
      var x := GridPoint(start, dx, i);
      var y := EvaluatePolynomial(x, coefficients);
      sum := sum + y;
      i := i + 1;
    }
    assert sum == WeightedSum(coefficients, start, end, dx, steps - 1);
    area := sum * dx;
  }

  // ---------------------------------------------------------------------
  // Percentile and rank
  // ---------------------------------------------------------------------

  /** The integral of the density over the whole score range. */
  function TotalArea(coefficients: seq<real>): (area: real)
  {
    Trapezoid(0.0, 100.0, Steps, coefficients)
  }

  /** `part` as a rounded percentage of `whole`. */
  function RoundedShare(part: real, whole: real): (percent: int)
    requires whole > 0.0
    ensures part == 0.0 ==> percent == 0
    ensures part == whole ==> percent == 100
    ensures part >= 0.0 ==> percent >= 0
    ensures part <= 0.0 ==> percent <= 0
  {
    Round((part / whole) * 100.0)
  }

  /** The percentile of `score`: the share of the total area lying below
      it, as a rounded percentage. */
  function Percentile(score: real, coefficients: seq<real>): (p: int)
    requires TotalArea(coefficients) > 0.0
  {
    RoundedShare(Trapezoid(0.0, score, Steps, coefficients), TotalArea(coefficients))
  }

  /** A score of 0 has percentile 0, a score of 100 has percentile 100
      (both integrals are then the same computation), and a non-negative
      score has a non-negative percentile. */
  lemma PercentileEnds(coefficients: seq<real>, score: real)
    requires TotalArea(coefficients) > 0.0
    ensures Percentile(0.0, coefficients) == 0
    ensures Percentile(100.0, coefficients) == 100
    ensures score >= 0.0 ==> Percentile(score, coefficients) >= 0
  {
  }

  /** The fitted table has a positive total area, so the percentile is
      defined for every score: its constant term is positive, the density at
      0 alone contributes a positive half-weight term, and every other term
      of the weighted sum is non-negative. */
  lemma TotalAreaPositive()
    ensures TotalArea(DistributionCoefficients) > 0.0
  {
    DensityIsClampedHorner(0.0, DistributionCoefficients);
    HornerAtZero(DistributionCoefficients);
    assert Density(0.0, DistributionCoefficients) == DistributionCoefficients[0];
    var dx := StepWidth(0.0, 100.0, Steps);
    assert dx == 0.1;
    assert WeightedSum(DistributionCoefficients, 0.0, 100.0, dx, Steps - 1)
        >= DistributionCoefficients[0] / 2.0;
  }

  /** Over the fitted table, a score of 0 has percentile 0 and a score of
      100 has percentile 100, with no hypothesis left. */
  lemma FittedPercentileEnds()
    ensures TotalArea(DistributionCoefficients) > 0.0
    ensures Percentile(0.0, DistributionCoefficients) == 0
    ensures Percentile(100.0, DistributionCoefficients) == 100
  {
    TotalAreaPositive();
    PercentileEnds(DistributionCoefficients, 0.0);
  }

  /** `calculatePercentile` over the fitted coefficient table. */
  method CalculatePercentile(score: real) returns (percentile: int)
    ensures TotalArea(DistributionCoefficients) > 0.0
    ensures percentile == Percentile(score, DistributionCoefficients)
  {
    TotalAreaPositive();
    var totalArea := TrapezoidalIntegral(0.0, 100.0, Steps, DistributionCoefficients);
    var areaBelow := TrapezoidalIntegral(0.0, score, Steps, DistributionCoefficients);
    percentile := Round((areaBelow / totalArea) * 100.0);
  }

  /** The six letter grades, best first. */
  datatype Rank = S | A | B | C | D | F

  /** The position of a rank in the order F < D < C < B < A < S. */
  function Grade(r: Rank): (g: nat)
  {
    match r
    case F => 0
    case D => 1
    case C => 2
    case B => 3
    case A => 4
    case S => 5
  }

  /** The inclusive lowest percentile of each rank above F (F has no lower
      bound; its entry is never consulted). */
  function Threshold(r: Rank): (t: int)
  {
    match r
    case S => 95
    case A => 80
    case B => 60
    case C => 40
    case D => 20
    case F => 0
  }

  /** The descending threshold ladder: the best rank whose threshold the
      percentile reaches, F when it reaches none. */
  function RankOf(percentile: int): (r: Rank)
    ensures r != F ==> percentile >= Threshold(r)
    ensures forall better: Rank :: Grade(better) > Grade(r) ==> percentile < Threshold(better)
  {
    if percentile >= 95 then S
    else if percentile >= 80 then A
    else if percentile >= 60 then B
    else if percentile >= 40 then C
    else if percentile >= 20 then D
    else F
  }

  /** A higher percentile never earns a worse rank. */
  lemma RankMonotone(p1: int, p2: int)
    requires p1 <= p2
    ensures Grade(RankOf(p1)) <= Grade(RankOf(p2))
  {
  }

  /** The boundaries are inclusive lower bounds. */
  lemma RankBoundaries()
    ensures RankOf(95) == S && RankOf(94) == A
    ensures RankOf(80) == A && RankOf(79) == B
    ensures RankOf(20) == D && RankOf(19) == F
  {
  }

  /** `calculateRank`: the rank of the percentile of `score`. */
  method CalculateRank(score: real) returns (rank: Rank)
    ensures TotalArea(DistributionCoefficients) > 0.0
    ensures rank == RankOf(Percentile(score, DistributionCoefficients))
  {
    var percentile := CalculatePercentile(score);
    rank := RankOf(percentile);
  }
}
