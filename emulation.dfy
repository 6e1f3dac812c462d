/** The pure parts of the hardware emulation (api/controller_emul.go): the
    business-delay multiplier, the simulated hardware delay, and the random
    evaluation generator with its randomness taken as parameters. */
module Emulation {
  import opened Common
  import opened Fineness

  /** The multiplier is stored as an integer scaled by this factor. */
  const HwBusinessMultDivider: nat := 1000

  /** The largest multiplier accepted; larger ones are clamped to it. */
  const MaxBusinessMult: real := 10.0

  const NanosPerSecond: nat := 1_000_000_000

  /** The stored form of a requested multiplier: clamped to [0, 10], scaled
      by 1000 and truncated (`uint64(1000 * m)`). */
  function ScaledMult(m: real): (stored: nat)
    ensures stored <= 10 * HwBusinessMultDivider
  {
    var clamped := if m < 0.0 then 0.0 else if m > MaxBusinessMult then MaxBusinessMult else m;
    Floor(HwBusinessMultDivider as real * clamped)
  }

  /** Inside the accepted range the stored value is the multiplier to the
      nearest thousandth below; outside it the bound is stored. */
  lemma ScaledMultClamps(m: real)
    ensures m <= 0.0 ==> ScaledMult(m) == 0
    ensures m >= MaxBusinessMult ==> ScaledMult(m) == 10 * HwBusinessMultDivider
    ensures 0.0 <= m <= MaxBusinessMult ==>
              ScaledMult(m) as real <= 1000.0 * m < ScaledMult(m) as real + 1.0
  {
  }

  lemma ScaledMultExamples()
    ensures ScaledMult(-1.0) == 0 && ScaledMult(15.0) == 10000
    ensures ScaledMult(1.0) == 1000 && ScaledMult(0.0) == 0 && ScaledMult(2.5) == 2500
  {
  }

  /** The simulated delay, in nanoseconds, of a hardware step of `timeUnits`
      seconds under the stored multiplier `m`. No delay is taken when either
      is zero. */
  function HardwareDelay(timeUnits: nat, m: nat): (d: nat)
    ensures timeUnits == 0 || m == 0 ==> d == 0
    ensures timeUnits > 0 && m > 0 ==>
              d * HwBusinessMultDivider <= timeUnits * NanosPerSecond * m < (d + 1) * HwBusinessMultDivider
  {
    if timeUnits > 0 && m > 0 then timeUnits * NanosPerSecond * m / HwBusinessMultDivider else 0
  }

  /** The delay is exact: `timeUnits` seconds scaled by `m / 1000`, so it is
      zero exactly when one of them is, grows with both, and under the
      default multiplier is `timeUnits` whole seconds. */
  lemma HardwareDelayExact(timeUnits: nat, m: nat)
    ensures HardwareDelay(timeUnits, m) == timeUnits * m * 1_000_000
    ensures HardwareDelay(timeUnits, m) == 0 <==> timeUnits == 0 || m == 0
    ensures HardwareDelay(timeUnits, 1 * HwBusinessMultDivider) == timeUnits * NanosPerSecond
  {
    var k := timeUnits * m;
    assert timeUnits * NanosPerSecond * m == k * 1_000_000 * 1000;
    if k != 0 {
      assert k * 1_000_000 > 0;
    }
  }

  lemma HardwareDelayMonotone(t1: nat, t2: nat, m1: nat, m2: nat)
    requires t1 <= t2 && m1 <= m2
    ensures HardwareDelay(t1, m1) <= HardwareDelay(t2, m2)
  {
    HardwareDelayExact(t1, m1);
    HardwareDelayExact(t2, m2);
    assert t1 * m1 <= t2 * m1 <= t2 * m2;
  }

  /** What the generator produces for one evaluation. */
  datatype RandomEvalData = RandomEvalData(
    spectrum: map<string, real>,
    alloy: string,
    purity: real,
    millesimal: int,
    carat: string,
    weight: real,
    confidence: real,
    risky: bool)

  /** A uniform draw of `rand.Float64`, in [0, 1). */
  predicate UnitDraw(u: real) {
    0.0 <= u < 1.0
  }

  function Min(a: real, b: real): real {
    if a <= b then a else b
  }

  /** The purity drawn from `u`, in percent with two decimals. */
  function GeneratedPurity(u: real): real
    requires UnitDraw(u)
  {
    Floor(Min(0.9999, 0.375 + u * 0.625) * 10000.0) as real / 100.0
  }

  /** The generator of evaluation data, with its random draws as parameters:
      `coin` is `rand.Int()`, then three `rand.Float64()` draws for purity,
      confidence and weight. */
  function RandomEvaluation(coin: nat, uPurity: real, uConfidence: real, uWeight: real): (e: RandomEvalData)
    requires UnitDraw(uPurity) && UnitDraw(uConfidence) && UnitDraw(uWeight)
    ensures e.millesimal == Millesimal(e.purity) && e.carat == Carat(e.purity)
    ensures e.spectrum == map[e.alloy := e.purity] && e.weight == uWeight
  {
    var alloy := if coin % 2 == 0 then "ag" else "au";
    var purity := GeneratedPurity(uPurity);
    var confidence := Floor((0.5 + uConfidence * 0.5) * 1000.0) as real / 1000.0;
    RandomEvalData(
      map[alloy := purity], alloy, purity, Millesimal(purity), Carat(purity),
      uWeight, confidence, confidence < 0.88)
  }

  /** Every generated evaluation is classified: its purity lies in
      [37.50, 99.99], so its fineness is one of the grades and never 0. Its
      spectrum is the single entry alloy to purity, and it is risky exactly
      when its confidence is below 0.88. */
  lemma RandomEvaluationWellFormed(coin: nat, uPurity: real, uConfidence: real, uWeight: real)
    requires UnitDraw(uPurity) && UnitDraw(uConfidence) && UnitDraw(uWeight)
    ensures var e := RandomEvaluation(coin, uPurity, uConfidence, uWeight);
            && 37.50 <= e.purity <= 99.99
            && e.millesimal in Grades && e.millesimal >= 375
            && e.spectrum == map[e.alloy := e.purity]
            && (e.alloy == "ag" || e.alloy == "au")
            && 0.5 <= e.confidence <= 0.999
            && (e.risky <==> e.confidence < 0.88)
  {
    var scaled := Min(0.9999, 0.375 + uPurity * 0.625) * 10000.0;
    assert 3750.0 <= scaled <= 9999.0;
    var p := GeneratedPurity(uPurity);
    assert 3750 <= Floor(scaled) <= 9999;
    assert 37.50 <= p <= 99.99;
    MillesimalIsHighestReachedGrade(p);
    var c := (0.5 + uConfidence * 0.5) * 1000.0;
    assert 500.0 <= c < 1000.0;
    assert 500 <= Floor(c) <= 999;
  }
}
