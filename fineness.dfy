/** The purity classification shared by the controller's evaluation generator
    and the mock backend: millesimal fineness grade and carat label. */
module Fineness {
  import opened Common

  /** The millesimal fineness grades, from the purest down. */
  const Grades: seq<int> := [9999, 999, 925, 750, 585, 375]

  /** The purity (in percent) from which each grade applies. */
  function GradeFloor(grade: int): real
    requires grade in Grades
  {
    match grade
    case 9999 => 99.90
    case 999 => 97.00
    case 925 => 90.00
    case 750 => 70.00
    case 585 => 50.00
    case _ => 37.00
  }

  /** Millesimal fineness of a purity given in percent; 0 means unclassified. */
  function Millesimal(purity: real): (m: int)
    ensures m == 0 || m in Grades
  {
    if purity >= 99.90 then 9999
    else if purity >= 97.00 then 999
    else if purity >= 90.00 then 925
    else if purity >= 70.00 then 750
    else if purity >= 50.00 then 585
    else if purity >= 37.00 then 375
    else 0
  }

  /** Carat count: the purity scaled to 24 parts, rounded up. */
  function CaratCount(purity: real): (n: int)
    ensures (n - 1) as real < purity * 24.0 / 100.0 <= n as real
  {
    Ceil(purity * 24.0 / 100.0)
  }

  /** The label `"%dK"` of the carat count. */
  function Carat(purity: real): (text: string)
    ensures |text| >= 2 && text[|text| - 1] == 'K'
  {
    IntToString(CaratCount(purity)) + "K"
  }

  /** A purity is unclassified exactly when it is below the lowest grade's
      floor; otherwise its grade is the highest one whose floor it reaches. */
  lemma MillesimalIsHighestReachedGrade(purity: real)
    ensures Millesimal(purity) == 0 <==> purity < 37.00
    ensures Millesimal(purity) != 0 ==>
              && Millesimal(purity) in Grades
              && GradeFloor(Millesimal(purity)) <= purity
              && forall g :: g in Grades && GradeFloor(g) <= purity ==> g <= Millesimal(purity)
  {
  }

  /** A purer item never gets a lower grade. */
  lemma MillesimalMonotone(p: real, q: real)
    requires p <= q
    ensures Millesimal(p) <= Millesimal(q)
  {
  }

  /** The carat label reads back as the carat count followed by `K`: a
      minus sign exactly when the count is negative (a negative purity),
      then the digits of its magnitude. The count is the least whole number
      of 24ths at or above the purity. */
  lemma CaratLabelReadsBack(purity: real)
    ensures var text := Carat(purity);
            var n := CaratCount(purity);
            var digits := if n < 0 then text[1..|text| - 1] else text[..|text| - 1];
            && text[|text| - 1] == 'K'
            && (text[0] == '-' <==> n < 0)
            && digits != "" && AllDigits(digits)
            && DigitsValue(digits) == if n < 0 then -n else n
  {
    var n := CaratCount(purity);
    var text := Carat(purity);
    if n < 0 {
      assert text[1..|text| - 1] == NatToString(-n);
      DigitsValueOfNatToString(-n);
    } else {
      assert text[..|text| - 1] == NatToString(n);
      DigitsValueOfNatToString(n);
    }
  }

  /** Worked examples of the classification. */
  lemma ClassificationExamples()
    ensures Millesimal(99.95) == 9999 && Carat(99.95) == "24K"
    ensures Millesimal(92.0) == 925 && Carat(92.0) == "23K"
    ensures Millesimal(40.0) == 375 && Millesimal(36.99) == 0
  {
    assert CaratCount(99.95) == 24;
    assert CaratCount(92.0) == 23;
  }
}
