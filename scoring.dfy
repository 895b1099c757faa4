/** The two integer decisions the controller makes for its display:
    the grade shown in the result popup and the low-time warning of the clock. */
module Scoring {

  /** Tiers of the result popup, from the highest to the lowest. */
  datatype Grade = Top | Excellent | Good | Normal | Poor

  /** Position of a tier on the ladder: Poor is 0, Top is 4. */
  function Rank(g: Grade): nat {
    match g
    case Poor => 0
    case Normal => 1
    case Good => 2
    case Excellent => 3
    case Top => 4
  }

  /** The tier's own threshold, stated tier by tier: Top needs 25 points,
      Excellent 20, Good 15, Normal 10, and Poor is open to every score. */
  predicate Reaches(score: int, g: Grade) {
    match g
    case Top => score >= 25
    case Excellent => score >= 20
    case Good => score >= 15
    case Normal => score >= 10
    case Poor => true
  }

  /** The grade ladder of the result popup, checked from the top down.
      The grade is the highest tier whose threshold the score reaches. */
  function GradeOf(score: int): (g: Grade)
    ensures Reaches(score, g)
    ensures forall t :: Reaches(score, t) ==> Rank(t) <= Rank(g)
  {
    if score >= 25 then Top
    else if score >= 20 then Excellent
    else if score >= 15 then Good
    else if score >= 10 then Normal
    else Poor
  }

  /** The style class the popup gives each tier; the two highest tiers share one. */
  function GradeClass(g: Grade): (c: string)
    ensures c == "excellent" <==> Rank(g) >= Rank(Excellent)
  {
    match g
    case Top => "excellent"
    case Excellent => "excellent"
    case Good => "good"
    case Normal => "normal"
    case Poor => "poor"
  }

  /** The score bands of the ladder, each as an if-and-only-if. */
  lemma GradeBands(score: int)
    ensures GradeOf(score) == Top <==> score >= 25
    ensures GradeOf(score) == Excellent <==> 20 <= score < 25
    ensures GradeOf(score) == Good <==> 15 <= score < 20
    ensures GradeOf(score) == Normal <==> 10 <= score < 15
    ensures GradeOf(score) == Poor <==> score < 10
  {
    var g := GradeOf(score);
    assert Reaches(score, g);
    if score >= 25 { assert Reaches(score, Top); }
    else if score >= 20 { assert Reaches(score, Excellent); }
    else if score >= 15 { assert Reaches(score, Good); }
    else if score >= 10 { assert Reaches(score, Normal); }
  }

  /** A higher score never earns a lower tier. */
  lemma GradeMonotone(a: int, b: int)
    requires a <= b
    ensures Rank(GradeOf(a)) <= Rank(GradeOf(b))
  {
    assert Reaches(b, GradeOf(a));
  }

  /** Two tiers share a style class exactly when they are the two highest ones. */
  lemma GradeClassShared(g1: Grade, g2: Grade)
    requires g1 != g2
    ensures GradeClass(g1) == GradeClass(g2) <==> {g1, g2} == {Top, Excellent}
  {
    if {g1, g2} == {Top, Excellent} {
      assert g1 in {g1, g2} && g2 in {g1, g2};
    }
  }

  /** Seconds left at or below which the clock is drawn as a warning. */
  const WARNING_SECONDS: int := 10

  /** The clock shows the warning colour while some time is left but no more than ten seconds. */
  predicate LowTimeWarning(timeLeft: int) {
    timeLeft <= WARNING_SECONDS && timeLeft > 0
  }
}
