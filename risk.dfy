/** The scoring policy: a classifier probability becomes a 1..10 score and one of three tiers. */
module Risk {
  import opened Rounding

  /** `probability_to_risk`: ten times the probability, rounded, then clamped into 1..10. */
  function ProbabilityToRisk(prob: real): (score: int)
    ensures 1 <= score <= 10
    ensures var r := RoundHalfEven(prob * 10.0);
      (1 <= r <= 10 ==> score == r) && (r <= 0 ==> score == 1) && (r > 10 ==> score == 10)
  {
    var score := RoundHalfEven(prob * 10.0);
    var capped := if score < 10 then score else 10;   // min(score, 10)
    if 1 > capped then 1 else capped                  // max(1, ...)
  }

  /** The three qualitative bands, in increasing order of risk. */
  datatype Tier = Low | Moderate | High

  /** The position of a tier in the order Low < Moderate < High. */
  function Rank(t: Tier): nat
  {
    match t
    case Low => 0
    case Moderate => 1
    case High => 2
  }

  /** The if/elif chain on the score: at most 3 is Low, at most 6 Moderate, anything higher High. */
  function TierOf(risk: int): (t: Tier)
    ensures t == Low <==> risk <= 3
    ensures t == Moderate <==> 4 <= risk <= 6
    ensures t == High <==> 7 <= risk
  {
    if risk <= 3 then Low
    else if risk <= 6 then Moderate
    else High
  }

  /** A higher probability never gives a lower score. */
  lemma RiskMonotone(p: real, q: real)
    requires p <= q
    ensures ProbabilityToRisk(p) <= ProbabilityToRisk(q)
  {
    RoundHalfEvenMonotone(p * 10.0, q * 10.0);
  }

  /** A higher score never gives a lower tier. */
  lemma TierMonotone(a: int, b: int)
    requires a <= b
    ensures Rank(TierOf(a)) <= Rank(TierOf(b))
  {
  }

  /** A higher probability never gives a lower tier. */
  lemma TierMonotoneInProbability(p: real, q: real)
    requires p <= q
    ensures Rank(TierOf(ProbabilityToRisk(p))) <= Rank(TierOf(ProbabilityToRisk(q)))
  {
    RiskMonotone(p, q);
  }

  /**
   * The tier boundaries on the probability itself. Because an exact half
   * rounds to even, 0.35 (3.5 rounds to 4) is already Moderate and 0.65
   * (6.5 rounds to 6) is still Moderate.
   */
  lemma {:induction false} TierByProbability(p: real)
    ensures TierOf(ProbabilityToRisk(p)) == Low <==> p < 0.35
    ensures TierOf(ProbabilityToRisk(p)) == High <==> p > 0.65
    ensures TierOf(ProbabilityToRisk(p)) == Moderate <==> 0.35 <= p <= 0.65
  {
    var r := RoundHalfEven(p * 10.0);
    if p * 10.0 == 3.5 {
      RoundHalfEvenUnique(3.5, 4);
    }
    if p * 10.0 == 6.5 {
      RoundHalfEvenUnique(6.5, 6);
    }
  }

  /** The scores of a few probabilities, the two ties included. */
  lemma ScoreExamples()
    ensures ProbabilityToRisk(0.0) == 1 && ProbabilityToRisk(1.0) == 10
    ensures ProbabilityToRisk(0.25) == 2 && ProbabilityToRisk(0.35) == 4
    ensures TierOf(ProbabilityToRisk(0.55)) == Moderate
    ensures ProbabilityToRisk(0.65) == 6 && TierOf(ProbabilityToRisk(0.65)) == Moderate
    ensures ProbabilityToRisk(0.72) == 7 && TierOf(ProbabilityToRisk(0.72)) == High
  {
    RoundHalfEvenUnique(0.0, 0);
    RoundHalfEvenUnique(10.0, 10);
    RoundHalfEvenUnique(2.5, 2);
    RoundHalfEvenUnique(3.5, 4);
    RoundHalfEvenUnique(5.5, 6);
    RoundHalfEvenUnique(6.5, 6);
    RoundHalfEvenUnique(7.2, 7);
  }
}
