/**
 * One request end to end: the raw table is cleaned, an external classifier
 * turns the cleaned table into a probability, and the probability becomes
 * a score and a tier. The classifier is a parameter.
 */
module Pipeline {
  import opened Cells
  import opened Cleaner
  import opened CleanerProperties
  import opened Risk
  import opened Features

  /** A classifier's probability of the positive class for the table's first row. */
  type Classifier = map<string, seq<Cell>> -> real

  /** Clean the table, ask the classifier, score and tier its answer; a KeyError from cleaning stops the request. */
  function AssessTable(raw: map<string, seq<Cell>>, classify: Classifier): (r: Result<(int, Tier), KeyError>)
    ensures r.Failure? <==> !(RequiredColumns <= raw.Keys)
    ensures r.Success? ==> 1 <= r.value.0 <= 10 && r.value.1 == TierOf(r.value.0)
    ensures r.Success? ==> r.value.0 == ProbabilityToRisk(classify(Transformed(raw).value))
  {
    TransformedFailsIffColumnAbsent(raw);
    match Transformed(raw)
    case Failure(e) => Failure(e)
    case Success(cleaned) =>
      var risk := ProbabilityToRisk(classify(cleaned));
      Success((risk, TierOf(risk)))
  }

  /** The form's answers always reach the classifier: the record has every column the cleaner reads. */
  lemma AnswersAlwaysAssessed(a: Answers, classify: Classifier)
    ensures AssessTable(UserTable(a), classify).Success?
  {
    FeatureRecordKeys(a);
    UserTableCleans(a);
    TransformedFailsIffColumnAbsent(UserTable(a));
  }

  /**
   * A raw row with GENHLTH 8, POORHLTH 88 and _BMI5 2500 is cleaned to 5,
   * 0 and 25; a classifier answering 0.72 for it gives score 7, tier High.
   */
  lemma {:induction false} SentinelScenario(raw: map<string, seq<Cell>>, classify: Classifier)
    requires RequiredColumns <= raw.Keys
    requires raw["GENHLTH"] == [Val(8.0)] && raw[PoorHealth] == [Val(88.0)] && raw[Bmi] == [Val(2500.0)]
    requires Transformed(raw).Success? && classify(Transformed(raw).value) == 0.72
    ensures var cleaned := Transformed(raw).value;
      cleaned["GENHLTH"] == [Val(5.0)] && cleaned[PoorHealth] == [Val(0.0)] && cleaned[Bmi] == [Val(25.0)]
    ensures AssessTable(raw, classify) == Success((7, High))
  {
    TransformedKeepsShape(raw);
    GenericColumnCells(raw, "GENHLTH", 0);
    PoorHealthCells(raw, 0);
    BmiCells(raw, 0);
    ScoreExamples();
  }
}
