/**
 * The feature record the app builds from the form's answers: the derived
 * BMI and the one-row table, keyed by the survey's column names, that is
 * handed to the cleaner.
 */
module Features {
  import opened Cells
  import opened Rounding
  import opened Cleaner
  import opened CleanerProperties

  /** The answers the form collects; weight in kilograms, height in centimetres. */
  datatype Answers = Answers(
    sex: int, age: int, marital: int, employ: int,
    weightKg: real, heightCm: real,
    genhlth: int, phys14: int, ment14: int, poorhlth: int,
    exercise: int, smoke: int, heart: int, asthma: int, diabetes: int,
    diffwalk: int, arthritis: int, kidney: int, skinCancer: int, otherCancer: int,
    depression: int)

  /** Weight over the square of the height in metres, to two decimals; missing when the height is not positive. */
  function BodyMassIndex(weightKg: real, heightCm: real): (bmi: Cell)
    ensures bmi.Missing? <==> heightCm <= 0.0
    ensures bmi.Val? ==>
      var exact := weightKg / ((heightCm / 100.0) * (heightCm / 100.0));
      exact - 0.005 <= bmi.v <= exact + 0.005
    ensures bmi.Val? ==> (bmi.v * 100.0).Floor as real == bmi.v * 100.0
    ensures bmi.Val? ==>
      var exact := weightKg / ((heightCm / 100.0) * (heightCm / 100.0));
      (bmi.v * 100.0 - exact * 100.0 == 0.5 || exact * 100.0 - bmi.v * 100.0 == 0.5) ==> (bmi.v * 100.0).Floor % 2 == 0
  {
    if heightCm > 0.0 then Val(RoundHundredths(weightKg / ((heightCm / 100.0) * (heightCm / 100.0))))
    else Missing
  }

  /** `bmi * 100`; a missing BMI stays missing. */
  function TimesHundred(c: Cell): (r: Cell)
    ensures r.Missing? <==> c.Missing?
    ensures r.Val? ==> r.v / 100.0 == c.v
  {
    match c
    case Missing => Missing
    case Val(x) => Val(x * 100.0)
  }

  /** The twenty column names of the record, each the name the classifier was trained on. */
  const FeatureNames: set<string> := {
    "_SEX", "_AGE80", "MARITAL", "EMPLOY1", "_BMI5", "GENHLTH", "_PHYS14D", "_MENT14D",
    "ADDEPEV3", "POORHLTH", "EXERANY2", "SMOKE100", "CVDCRHD4", "_ASTHMS1", "DIABETE4",
    "DIFFWALK", "HAVARTH4", "CHCKDNY2", "CHCSCNC1", "CHCOCNC1"
  }

  /** The record built from the answers, with the BMI stored as `bmi * 100` under _BMI5. */
  function FeatureRecord(a: Answers): map<string, Cell>
  {
    map[
      "_SEX" := Val(a.sex as real),
      "_AGE80" := Val(a.age as real),
      "MARITAL" := Val(a.marital as real),
      "EMPLOY1" := Val(a.employ as real),
      "_BMI5" := TimesHundred(BodyMassIndex(a.weightKg, a.heightCm)),
      "GENHLTH" := Val(a.genhlth as real),
      "_PHYS14D" := Val(a.phys14 as real),
      "_MENT14D" := Val(a.ment14 as real),
      "ADDEPEV3" := Val(a.depression as real),
      "POORHLTH" := Val(a.poorhlth as real),
      "EXERANY2" := Val(a.exercise as real),
      "SMOKE100" := Val(a.smoke as real),
      "CVDCRHD4" := Val(a.heart as real),
      "_ASTHMS1" := Val(a.asthma as real),
      "DIABETE4" := Val(a.diabetes as real),
      "DIFFWALK" := Val(a.diffwalk as real),
      "HAVARTH4" := Val(a.arthritis as real),
      "CHCKDNY2" := Val(a.kidney as real),
      "CHCSCNC1" := Val(a.skinCancer as real),
      "CHCOCNC1" := Val(a.otherCancer as real)
    ]
  }

  /** The one-row table `pd.DataFrame([record])`. */
  function UserTable(a: Answers): (cols: map<string, seq<Cell>>)
    ensures forall name :: name in cols ==> |cols[name]| == 1
  {
    var rec := FeatureRecord(a);
    map name | name in rec :: [rec[name]]
  }

  /** Each column of the one-row table holds the record's value. */
  lemma UserTableAt(a: Answers, name: string)
    requires name in FeatureNames
    ensures name in UserTable(a) && UserTable(a)[name] == [FeatureRecord(a)[name]]
  {
    FeatureRecordKeys(a);
  }

  lemma FeatureRecordKeys(a: Answers)
    ensures FeatureRecord(a).Keys == FeatureNames
    ensures RequiredColumns <= FeatureNames
  {
  }

  /** The ranges the form's widgets allow for each answer. */
  predicate InFormDomain(a: Answers)
  {
    && 1 <= a.sex <= 2 && 18 <= a.age <= 99 && 1 <= a.marital <= 6 && 1 <= a.employ <= 8
    && 20.0 <= a.weightKg <= 200.0 && 100.0 <= a.heightCm <= 200.0
    && 1 <= a.genhlth <= 5 && 1 <= a.phys14 <= 3 && 1 <= a.ment14 <= 3 && 0 <= a.poorhlth <= 30
    && 1 <= a.exercise <= 2 && 1 <= a.smoke <= 2 && 1 <= a.heart <= 2 && 1 <= a.asthma <= 3
    && 1 <= a.diabetes <= 4 && 1 <= a.diffwalk <= 2 && 1 <= a.arthritis <= 2 && 1 <= a.kidney <= 2
    && 1 <= a.skinCancer <= 2 && 1 <= a.otherCancer <= 2 && 1 <= a.depression <= 2
  }

  /** Every answer the form allows for a generic-group column is one of the codes 1..6. */
  lemma FormGenericCodes(a: Answers)
    requires InFormDomain(a)
    ensures forall name :: name in GenericColumns ==>
      var c := FeatureRecord(a)[name]; c.Val? && 1.0 <= c.v <= 6.0
  {
  }

  lemma MulLe(a: real, b: real, c: real)
    requires 0.0 <= a && b <= c
    ensures a * b <= a * c
  {
  }

  lemma MulLt(a: real, b: real, c: real)
    requires 0.0 < a && b < c
    ensures a * b < a * c
  {
  }

  /** A height between 1 and 2 metres has a square between 1 and 4. */
  lemma SquareBounds(m: real)
    requires 1.0 <= m <= 2.0
    ensures 1.0 <= m * m <= 4.0
  {
    MulLe(m, 1.0, m);
    MulLe(m, m, 2.0);
    assert m * m <= m * 2.0;
    assert m * 2.0 <= 4.0;
  }

  /** A weight between 20 and 200 over a square between 1 and 4 lies between 5 and 200. */
  lemma QuotientBounds(w: real, sq: real)
    requires 20.0 <= w <= 200.0 && 1.0 <= sq <= 4.0
    ensures 5.0 <= w / sq <= 200.0
  {
    var q := w / sq;
    assert q * sq == w;
    if q > 200.0 {
      MulLt(sq, 200.0, q);
      assert false;
    }
    assert sq * 5.0 <= 20.0;
    if q < 5.0 {
      MulLt(sq, q, 5.0);
      assert false;
    }
  }

  /** Any weight and height the form allows give a BMI between 5 and 200, up to rounding. */
  lemma FormBmiInRange(weightKg: real, heightCm: real)
    requires 20.0 <= weightKg <= 200.0 && 100.0 <= heightCm <= 200.0
    ensures var bmi := BodyMassIndex(weightKg, heightCm);
      bmi.Val? && 4.995 <= bmi.v <= 200.005
  {
    SquareBounds(heightCm / 100.0);
    QuotientBounds(weightKg, (heightCm / 100.0) * (heightCm / 100.0));
  }

  /** The cleaner can read every column it needs from the record, so cleaning it never raises. */
  lemma UserTableCleans(a: Answers)
    ensures Transformed(UserTable(a)).Success?
  {
    FeatureRecordKeys(a);
    TransformedFailsIffColumnAbsent(UserTable(a));
  }

  /**
   * Storing `bmi * 100` and cleaning divides it back: the cleaned _BMI5 is
   * the BMI itself, except that a BMI of exactly 777 or 999 becomes missing.
   */
  lemma BmiRoundTrip(raw: map<string, seq<Cell>>, bmi: Cell)
    requires Transformed(raw).Success?
    requires Bmi in raw && raw[Bmi] == [TimesHundred(bmi)]
    ensures Transformed(raw).value[Bmi] == [if bmi.Val? && bmi.v != 777.0 && bmi.v != 999.0 then bmi else Missing]
  {
    TransformedKeepsShape(raw);
    BmiCells(raw, 0);
  }

  /** A one-row POORHLTH column holding a count of 0 to 30 days: 0 becomes missing, 1 to 30 are kept. */
  lemma PoorHealthDaysRow(raw: map<string, seq<Cell>>, days: int)
    requires Transformed(raw).Success?
    requires 0 <= days <= 30
    requires PoorHealth in raw && raw[PoorHealth] == [Val(days as real)]
    ensures Transformed(raw).value[PoorHealth] == if days == 0 then [Missing] else [Val(days as real)]
  {
    TransformedKeepsShape(raw);
    PoorHealthCells(raw, 0);
  }

  /** A one-row generic-group column holding one of the form's codes 1..6 comes out of the cleaner as it went in. */
  lemma FormCodeKept(raw: map<string, seq<Cell>>, name: string, code: real)
    requires Transformed(raw).Success?
    requires name in GenericColumns && 1.0 <= code <= 6.0
    requires name in raw && raw[name] == [Val(code)]
    ensures Transformed(raw).value[name] == raw[name]
  {
    TransformedKeepsShape(raw);
    GenericColumnCells(raw, name, 0);
  }

  /** A one-row EMPLOY1 column holding one of the form's codes 1..8 comes out of the cleaner as it went in. */
  lemma FormEmployKept(raw: map<string, seq<Cell>>, code: int)
    requires Transformed(raw).Success?
    requires 1 <= code <= 8
    requires Employ in raw && raw[Employ] == [Val(code as real)]
    ensures Transformed(raw).value[Employ] == raw[Employ]
  {
    TransformedKeepsShape(raw);
    EmployCells(raw, 0);
  }

  /** The _BMI5, POORHLTH and EMPLOY1 cells of the one-row table built from the answers. */
  lemma UserTableBmiAndDays(a: Answers)
    ensures FeatureRecord(a).Keys == FeatureNames && RequiredColumns <= UserTable(a).Keys
    ensures UserTable(a)[Bmi] == [TimesHundred(BodyMassIndex(a.weightKg, a.heightCm))]
    ensures UserTable(a)[PoorHealth] == [Val(a.poorhlth as real)]
    ensures UserTable(a)[Employ] == [Val(a.employ as real)]
  {
    FeatureRecordKeys(a);
    UserTableAt(a, Bmi);
    UserTableAt(a, PoorHealth);
    UserTableAt(a, Employ);
  }

  /**
   * A one-row table holding every column the cleaner reads, 100 times a BMI
   * of 4.995 to 200.005 under _BMI5 and 0 to 30 days under POORHLTH: the
   * BMI comes back, and 0 days becomes missing.
   */
  lemma CleanedBmiAndDays(raw: map<string, seq<Cell>>, bmi: real, days: int)
    requires RequiredColumns <= raw.Keys
    requires 4.995 <= bmi <= 200.005 && raw[Bmi] == [TimesHundred(Val(bmi))]
    requires 0 <= days <= 30 && raw[PoorHealth] == [Val(days as real)]
    ensures Transformed(raw).Success?
    ensures Transformed(raw).value[Bmi] == [Val(bmi)]
    ensures Transformed(raw).value[PoorHealth] == if days == 0 then [Missing] else [Val(days as real)]
  {
    TransformedFailsIffColumnAbsent(raw);
    BmiRoundTrip(raw, Val(bmi));
    PoorHealthDaysRow(raw, days);
  }

  /**
   * What the cleaner makes of the record built from any answers the form
   * allows: _BMI5 comes back as the BMI itself, POORHLTH keeps 1 to 30
   * days while the form's 0 becomes missing, and EMPLOY1 is kept.
   */
  lemma CleanedFormRecord(a: Answers)
    requires InFormDomain(a)
    ensures Transformed(UserTable(a)).Success?
    ensures Transformed(UserTable(a)).value[Bmi] == [BodyMassIndex(a.weightKg, a.heightCm)]
    ensures Transformed(UserTable(a)).value[PoorHealth] ==
      if a.poorhlth == 0 then [Missing] else [Val(a.poorhlth as real)]
    ensures Transformed(UserTable(a)).value[Employ] == [Val(a.employ as real)]
  {
    var bmi := BodyMassIndex(a.weightKg, a.heightCm);
    FormBmiInRange(a.weightKg, a.heightCm);
    UserTableBmiAndDays(a);
    CleanedBmiAndDays(UserTable(a), bmi.v, a.poorhlth);
    FormEmployKept(UserTable(a), a.employ);
  }

  /** A generic-group cell of the one-row table built from answers the form allows: a code in 1..6. */
  lemma UserTableCode(a: Answers, name: string) returns (code: real)
    requires InFormDomain(a) && name in GenericColumns
    ensures 1.0 <= code <= 6.0
    ensures name in UserTable(a) && UserTable(a)[name] == [Val(code)]
  {
    FeatureRecordKeys(a);
    FormGenericCodes(a);
    UserTableAt(a, name);
    code := FeatureRecord(a)[name].v;
  }

  /** Every generic-group answer the form allows reaches the classifier unchanged. */
  lemma CleanedFormCode(a: Answers, name: string)
    requires InFormDomain(a) && name in GenericColumns
    ensures Transformed(UserTable(a)).Success?
    ensures Transformed(UserTable(a)).value[name] == UserTable(a)[name]
  {
    UserTableCleans(a);
    var code := UserTableCode(a, name);
    FormCodeKept(UserTable(a), name, code);
  }
}
