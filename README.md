# Skin-cancer risk app: survey cleaner and risk scorer

A Streamlit app collects survey answers, builds a one-row table keyed by the
survey's column names, runs a pre-trained classifier on it and turns the
probability it returns into a score from 1 to 10 and a tier (Low, Moderate,
High). The parts with real logic are modelled here:

- the `DomainCleaner` transformer (`domain_cleaner.py`), which maps the
  survey's sentinel codes to values or to missing, column by column, on a
  copy of the table;
- the scoring policy (`app.py`): `probability_to_risk` and the if/elif
  chain that picks the tier;
- the shaping of the feature record (`app.py`): the BMI computed from
  weight and height, and the record stored with `bmi * 100` under `_BMI5`.

Modules, one per component:

| file | module | what |
|---|---|---|
| cells.dfy | `Cells` | a cell value (`Missing` or `Val(v: real)`), `KeyError`, `Result`, `MapColumn` |
| frame.dfy | `Frames` | class `Frame`: a table of named columns updated in place |
| domain_cleaner.dfy | `Cleaner` | the per-cell rules, the rule table, `Transformed`, class `DomainCleaner` with `Fit` and `Transform` |
| cleaner_properties.dfy | `CleanerProperties` | what the transform does to each column, its error cases, non-idempotence |
| rounding.dfy | `Rounding` | Python's `round`: exact round-half-to-even |
| risk.dfy | `Risk` | `ProbabilityToRisk`, `Tier`, `TierOf` and their monotonicity and boundaries |
| features.dfy | `Features` | the answers, the BMI, the feature record, and what cleaning does to the values the form can produce |
| pipeline.dfy | `Pipeline` | clean, classify (a parameter), score and tier |

Design of the model:

- A table is column-oriented like the pandas frame: `map<string, seq<Cell>>`
  plus a row count, every column one cell per row. `transform` is the method
  `Cleaner.DomainCleaner.Transform`: it copies the input `Frame` and
  overwrites the copy's columns one step at a time, in the source's order.
  Its postcondition ties the returned table to the pure function
  `Cleaner.Transformed`, and says that the input is unchanged and the row
  count is kept.
- `Transformed` follows the source step by step. `CleanerProperties.TransformedMatchesRuleTable`
  proves that it is the same as an independent per-field reading,
  `ByRuleTable`: every column through the one rule that `RuleFor(name)` assigns
  to it (BMI, generic group, POORHLTH, EMPLOY1, identity).
- Reading an absent column raises a `KeyError` in pandas. This is modelled
  as a `Failure` naming the absent columns. The transform fails exactly when
  one of the columns it reads is absent (`TransformedFailsIffColumnAbsent`).
- Values are exact reals. Python's `round` is modelled on exact values as
  round-half-to-even: 2.5 rounds to 2, 3.5 to 4, 6.5 to 6.

Three behaviours of the code that are easy to get wrong:

- The cleaner is not idempotent. A second pass maps a cleaned 0 in POORHLTH
  (from 88) to missing (`TransformNotIdempotent`, `PoorHealthReapplied`),
  and divides `_BMI5` by 100 again (`TransformTwiceRescalesBmi`).
- Probability 0.25 scores 2, not 3, and 0.65 scores 6 (Moderate), not High.
  An exact half rounds to even (`ScoreExamples`, `TierByProbability`).
- A probability outside [0, 1] raises no error. It is rounded and clamped
  like any other.

One consequence of the code also shows up: the form offers 0 to 30 days for
POORHLTH, with 0 as the default, but the cleaner reads only 88 as "no days".
An answer of 0 therefore reaches the classifier as missing
(`PoorHealthDaysRow`).

## Model

| member | source | states |
|---|---|---|
| `Cells.MapColumn` | domain_cleaner.py:32 | the cell-wise image of a column keeps the length and applies the rule to each cell |
| `Cleaner.ScaleBmi` | domain_cleaner.py:22 | missing stays missing, and a value is divided by 100 (the result times 100 is the input) |
| `Cleaner.DropBmiSentinel` | domain_cleaner.py:23 | missing exactly for missing, 777 or 999; any other value is kept |
| `Cleaner.CleanBmi` | domain_cleaner.py:22-23 | result is missing exactly for a missing raw value or raw 77700 / 99900; otherwise it is the raw value divided by 100 |
| `Cleaner.CleanGeneric` | domain_cleaner.py:30 | output is never 7, 8 or 9; the value is kept exactly when it is not 7, 8 or 9; result is missing exactly for missing, 7 or 9; 8 becomes 5 |
| `Cleaner.CleanPoorHealth` | domain_cleaner.py:12-20 | output is missing, 0 or a value in [1,30]; the value is kept exactly when it is missing or in [1,30]; output is 0 exactly when the input is 88; every other value outside [1,30] (0 included) becomes missing |
| `Cleaner.CleanEmploy` | domain_cleaner.py:33 | result is missing exactly for missing or 9; any other value is kept |
| `Cleaner.Absent` | domain_cleaner.py:30 | exactly the listed names that are not columns; empty exactly when every listed name is a column |
| `Cleaner.RuleFor` | domain_cleaner.py:22-33 | the independent per-field reference: the one cell rule the cleaner applies to a column of each name (BMI, generic group, POORHLTH, EMPLOY1, identity); its agreement with the transform is `TransformedMatchesRuleTable` |
| `Cleaner.ByRuleTable` | domain_cleaner.py:22-33 | the independent per-field reference: every column through `RuleFor` of its name; proved equal to the transform by `TransformedMatchesRuleTable` |
| `Cleaner.ReplaceColumn` | domain_cleaner.py:22-23 | `X[name] = ...` on the column map; what it keeps and changes is stated by `ReplaceColumnAt` |
| `Cleaner.ReplaceColumns` | domain_cleaner.py:30 | `X[names] = ...` on the column map; what it keeps and changes is stated by `ReplaceColumnsAt` |
| `Cleaner.Transformed` | domain_cleaner.py:9-35 | the transform on values, step by step in the source's order, failing with a KeyError at the first read of an absent column; its properties are the `CleanerProperties` lemmas below |
| `Cleaner.DomainCleaner.Fit` | domain_cleaner.py:6-7 | returns the transformer itself |
| `Cleaner.DomainCleaner.Transform` | domain_cleaner.py:9-35 | input table unchanged; result is a fresh table equal to `Transformed` of the input's columns with the same row count, or the same KeyError |
| `Frames.Frame.Copy` | domain_cleaner.py:10 | a fresh table with the same columns and rows |
| `Frames.Frame.Assign` | domain_cleaner.py:32 | one column replaced, every other column and the row count kept |
| `Frames.Frame.AssignAll` | domain_cleaner.py:30 | the listed columns replaced at once, the rest kept |
| `CleanerProperties.ReplaceColumnAt` | domain_cleaner.py:32-33 | one column replaced by its image under the rule: the names are kept and every other column is kept |
| `CleanerProperties.ReplaceColumnsAt` | domain_cleaner.py:30 | each listed column replaced by its image under the rule: the names are kept and every other column is kept |
| `CleanerProperties.StagedAt` | domain_cleaner.py:22-33 | after the five column replacements, every column is its input column through the rule the rule table gives its name |
| `CleanerProperties.TransformedMatchesRuleTable` | domain_cleaner.py:22-33 | with every read column present, the step-by-step transform equals the per-field rule table applied to every column |
| `CleanerProperties.TransformedFailsIffColumnAbsent` | domain_cleaner.py:22-33 | the transform fails if and only if a column it reads is absent, and the error names only such columns |
| `CleanerProperties.TransformedKeepsShape` | domain_cleaner.py:10-35 | a successful transform keeps every column name and every column's length: no row dropped, none added |
| `CleanerProperties.GenericColumnCells` | domain_cleaner.py:25-30 | in each of the fifteen generic columns, 7 and 9 become missing, 8 becomes 5, all else (missing included) is kept |
| `CleanerProperties.PoorHealthCells` | domain_cleaner.py:12-20 | in POORHLTH, missing stays missing, [1,30] is kept, 88 becomes 0, every other value (0, 31, negatives, 77, 99) becomes missing |
| `CleanerProperties.BmiCells` | domain_cleaner.py:22-23 | each _BMI5 cell is divided by 100, and missing when the scaled value is exactly 777 or 999 |
| `CleanerProperties.EmployCells` | domain_cleaner.py:33 | in EMPLOY1, 9 becomes missing and every other value is kept |
| `CleanerProperties.OtherColumnsUnchanged` | domain_cleaner.py:22-33 | a column the cleaner does not name (such as _SEX, _AGE80) comes out as it went in |
| `CleanerProperties.FixedColumnUnchanged` | domain_cleaner.py:22-33 | a column whose cells are all fixed points of its rule comes out unchanged |
| `CleanerProperties.GenericRuleIdempotent` | domain_cleaner.py:30 | applying the generic rule twice is applying it once |
| `CleanerProperties.PoorHealthReapplied` | domain_cleaner.py:12-20 | reapplying `clean` changes its result if and only if the input was 88 |
| `CleanerProperties.EmployRuleIdempotent` | domain_cleaner.py:33 | applying the EMPLOY1 rule twice is applying it once |
| `CleanerProperties.BmiRawSentinelsKept` | domain_cleaner.py:22-23 | raw 777 and 999 become 7.77 and 9.99 and are kept; raw 77700 and 99900 become missing |
| `CleanerProperties.TransformNotIdempotent` | domain_cleaner.py:12-32 | for any table with an 88 in POORHLTH, transforming the transformed table changes it again |
| `CleanerProperties.BmiRuleTwice` | domain_cleaner.py:22-23 | the BMI rule applied twice divides by 10000 when neither pass meets a sentinel |
| `CleanerProperties.TransformedTwice` | domain_cleaner.py:9-35 | with every read column present, two passes of the transform are two passes of the rule table, and neither fails |
| `CleanerProperties.RuleTableTwiceBmi` | domain_cleaner.py:22-23 | two passes of the rule table divide a non-sentinel _BMI5 cell by 10000 |
| `CleanerProperties.TransformTwiceRescalesBmi` | domain_cleaner.py:22-23 | transforming the transformed table divides a _BMI5 cell that meets no sentinel on either pass by 10000, not 100 |
| `Rounding.RoundHalfEven` | app.py:21 | result is within one half of the input, and even on an exact half |
| `Rounding.RoundHalfEvenUnique` | app.py:21 | those two properties determine the rounded value |
| `Rounding.RoundHalfEvenMonotone` | app.py:21 | rounding is monotone |
| `Rounding.RoundHundredths` | app.py:134 | result is within 0.005 of the input, a whole number of hundredths, and on an exact half the even hundredth |
| `Risk.ProbabilityToRisk` | app.py:20-22 | score is in [1,10]; it equals the rounded value r when r is in [1,10], 1 when r is at most 0, 10 when r exceeds 10 |
| `Risk.TierOf` | app.py:300-320 | Low if and only if risk is at most 3, Moderate if and only if 4..6, High if and only if at least 7: exhaustive and disjoint |
| `Risk.RiskMonotone` | app.py:20-22 | a higher probability never gives a lower score |
| `Risk.TierMonotone` | app.py:300-315 | a higher score never gives a lower tier |
| `Risk.TierMonotoneInProbability` | app.py:290-315 | a higher probability never gives a lower tier |
| `Risk.TierByProbability` | app.py:290-315 | Low if and only if p < 0.35, Moderate if and only if 0.35 <= p <= 0.65, High if and only if p > 0.65 |
| `Risk.ScoreExamples` | app.py:20-22 | 0.0 scores 1, 1.0 scores 10, 0.25 scores 2, 0.35 scores 4, 0.55 and 0.65 are Moderate, 0.72 scores 7 and is High |
| `Features.BodyMassIndex` | app.py:133-136 | missing if and only if the height is not positive; otherwise within 0.005 of weight over height in metres squared, a whole number of hundredths, and on an exact half the even hundredth (`round(x, 2)`) |
| `Features.TimesHundred` | app.py:272 | missing stays missing, and a value is multiplied by 100 (dividing the result by 100 gives the input back) |
| `Features.FeatureRecord` | app.py:267-288 | the twenty-field record built from the answers, `_BMI5` holding `bmi * 100`; its keys are stated by `FeatureRecordKeys`, and what cleaning makes of its values by `CleanedFormRecord` and `CleanedFormCode` |
| `Features.UserTable` | app.py:267-288 | a one-row table: every column holds one cell |
| `Features.UserTableAt` | app.py:267-288 | each column of the table holds the record's value for that name |
| `Features.FeatureRecordKeys` | app.py:267-288 | the record has exactly the twenty trained column names, which include every column the cleaner reads |
| `Features.InFormDomain` | app.py:86-258 | the ranges the form's widgets allow for each answer, used as the requires of the form lemmas |
| `Features.FormGenericCodes` | app.py:99-258 | every answer the form allows for a generic-group column is a code in 1..6 |
| `Features.FormBmiInRange` | app.py:130-136 | every weight and height the form allows gives a BMI between 5 and 200, up to rounding |
| `Features.UserTableCleans` | app.py:267-288 | cleaning the record never raises a KeyError |
| `Features.BmiRoundTrip` | app.py:272 | a one-row _BMI5 column holding `bmi * 100` is cleaned back to the BMI itself, unless it is missing or exactly 777 or 999 (then missing) |
| `Features.PoorHealthDaysRow` | app.py:174-180 | a one-row POORHLTH column holding one of the form's 0..30 days is cleaned to missing for 0 and kept for 1 to 30 |
| `Features.FormCodeKept` | app.py:99-258 | a one-row generic-group column holding a value in 1..6 comes out of the cleaner unchanged |
| `Features.FormEmployKept` | app.py:112-125 | a one-row EMPLOY1 column holding one of the form's codes 1..8 comes out of the cleaner unchanged |
| `Features.UserTableBmiAndDays` | app.py:267-288 | the table built from the answers holds every column the cleaner reads, `bmi * 100` under _BMI5, the days under POORHLTH and the employment code under EMPLOY1 |
| `Features.CleanedBmiAndDays` | domain_cleaner.py:12-23 | a one-row table with a BMI of 5 to 200 (times 100) and 0..30 days is cleaned without error, back to the BMI, with 0 days missing and 1 to 30 kept |
| `Features.CleanedFormRecord` | app.py:130-180 | for any answers the form allows, the cleaned record holds the BMI itself under _BMI5, missing for 0 days and the days for 1 to 30 under POORHLTH, and the employment code under EMPLOY1 |
| `Features.UserTableCode` | app.py:99-258 | each generic-group cell of the table built from answers the form allows is a value in 1..6 |
| `Features.CleanedFormCode` | app.py:99-258 | for any answers the form allows, every generic-group column reaches the classifier unchanged |
| `Pipeline.AssessTable` | app.py:290-291 | fails if and only if a column the cleaner reads is absent; otherwise the score is the scored classifier probability, in [1,10], with its tier |
| `Pipeline.AnswersAlwaysAssessed` | app.py:267-291 | a record built from any answers is always cleaned and scored |
| `Pipeline.SentinelScenario` | domain_cleaner.py:22-33 | GENHLTH 8, POORHLTH 88, _BMI5 2500 are cleaned to 5, 0, 25; probability 0.72 then gives score 7, tier High |

## Left out

- The Streamlit page: layout, CSS, the form widgets themselves, the gauge, the tier labels, colours and recommendation texts (app.py:13-16, 27-260, 293-384). They are presentation only. The widgets' allowed ranges are kept as `Features.InFormDomain`.
- Loading the model and `predict_proba` (app.py:18, 290). The classifier is an opaque call, so it is a parameter `Classifier` that returns the probability. `Pipeline.AssessTable` assumes that the saved model applies `DomainCleaner` before the classifier; app.py imports `domain_cleaner` for this reason.
- `Pipeline.AnswersAlwaysAssessed`: the classifier is a total function, so it is assumed never to raise; `predict_proba` could refuse its input, for example the missing value that a POORHLTH of 0 becomes, and that error is not modelled.
- Floating point. Values are exact reals. `prob * 10`, the BMI division and `round(x, 2)` are exact, and `round` is round-half-to-even on the exact value. NaN or infinite probabilities, and the error `round` raises on them, are not modelled.
- pandas mechanics: dtypes (a column turning float once NaN is written), column order, the row index, and the text of the KeyError message. The `y` argument of `fit` is ignored by the source and left out.
- `Cleaner.DomainCleaner.Transform` and the `Frames.Frame` methods have contracts about fresh or changed objects. They are proved, and they are tied to `Transformed`, whose properties are the lemmas above.
