/**
 * The survey cleaner: per-column sentinel-code rules, the step-by-step
 * transform over a copy of the table, and what that transform does to
 * each column.
 */
module Cleaner {
  import opened Cells
  import opened Frames

  const Bmi: string := "_BMI5"
  const PoorHealth: string := "POORHLTH"
  const Employ: string := "EMPLOY1"

  /** The fifteen categorical columns that share the 7/8/9 rule, in the order the cleaner lists them. */
  const GenericColumns: seq<string> := [
    "GENHLTH", "SMOKE100", "EXERANY2", "CVDCRHD4",
    "DIABETE4", "HAVARTH4", "ADDEPEV3", "CHCKDNY2", "_ASTHMS1",
    "DIFFWALK", "MARITAL", "CHCSCNC1", "CHCOCNC1", "_MENT14D", "_PHYS14D"
  ]

  /** The columns the transform reads; any other column only passes through. */
  const RequiredColumns: set<string> := {Bmi, PoorHealth, Employ} + set name | name in GenericColumns

  // ---------------------------------------------------------------------
  // Per-cell rules
  // ---------------------------------------------------------------------

  /** `X["_BMI5"] / 100`: missing stays missing. */
  function ScaleBmi(c: Cell): (r: Cell)
    ensures r.Missing? <==> c.Missing?
    ensures r.Val? ==> r.v * 100.0 == c.v
  {
    match c
    case Missing => Missing
    case Val(x) => Val(x / 100.0)
  }

  /** `.replace({777: nan, 999: nan})`, applied to the already scaled value. */
  function DropBmiSentinel(c: Cell): (r: Cell)
    ensures r == Missing <==> c == Missing || c == Val(777.0) || c == Val(999.0)
    ensures r != Missing ==> r == c
  {
    if c == Val(777.0) || c == Val(999.0) then Missing else c
  }

  /**
   * The two BMI steps one after the other. The sentinels are caught after
   * scaling, so only raw 77700 and 99900 become missing.
   */
  function CleanBmi(c: Cell): (r: Cell)
    ensures r == Missing <==> c == Missing || c == Val(77700.0) || c == Val(99900.0)
    ensures r.Val? ==> r.v * 100.0 == c.v
  {
    DropBmiSentinel(ScaleBmi(c))
  }

  /** `.replace({7: nan, 8: 5, 9: nan})`: one simultaneous substitution. */
  function CleanGeneric(c: Cell): (r: Cell)
    ensures r != Val(7.0) && r != Val(8.0) && r != Val(9.0)
    ensures r == c <==> c != Val(7.0) && c != Val(8.0) && c != Val(9.0)
    ensures r == Missing <==> c == Missing || c == Val(7.0) || c == Val(9.0)
    ensures c == Val(8.0) ==> r == Val(5.0)
  {
    if c == Val(7.0) || c == Val(9.0) then Missing
    else if c == Val(8.0) then Val(5.0)
    else c
  }

  /** The nested `clean` applied to POORHLTH: days 1..30 kept, 88 means none, all else unknown. */
  function CleanPoorHealth(c: Cell): (r: Cell)
    ensures r == Missing || r == Val(0.0) || (r.Val? && 1.0 <= r.v <= 30.0)
    ensures r == c <==> c == Missing || 1.0 <= c.v <= 30.0
    ensures r == Val(0.0) <==> c == Val(88.0)
    ensures c.Val? && !(1.0 <= c.v <= 30.0) && c.v != 88.0 ==> r == Missing
  {
    match c
    case Missing => Missing
    case Val(x) =>
      if 1.0 <= x <= 30.0 then c
      else if x == 88.0 then Val(0.0)
      else Missing
  }

  /** `.replace({9: nan})` on EMPLOY1. */
  function CleanEmploy(c: Cell): (r: Cell)
    ensures r == Missing <==> c == Missing || c == Val(9.0)
    ensures r != Missing ==> r == c
  {
    if c == Val(9.0) then Missing else c
  }

  /** The rule table: the one per-cell rule the transform applies to a column of this name. */
  function RuleFor(name: string): Cell -> Cell
  {
    if name == Bmi then CleanBmi
    else if name in GenericColumns then CleanGeneric
    else if name == PoorHealth then CleanPoorHealth
    else if name == Employ then CleanEmploy
    else c => c
  }

  // ---------------------------------------------------------------------
  // The transform, as a function of the table's columns
  // ---------------------------------------------------------------------

  /** The names in `names` that are not columns of `cols`. */
  function Absent(names: seq<string>, cols: map<string, seq<Cell>>): (r: seq<string>)
    ensures forall name :: name in r <==> name in names && name !in cols
    ensures r == [] <==> forall name :: name in names ==> name in cols
    ensures |r| <= |names|
  {
    if names == [] then []
    else if names[0] in cols then Absent(names[1..], cols)
    else [names[0]] + Absent(names[1..], cols)
  }

  /** `X[name] = X[name].<rule>`: one column replaced by its cell-wise image. */
  function ReplaceColumn(cols: map<string, seq<Cell>>, name: string, f: Cell -> Cell): (r: map<string, seq<Cell>>)
    requires name in cols
  {
    cols[name := MapColumn(cols[name], f)]
  }

  /** `X[names] = X[names].<rule>`: several columns replaced at once by their cell-wise images. */
  function ReplaceColumns(cols: map<string, seq<Cell>>, names: seq<string>, f: Cell -> Cell): (r: map<string, seq<Cell>>)
    requires forall name :: name in names ==> name in cols
  {
    cols + map name | name in names :: MapColumn(cols[name], f)
  }

  /**
   * What `transform` makes of a table with columns `cols`, step by step as
   * the source writes it: the BMI column in two steps, the generic group,
   * POORHLTH, then EMPLOY1. A step that reads an absent column raises a
   * KeyError and nothing is returned.
   */
  function Transformed(cols: map<string, seq<Cell>>): Result<map<string, seq<Cell>>, KeyError>
  {
    if Bmi !in cols then Failure(KeyError([Bmi]))
    else
      var c1 := ReplaceColumn(ReplaceColumn(cols, Bmi, ScaleBmi), Bmi, DropBmiSentinel);
      var absent := Absent(GenericColumns, c1);
      if absent != [] then Failure(KeyError(absent))
      else
        var c2 := ReplaceColumns(c1, GenericColumns, CleanGeneric);
        if PoorHealth !in c2 then Failure(KeyError([PoorHealth]))
        else
          var c3 := ReplaceColumn(c2, PoorHealth, CleanPoorHealth);
          if Employ !in c3 then Failure(KeyError([Employ]))
          else Success(ReplaceColumn(c3, Employ, CleanEmploy))
  }

  /** The independent per-field reading: every column through its rule from the table. */
  function ByRuleTable(cols: map<string, seq<Cell>>): map<string, seq<Cell>>
  {
    map name | name in cols :: MapColumn(cols[name], RuleFor(name))
  }

  // ---------------------------------------------------------------------
  // The transformer object
  // ---------------------------------------------------------------------

  /** The scikit-learn style transformer; it keeps no state. */
  class DomainCleaner {

    constructor ()
    {
    }

    /** `fit` learns nothing and hands back the transformer itself. */
    method Fit(x: Frame) returns (r: DomainCleaner)
      ensures r == this
    {
      r := this;
    }

    /**
     * `transform`: works on a copy of `x`, overwrites the copy's columns one
     * step at a time, and returns the copy; `x` itself is never changed.
     */
    method Transform(x: Frame) returns (r: Result<Frame, KeyError>)
      requires x.Valid()
      ensures unchanged(x)
      ensures r.Failure? <==> Transformed(x.columns).Failure?
      ensures r.Failure? ==> r.error == Transformed(x.columns).error
      ensures r.Success? ==> fresh(r.value) && r.value.Valid() && r.value.rows == x.rows
      ensures r.Success? ==> r.value.columns == Transformed(x.columns).value
    {
      var t := x.Copy();
      if Bmi !in t.columns {
        return Failure(KeyError([Bmi]));
      }
      t.Assign(Bmi, MapColumn(t.columns[Bmi], ScaleBmi));
      t.Assign(Bmi, MapColumn(t.columns[Bmi], DropBmiSentinel));

      var absent := Absent(GenericColumns, t.columns);
      if absent != [] {
        return Failure(KeyError(absent));
      }
      t.AssignAll(map name | name in GenericColumns :: MapColumn(t.columns[name], CleanGeneric));

      if PoorHealth !in t.columns {
        return Failure(KeyError([PoorHealth]));
      }
      t.Assign(PoorHealth, MapColumn(t.columns[PoorHealth], CleanPoorHealth));

      if Employ !in t.columns {
        return Failure(KeyError([Employ]));
      }
      t.Assign(Employ, MapColumn(t.columns[Employ], CleanEmploy));
      r := Success(t);
    }
  }
}
