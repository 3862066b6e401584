/**
 * What the step-by-step transform does to each column: it agrees with the
 * per-field rule table, fails exactly when a column it reads is absent,
 * keeps the table's shape, and is not idempotent.
 */
module CleanerProperties {
  import opened Cells
  import opened Cleaner

  /** The column names the cleaner singles out are pairwise different. */
  lemma NamesDistinct()
    ensures Bmi !in GenericColumns && PoorHealth !in GenericColumns && Employ !in GenericColumns
    ensures Bmi != PoorHealth && Bmi != Employ && PoorHealth != Employ
  {
  }

  /** The rule table gives the generic rule to every generic-group column. */
  lemma RuleForGeneric(name: string)
    requires name in GenericColumns
    ensures RuleFor(name) == CleanGeneric
  {
    NamesDistinct();
  }

  /** The rule table leaves every column the cleaner does not read alone. */
  lemma RuleForOther(name: string)
    requires name !in RequiredColumns
    ensures forall c :: RuleFor(name)(c) == c
  {
  }

  /** One column replaced: the names are kept, that column is its image under the rule, and every other column is kept. */
  lemma ReplaceColumnAt(cols: map<string, seq<Cell>>, name: string, f: Cell -> Cell)
    requires name in cols
    ensures ReplaceColumn(cols, name, f).Keys == cols.Keys
    ensures forall other :: other in cols && other != name ==> ReplaceColumn(cols, name, f)[other] == cols[other]
    ensures ReplaceColumn(cols, name, f)[name] == MapColumn(cols[name], f)
  {
  }

  /** Several columns replaced at once: the names are kept, each listed column is its image, and every other column is kept. */
  lemma ReplaceColumnsAt(cols: map<string, seq<Cell>>, names: seq<string>, f: Cell -> Cell)
    requires forall name :: name in names ==> name in cols
    ensures ReplaceColumns(cols, names, f).Keys == cols.Keys
    ensures forall other :: other in cols && other !in names ==> ReplaceColumns(cols, names, f)[other] == cols[other]
    ensures forall name :: name in names ==> ReplaceColumns(cols, names, f)[name] == MapColumn(cols[name], f)
  {
  }

  /** Two per-cell passes over a column are one pass of the composed rule. */
  lemma MapColumnTwice(col: seq<Cell>, f: Cell -> Cell, g: Cell -> Cell, h: Cell -> Cell)
    requires forall c :: h(c) == g(f(c))
    ensures MapColumn(MapColumn(col, f), g) == MapColumn(col, h)
  {
    assert forall i :: 0 <= i < |col| ==> MapColumn(MapColumn(col, f), g)[i] == MapColumn(col, h)[i];
  }

  /** A column through the identity rule is the column itself. */
  lemma MapColumnIdentity(col: seq<Cell>, f: Cell -> Cell)
    requires forall c :: f(c) == c
    ensures MapColumn(col, f) == col
  {
    assert forall i :: 0 <= i < |col| ==> MapColumn(col, f)[i] == col[i];
  }

  /**
   * The success branch of `Transformed`: its five column replacements, one
   * after the other, kept apart so that proofs can use it without unfolding
   * the failure branches.
   */
  function Staged(cols: map<string, seq<Cell>>): map<string, seq<Cell>>
    requires RequiredColumns <= cols.Keys
  {
    NamesDistinct();
    var c1 := ReplaceColumn(ReplaceColumn(cols, Bmi, ScaleBmi), Bmi, DropBmiSentinel);
    var c2 := ReplaceColumns(c1, GenericColumns, CleanGeneric);
    ReplaceColumn(ReplaceColumn(c2, PoorHealth, CleanPoorHealth), Employ, CleanEmploy)
  }

  /** Each column of the staged table is its input column through that column's rule. */
  lemma StagedAt(cols: map<string, seq<Cell>>, name: string)
    requires RequiredColumns <= cols.Keys && name in cols
    ensures Staged(cols).Keys == cols.Keys
    ensures Staged(cols)[name] == MapColumn(cols[name], RuleFor(name))
  {
    NamesDistinct();
    var c0 := ReplaceColumn(cols, Bmi, ScaleBmi);
    ReplaceColumnAt(cols, Bmi, ScaleBmi);
    var c1 := ReplaceColumn(c0, Bmi, DropBmiSentinel);
    ReplaceColumnAt(c0, Bmi, DropBmiSentinel);
    var c2 := ReplaceColumns(c1, GenericColumns, CleanGeneric);
    ReplaceColumnsAt(c1, GenericColumns, CleanGeneric);
    var c3 := ReplaceColumn(c2, PoorHealth, CleanPoorHealth);
    ReplaceColumnAt(c2, PoorHealth, CleanPoorHealth);
    ReplaceColumnAt(c3, Employ, CleanEmploy);
    if name == Bmi {
      MapColumnTwice(cols[Bmi], ScaleBmi, DropBmiSentinel, CleanBmi);
    } else if name in GenericColumns {
      RuleForGeneric(name);
    } else if name == PoorHealth {
    } else if name == Employ {
    } else {
      MapColumnIdentity(cols[name], RuleFor(name));
    }
  }

  /** When every column it reads is present, the transform is the rule table applied field by field. */
  lemma {:induction false} TransformedMatchesRuleTable(cols: map<string, seq<Cell>>)
    requires RequiredColumns <= cols.Keys
    ensures Transformed(cols) == Success(ByRuleTable(cols))
  {
    NamesDistinct();
    var c1 := ReplaceColumn(ReplaceColumn(cols, Bmi, ScaleBmi), Bmi, DropBmiSentinel);
    assert Absent(GenericColumns, c1) == [];
    assert Transformed(cols) == Success(Staged(cols));
    forall name | name in cols
      ensures Staged(cols)[name] == ByRuleTable(cols)[name]
    {
      StagedAt(cols, name);
    }
    StagedAt(cols, Bmi);
    assert Staged(cols) == ByRuleTable(cols);
  }

  /** The transform fails exactly when one of the columns it reads is absent, and then it names only such columns. */
  lemma {:induction false} TransformedFailsIffColumnAbsent(cols: map<string, seq<Cell>>)
    ensures Transformed(cols).Failure? <==> !(RequiredColumns <= cols.Keys)
    ensures Transformed(cols).Failure? ==>
      var names := Transformed(cols).error.names;
      names != [] && forall name :: name in names ==> name in RequiredColumns && name !in cols
  {
    if RequiredColumns <= cols.Keys {
      TransformedMatchesRuleTable(cols);
    } else if Bmi in cols {
      var c0 := ReplaceColumn(cols, Bmi, ScaleBmi);
      ReplaceColumnAt(cols, Bmi, ScaleBmi);
      var c1 := ReplaceColumn(c0, Bmi, DropBmiSentinel);
      ReplaceColumnAt(c0, Bmi, DropBmiSentinel);
      if Absent(GenericColumns, c1) == [] {
        var c2 := ReplaceColumns(c1, GenericColumns, CleanGeneric);
        ReplaceColumnsAt(c1, GenericColumns, CleanGeneric);
        if PoorHealth in c2 {
          ReplaceColumnAt(c2, PoorHealth, CleanPoorHealth);
        }
      }
    }
  }

  /** A successful transform keeps every column, and every column keeps its length: no row is dropped. */
  lemma TransformedKeepsShape(cols: map<string, seq<Cell>>)
    requires Transformed(cols).Success?
    ensures Transformed(cols).value.Keys == cols.Keys
    ensures forall name :: name in cols ==> |Transformed(cols).value[name]| == |cols[name]|
  {
    TransformedFailsIffColumnAbsent(cols);
    TransformedMatchesRuleTable(cols);
  }

  /** Each cell of a generic-group column: 7 and 9 become missing, 8 becomes 5, anything else, missing included, is kept. */
  lemma GenericColumnCells(cols: map<string, seq<Cell>>, name: string, i: nat)
    requires Transformed(cols).Success?
    requires name in GenericColumns && name in cols && i < |cols[name]|
    ensures var c, out := cols[name][i], Transformed(cols).value[name][i];
      (c == Val(7.0) ==> out == Missing) &&
      (c == Val(9.0) ==> out == Missing) &&
      (c == Val(8.0) ==> out == Val(5.0)) &&
      (c != Val(7.0) && c != Val(8.0) && c != Val(9.0) ==> out == c)
  {
    TransformedFailsIffColumnAbsent(cols);
    TransformedMatchesRuleTable(cols);
    RuleForGeneric(name);
  }

  /** Each POORHLTH cell: missing stays missing, days 1..30 are kept, 88 becomes 0, anything else becomes missing. */
  lemma PoorHealthCells(cols: map<string, seq<Cell>>, i: nat)
    requires Transformed(cols).Success?
    requires PoorHealth in cols && i < |cols[PoorHealth]|
    ensures var c, out := cols[PoorHealth][i], Transformed(cols).value[PoorHealth][i];
      (c == Missing ==> out == Missing) &&
      (c.Val? && 1.0 <= c.v <= 30.0 ==> out == c) &&
      (c == Val(88.0) ==> out == Val(0.0)) &&
      (c.Val? && !(1.0 <= c.v <= 30.0) && c.v != 88.0 ==> out == Missing)
  {
    TransformedFailsIffColumnAbsent(cols);
    TransformedMatchesRuleTable(cols);
    NamesDistinct();
  }

  /** Each _BMI5 cell is divided by 100; only a scaled result of exactly 777 or 999 becomes missing. */
  lemma BmiCells(cols: map<string, seq<Cell>>, i: nat)
    requires Transformed(cols).Success?
    requires Bmi in cols && i < |cols[Bmi]|
    ensures var c, out := cols[Bmi][i], Transformed(cols).value[Bmi][i];
      out == if c.Val? && c.v / 100.0 != 777.0 && c.v / 100.0 != 999.0 then Val(c.v / 100.0) else Missing
  {
    TransformedFailsIffColumnAbsent(cols);
    TransformedMatchesRuleTable(cols);
  }

  /** Each EMPLOY1 cell: 9 becomes missing, every other value is kept. */
  lemma EmployCells(cols: map<string, seq<Cell>>, i: nat)
    requires Transformed(cols).Success?
    requires Employ in cols && i < |cols[Employ]|
    ensures var c, out := cols[Employ][i], Transformed(cols).value[Employ][i];
      out == if c == Val(9.0) then Missing else c
  {
    TransformedFailsIffColumnAbsent(cols);
    TransformedMatchesRuleTable(cols);
    NamesDistinct();
  }

  /** Columns the cleaner does not name, such as _SEX and _AGE80, come out as they went in. */
  lemma OtherColumnsUnchanged(cols: map<string, seq<Cell>>, name: string)
    requires Transformed(cols).Success?
    requires name in cols && name !in RequiredColumns
    ensures Transformed(cols).value[name] == cols[name]
  {
    TransformedFailsIffColumnAbsent(cols);
    TransformedMatchesRuleTable(cols);
    RuleForOther(name);
    MapColumnIdentity(cols[name], RuleFor(name));
  }

  /** A column whose every cell is already a fixed point of its rule comes out unchanged. */
  lemma FixedColumnUnchanged(cols: map<string, seq<Cell>>, name: string)
    requires Transformed(cols).Success?
    requires name in cols
    requires forall i :: 0 <= i < |cols[name]| ==> RuleFor(name)(cols[name][i]) == cols[name][i]
    ensures Transformed(cols).value[name] == cols[name]
  {
    TransformedFailsIffColumnAbsent(cols);
    TransformedMatchesRuleTable(cols);
    assert MapColumn(cols[name], RuleFor(name)) == cols[name];
  }

  /** The generic rule is idempotent. */
  lemma GenericRuleIdempotent(c: Cell)
    ensures CleanGeneric(CleanGeneric(c)) == CleanGeneric(c)
  {
  }

  /** Reapplying `clean` changes its result exactly when the input was 88: 88 becomes 0, and 0 then becomes missing. */
  lemma PoorHealthReapplied(c: Cell)
    ensures CleanPoorHealth(CleanPoorHealth(c)) == CleanPoorHealth(c) <==> c != Val(88.0)
  {
  }

  /** EMPLOY1's rule is idempotent. */
  lemma EmployRuleIdempotent(c: Cell)
    ensures CleanEmploy(CleanEmploy(c)) == CleanEmploy(c)
  {
  }

  /** Raw 777 and 999 are not caught as sentinels: they scale to 7.77 and 9.99 and are kept. */
  lemma BmiRawSentinelsKept()
    ensures CleanBmi(Val(777.0)) == Val(7.77)
    ensures CleanBmi(Val(999.0)) == Val(9.99)
    ensures CleanBmi(Val(77700.0)) == Missing && CleanBmi(Val(99900.0)) == Missing
  {
  }

  /**
   * Transforming an already transformed table changes it again whenever
   * POORHLTH holds an 88: the transform is not idempotent.
   */
  lemma {:induction false} TransformNotIdempotent(cols: map<string, seq<Cell>>, i: nat)
    requires RequiredColumns <= cols.Keys
    requires i < |cols[PoorHealth]| && cols[PoorHealth][i] == Val(88.0)
    ensures Transformed(cols).Success?
    ensures Transformed(Transformed(cols).value) != Transformed(cols)
  {
    NamesDistinct();
    TransformedMatchesRuleTable(cols);
    var once := ByRuleTable(cols);
    assert once.Keys == cols.Keys;
    assert once[PoorHealth] == MapColumn(cols[PoorHealth], CleanPoorHealth);
    assert once[PoorHealth][i] == Val(0.0);
    TransformedMatchesRuleTable(once);
    var twice := ByRuleTable(once);
    assert twice[PoorHealth] == MapColumn(once[PoorHealth], CleanPoorHealth);
    assert twice[PoorHealth][i] == Missing;
    assert twice != once;
  }

  /** The BMI rule applied twice divides by 10000, when neither pass meets a sentinel. */
  lemma BmiRuleTwice(c: Cell)
    requires c.Val? && c.v != 77700.0 && c.v != 99900.0 && c.v != 7770000.0 && c.v != 9990000.0
    ensures CleanBmi(CleanBmi(c)) == Val(c.v / 10000.0)
  {
  }

  /** When every read column is present, two passes of the transform are two passes of the rule table. */
  lemma TransformedTwice(cols: map<string, seq<Cell>>)
    requires RequiredColumns <= cols.Keys
    ensures Transformed(cols) == Success(ByRuleTable(cols))
    ensures Transformed(ByRuleTable(cols)) == Success(ByRuleTable(ByRuleTable(cols)))
  {
    TransformedMatchesRuleTable(cols);
    assert ByRuleTable(cols).Keys == cols.Keys;
    TransformedMatchesRuleTable(ByRuleTable(cols));
  }

  /** Two passes of the rule table over a _BMI5 cell that meets no sentinel divide it by 10000. */
  lemma RuleTableTwiceBmi(cols: map<string, seq<Cell>>, i: nat)
    requires Bmi in cols && i < |cols[Bmi]| && cols[Bmi][i].Val?
    requires var x := cols[Bmi][i].v; x != 77700.0 && x != 99900.0 && x != 7770000.0 && x != 9990000.0
    ensures ByRuleTable(ByRuleTable(cols))[Bmi][i] == Val(cols[Bmi][i].v / 10000.0)
  {
    var once := ByRuleTable(cols);
    assert once[Bmi][i] == CleanBmi(cols[Bmi][i]);
    assert ByRuleTable(once)[Bmi][i] == CleanBmi(once[Bmi][i]);
    BmiRuleTwice(cols[Bmi][i]);
  }

  /**
   * A second pass divides _BMI5 by 100 once more: a cell `x` that is none
   * of the sentinels on either pass comes out of two passes as `x / 10000`.
   */
  lemma TransformTwiceRescalesBmi(cols: map<string, seq<Cell>>, i: nat)
    requires RequiredColumns <= cols.Keys
    requires i < |cols[Bmi]| && cols[Bmi][i].Val?
    requires var x := cols[Bmi][i].v; x != 77700.0 && x != 99900.0 && x != 7770000.0 && x != 9990000.0
    ensures var once := ByRuleTable(cols);
      && Transformed(cols) == Success(once)
      && Transformed(once) == Success(ByRuleTable(once))
      && ByRuleTable(once)[Bmi][i] == Val(cols[Bmi][i].v / 10000.0)
  {
    TransformedTwice(cols);
    RuleTableTwiceBmi(cols, i);
  }
}
