/** A table of named columns of equal length, updated in place column by column. */
module Frames {
  import opened Cells

  class Frame {
    var columns: map<string, seq<Cell>>
    var rows: nat

    /** Every column holds exactly one cell per row. */
    ghost predicate Valid()
      reads this
    {
      forall name :: name in columns ==> |columns[name]| == rows
    }

    constructor (columns: map<string, seq<Cell>>, rows: nat)
      requires forall name :: name in columns ==> |columns[name]| == rows
      ensures Valid() && this.columns == columns && this.rows == rows
    {
      this.columns := columns;
      this.rows := rows;
    }

    /** A new table with the same columns and rows; later updates to it leave this one alone. */
    method Copy() returns (c: Frame)
      requires Valid()
      ensures fresh(c) && c.Valid()
      ensures c.columns == columns && c.rows == rows
    {
      c := new Frame(columns, rows);
    }

    /** `frame[name] = col`: replaces the column, or adds it when absent. */
    method Assign(name: string, col: seq<Cell>)
      requires Valid() && |col| == rows
      modifies this
      ensures Valid() && rows == old(rows)
      ensures columns == old(columns)[name := col]
    {
      columns := columns[name := col];
    }

    /** `frame[names] = ...`: replaces several columns at once. */
    method AssignAll(update: map<string, seq<Cell>>)
      requires Valid()
      requires forall name :: name in update ==> |update[name]| == rows
      modifies this
      ensures Valid() && rows == old(rows)
      ensures columns == old(columns) + update
    {
      columns := columns + update;
    }
  }
}
