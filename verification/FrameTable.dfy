/** The compressed unwinding table: `addRecord`, and the bisection of `CodeCache::findFrameDesc`. */
module FrameTable {
  import opened Bytes

  /** `FrameDesc` without its location; `cfa` packs a register and an offset. */
  datatype Rule = Rule(cfa: int, fpOff: int, pcOff: int)

  datatype Row = Row(loc: u32, rule: Rule)

  /** The rule of the last row at or below `pc`. */
  function Lookup(rows: seq<Row>, pc: u32): Option<Rule> {
    if rows == [] then None
    else if rows[|rows| - 1].loc <= pc then Some(rows[|rows| - 1].rule)
    else Lookup(rows[..|rows| - 1], pc)
  }

  predicate Ordered(rows: seq<Row>) { forall i, j | 0 <= i < j < |rows| :: rows[i].loc <= rows[j].loc }

  predicate StrictlyOrdered(rows: seq<Row>) { forall i, j | 0 <= i < j < |rows| :: rows[i].loc < rows[j].loc }

  /** One record: a row at the same location is replaced, a row with the same rule is dropped. */
  function Added(table: seq<Row>, row: Row): seq<Row> {
    if table == [] then [row]
    else
      var n := |table| - 1;
      if table[n].loc == row.loc then table[..n] + [row]
      else if table[n].rule != row.rule then table + [row]
      else table
  }

  function AllAdded(table: seq<Row>, rows: seq<Row>): seq<Row>
    decreases |rows|
  {
    if rows == [] then table else AllAdded(Added(table, rows[0]), rows[1..])
  }

  lemma {:induction false} AllAddedAppend(table: seq<Row>, a: seq<Row>, b: seq<Row>)
    ensures AllAdded(table, a + b) == AllAdded(AllAdded(table, a), b)
    decreases |a|
  {
    hide Added;
    if a == [] {
      assert a + b == b;
    } else {
      assert (a + b)[1..] == a[1..] + b && (a + b)[0] == a[0];
      AllAddedAppend(Added(table, a[0]), a[1..], b);
    }
  }

  class Builder {
    var rows: seq<Row>
    var prev: Option<nat>

    /** `_prev` points to the last row. */
    predicate Valid()
      reads this
    {
      prev == if rows == [] then None else Some(|rows| - 1)
    }

    constructor ()
      ensures Valid() && rows == []
    {
      rows, prev := [], None;
    }

    method AddRecord(loc: u32, rule: Rule)
      requires Valid()
      modifies this
      ensures Valid() && rows == Added(old(rows), Row(loc, rule))
    {
      if prev.None? {
        AddRecordRaw(loc, rule);
      } else {
        var last := rows[prev.value];
        if last.loc == loc {
          rows := rows[..|rows| - 1];
          AddRecordRaw(loc, rule);
        } else if last.rule != rule {
          AddRecordRaw(loc, rule);
        }
      }
    }

    method AddRecordRaw(loc: u32, rule: Rule)
      modifies this
      ensures Valid() && rows == old(rows) + [Row(loc, rule)]
    {
      rows := rows + [Row(loc, rule)];
      prev := Some(|rows| - 1);
    }
  }

  /** Adding a row at or behind the end answers as if the row had been appended. */
  lemma AddedLookup(table: seq<Row>, row: Row, pc: u32)
    requires StrictlyOrdered(table) && (table != [] ==> table[|table| - 1].loc <= row.loc)
    ensures StrictlyOrdered(Added(table, row)) && Added(table, row) != [] && Added(table, row)[|Added(table, row)| - 1].loc <= row.loc
    ensures Lookup(Added(table, row), pc) == Lookup(table + [row], pc)
  {
    var t := Added(table, row);
    assert (table + [row])[..|table|] == table;
    if table != [] {
      var n := |table| - 1;
      if table[n].loc == row.loc { assert (table[..n] + [row])[..n] == table[..n]; }
    }
  }

  lemma {:induction false} LookupAppend(a: seq<Row>, b: seq<Row>, pc: u32)
    ensures Lookup(a + b, pc) == if Lookup(b, pc).Some? then Lookup(b, pc) else Lookup(a, pc)
  {
    if b == [] {
      assert a + b == a;
    } else {
      var n := |b| - 1;
      assert (a + b)[..|a + b| - 1] == a + b[..n];
      LookupAppend(a, b[..n], pc);
    }
  }

  lemma {:induction false} LookupAbove(rows: seq<Row>, pc: u32)
    requires forall i | 0 <= i < |rows| :: rows[i].loc > pc
    ensures Lookup(rows, pc) == None
  {
    if rows != [] { LookupAbove(rows[..|rows| - 1], pc); }
  }

  lemma LookupSingle(row: Row, pc: u32)
    ensures Lookup([row], pc) == if row.loc <= pc then Some(row.rule) else None
  {
    assert [row][..0] == [];
  }

  lemma AddedAnswers(table: seq<Row>, row: Row, rest: seq<Row>, pc: u32)
    requires StrictlyOrdered(table) && (table != [] ==> table[|table| - 1].loc <= row.loc)
    ensures Lookup(Added(table, row) + rest, pc) == Lookup(table + ([row] + rest), pc)
  {
    AddedLookup(table, row, pc);
    hide Lookup, Added;
    LookupAppend(Added(table, row), rest, pc);
    LookupAppend(table + [row], rest, pc);
    assert table + [row] + rest == table + ([row] + rest);
  }

  /** The table and the rows still to come fit together. */
  predicate Fits(table: seq<Row>, rows: seq<Row>) {
    StrictlyOrdered(table) && Ordered(rows) && (table != [] && rows != [] ==> table[|table| - 1].loc <= rows[0].loc)
  }

  lemma AddedFits(table: seq<Row>, rows: seq<Row>, pc: u32)
    requires Fits(table, rows) && rows != []
    ensures Fits(Added(table, rows[0]), rows[1..])
  {
    AddedLookup(table, rows[0], pc);
    hide Lookup, Added;
  }

  /** For rows that come in order, the compressed table is strictly sorted and answers as the full list of rows does. */
  lemma {:induction false} CompressionIsFaithful(table: seq<Row>, rows: seq<Row>, pc: u32)
    requires Fits(table, rows)
    ensures StrictlyOrdered(AllAdded(table, rows)) && Lookup(AllAdded(table, rows), pc) == Lookup(table + rows, pc)
    decreases |rows|
  {
    if rows == [] {
      assert table + rows == table;
    } else {
      assert rows == [rows[0]] + rows[1..];
      AddedFits(table, rows, pc);
      AddedAnswers(table, rows[0], rows[1..], pc);
      hide Lookup, Added, Fits, StrictlyOrdered;
      CompressionIsFaithful(Added(table, rows[0]), rows[1..], pc);
    }
  }

  /** Out of order, a row can be dropped although a lower address needs it. */
  lemma UnorderedRowsCanBeLost(low: u32, high: u32, rule: Rule)
    requires low < high
    ensures var rows := [Row(high, rule), Row(low, rule)];
      AllAdded([], rows) == [Row(high, rule)] && Lookup(AllAdded([], rows), low).None? && Lookup([Row(low, rule), Row(high, rule)], low) == Some(rule)
  {
    var rows := [Row(high, rule), Row(low, rule)];
    assert rows[1..] == [Row(low, rule)] && rows[1..][1..] == [];
    assert Added([], rows[0]) == [Row(high, rule)];
    assert Added([Row(high, rule)], Row(low, rule)) == [Row(high, rule)];
    assert AllAdded([Row(high, rule)], rows[1..]) == AllAdded([Row(high, rule)], []);
    assert [Row(low, rule), Row(high, rule)][..1] == [Row(low, rule)];
    assert [Row(high, rule)][..0] == [];
  }

  // ------------------------------------------------------------------ searching

  datatype Frame = Entry(rule: Rule) | EmptyFrame | DefaultFrame

  /** `target - offset < size` on 32-bit words. */
  predicate InLinkageTable(target: u32, offset: u32, size: u32) { offset <= target < offset + size || target + 0x1_0000_0000 < offset + size }

  /** `findFrameDesc`: the rule of the last row at or below the target, or one of the two fixed frames. */
  method FindFrameDesc(table: seq<Row>, target: u32, pltOffset: u32, pltSize: u32) returns (frame: Frame)
    requires StrictlyOrdered(table) && |table| < 0x8000_0000
    ensures match Lookup(table, target)
      case Some(rule) => frame == Entry(rule)
      case None => frame == if InLinkageTable(target, pltOffset, pltSize) then EmptyFrame else DefaultFrame
  {
    var low, high := 0, |table| - 1;
    while low <= high
      invariant 0 <= low <= high + 1 <= |table|
      invariant forall i | 0 <= i < low :: table[i].loc < target
      invariant forall i | high < i < |table| :: table[i].loc > target
    {
      var mid := U32(low + high) / 2;
      if table[mid].loc < target {
        low := mid + 1;
      } else if table[mid].loc > target {
        high := mid - 1;
      } else {
        LookupAt(table, target, mid + 1);
        return Entry(table[mid].rule);
      }
    }
    LookupAt(table, target, low);
    if low > 0 {
      frame := Entry(table[low - 1].rule);
    } else if U32(target - pltOffset) < pltSize {
      frame := EmptyFrame;
    } else {
      frame := DefaultFrame;
    }
  }

  /** The answer is at the boundary between the rows at or below the target and those above. */
  lemma {:induction false} LookupAt(table: seq<Row>, pc: u32, n: nat)
    requires n <= |table| && (forall i | 0 <= i < n :: table[i].loc <= pc) && (forall i | n <= i < |table| :: table[i].loc > pc)
    ensures Lookup(table, pc) == if n == 0 then None else Some(table[n - 1].rule)
  {
    if n < |table| {
      LookupAt(table[..|table| - 1], pc, n);
    }
  }
}
