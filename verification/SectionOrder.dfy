/**
 Entries in any order, as in `.debug_frame`: rows are compressed as they come and sorted afterwards. Exactly when the
 sorted table still answers as the entries do.
 */
module SectionOrder {
  import opened Bytes
  import opened FrameTable

  /** `rows` of one entry after the other. */
  function Concat(groups: seq<seq<Row>>): seq<Row> {
    if groups == [] then [] else Concat(groups[..|groups| - 1]) + groups[|groups| - 1]
  }

  predicate Before(a: seq<Row>, b: seq<Row>) { forall i, j | 0 <= i < |a| && 0 <= j < |b| :: a[i].loc < b[j].loc }

  /** The rows of an entry are in order, and entries do not overlap. */
  predicate Entries(groups: seq<seq<Row>>) {
    && (forall k | 0 <= k < |groups| :: groups[k] != [] && Ordered(groups[k]))
    && (forall i, j | 0 <= i < j < |groups| :: Before(groups[i], groups[j]) || Before(groups[j], groups[i]))
  }

  /** The entry that starts last at or below `pc`. */
  function Cover(groups: seq<seq<Row>>, pc: u32): (c: Option<nat>)
    requires forall k | 0 <= k < |groups| :: groups[k] != []
    ensures c.Some? ==> c.value < |groups| && groups[c.value][0].loc <= pc
    ensures c.Some? ==> forall k | 0 <= k < |groups| && groups[k][0].loc <= pc :: groups[k][0].loc <= groups[c.value][0].loc
    ensures c.None? ==> forall k | 0 <= k < |groups| :: groups[k][0].loc > pc
  {
    if groups == [] then None
    else
      var n := |groups| - 1;
      var c := Cover(groups[..n], pc);
      if groups[n][0].loc <= pc && (c.None? || groups[c.value][0].loc <= groups[n][0].loc) then Some(n) else c
  }

  /** The right answer: the last row at or below `pc` of that entry. */
  function Reference(groups: seq<seq<Row>>, pc: u32): Option<Rule>
    requires forall k | 0 <= k < |groups| :: groups[k] != []
  {
    match Cover(groups, pc)
    case None => None
    case Some(c) => Lookup(groups[c], pc)
  }

  // ------------------------------------------------------------------ tables in any order

  /** The row with the highest location at or below `pc`. */
  function Best(rows: seq<Row>, pc: u32): Option<Row> {
    if rows == [] then None
    else
      var n := |rows| - 1;
      var b := Best(rows[..n], pc);
      if rows[n].loc <= pc && (b.None? || b.value.loc <= rows[n].loc) then Some(rows[n]) else b
  }

  function BestRule(rows: seq<Row>, pc: u32): Option<Rule> { if Best(rows, pc).Some? then Some(Best(rows, pc).value.rule) else None }

  predicate Highest(rows: seq<Row>, row: Row, pc: u32) { row in rows && row.loc <= pc && forall x | x in rows && x.loc <= pc :: x.loc <= row.loc }

  lemma {:induction false} BestIs(rows: seq<Row>, pc: u32)
    ensures Best(rows, pc).Some? ==> Highest(rows, Best(rows, pc).value, pc)
    ensures Best(rows, pc).None? ==> forall x | x in rows :: x.loc > pc
  {
    if rows != [] {
      var n := |rows| - 1;
      BestIs(rows[..n], pc);
      assert rows == rows[..n] + [rows[n]];
    }
  }

  predicate Distinct(rows: seq<Row>) { forall i, j | 0 <= i < j < |rows| :: rows[i].loc != rows[j].loc }

  /** Among rows at different places there is one answer. */
  lemma BestUnique(rows: seq<Row>, row: Row, pc: u32)
    requires Distinct(rows) && Highest(rows, row, pc)
    ensures Best(rows, pc) == Some(row)
  {
    BestIs(rows, pc);
    var b := Best(rows, pc);
    assert b.Some?;
    assert b.value in rows && row in rows && b.value.loc == row.loc;
  }

  /** `comparator` on locations: the difference as a 32-bit integer. */
  function Compare(a: u32, b: u32): int { S32(U32(a - b)) }

  /** It orders two locations exactly if they are less than 2^31 apart. */
  lemma CompareExact(a: u32, b: u32)
    ensures (Compare(a, b) < 0 <==> a < b) <==> -0x8000_0000 < b - a <= 0x8000_0000
  {
  }

  /** `t` has the rows at other places: row `p[i]` at place `i`. */
  predicate Rearranged(t: seq<Row>, rows: seq<Row>, p: seq<nat>) {
    && |t| == |rows| == |p|
    && (forall i | 0 <= i < |p| :: p[i] < |rows| && t[i] == rows[p[i]])
    && (forall i, j | 0 <= i < j < |p| :: p[i] != p[j])
    && (forall k | 0 <= k < |rows| :: k in p)
  }

  /** A result of `qsort`. */
  predicate SortedBy(t: seq<Row>, rows: seq<Row>, p: seq<nat>) {
    Rearranged(t, rows, p) && forall i, j | 0 <= i < j < |t| :: Compare(t[i].loc, t[j].loc) <= 0
  }

  lemma {:induction false} OrderedLookup(t: seq<Row>, pc: u32)
    requires StrictlyOrdered(t)
    ensures Lookup(t, pc) == BestRule(t, pc)
  {
    if t != [] {
      var n := |t| - 1;
      OrderedLookup(t[..n], pc);
      BestIs(t[..n], pc);
      hide Lookup, Best;
      LookupLast(t, pc);
      BestLast(t, pc);
    }
  }

  lemma LookupLast(t: seq<Row>, pc: u32)
    requires t != []
    ensures Lookup(t, pc) == if t[|t| - 1].loc <= pc then Some(t[|t| - 1].rule) else Lookup(t[..|t| - 1], pc)
  {
  }

  lemma BestLast(t: seq<Row>, pc: u32)
    requires t != [] && (Best(t[..|t| - 1], pc).Some? ==> Best(t[..|t| - 1], pc).value.loc <= t[|t| - 1].loc)
    ensures Best(t, pc) == if t[|t| - 1].loc <= pc then Some(t[|t| - 1]) else Best(t[..|t| - 1], pc)
  {
  }

  lemma SortedStrictly(t: seq<Row>, rows: seq<Row>, p: seq<nat>)
    requires SortedBy(t, rows, p) && Distinct(rows) && forall i | 0 <= i < |rows| :: rows[i].loc < 0x8000_0000
    ensures StrictlyOrdered(t) && forall x :: x in t <==> x in rows
  {
    forall x | x in rows ensures x in t {
      var k :| 0 <= k < |rows| && rows[k] == x;
      assert k in p;
      var i :| 0 <= i < |p| && p[i] == k;
      assert t[i] == x;
    }
  }

  /** The sorted table is searched as if the highest row were picked. */
  lemma SortedLookup(t: seq<Row>, rows: seq<Row>, p: seq<nat>, pc: u32)
    requires SortedBy(t, rows, p) && Distinct(rows) && forall i | 0 <= i < |rows| :: rows[i].loc < 0x8000_0000
    ensures StrictlyOrdered(t) && Lookup(t, pc) == BestRule(rows, pc)
  {
    SortedStrictly(t, rows, p);
    OrderedLookup(t, pc);
    BestIs(t, pc);
    BestIs(rows, pc);
    hide Best, Lookup, SortedBy, Compare;
    if Best(t, pc).Some? { BestUnique(rows, Best(t, pc).value, pc); }
  }

  // ------------------------------------------------------------------ what compression drops

  /** All rows at the first location have this rule. */
  predicate Begins(group: seq<Row>, rule: Rule) { forall i | 0 <= i < |group| && group[i].loc == group[0].loc :: group[i].rule == rule }

  /** The first row of entry `k` is dropped: it repeats the last rule of the entry before it in the section. */
  predicate Drops(groups: seq<seq<Row>>, k: nat)
    requires k < |groups| && forall j | 0 <= j < |groups| :: groups[j] != []
  {
    k > 0 && Begins(groups[k], groups[k - 1][|groups[k - 1]| - 1].rule)
  }

  function KeptRows(groups: seq<seq<Row>>, k: nat): seq<Row>
    requires k < |groups| && forall j | 0 <= j < |groups| :: groups[j] != []
  {
    var g := AllAdded([], groups[k]);
    if Drops(groups, k) && g != [] then g[1..] else g
  }

  lemma AddedBehind(t: seq<Row>, s: seq<Row>, row: Row)
    requires s != []
    ensures Added(t + s, row) == t + Added(s, row) && Added(s, row) != []
  {
  }

  lemma {:induction false} AllAddedBehind(t: seq<Row>, s: seq<Row>, rows: seq<Row>)
    requires s != []
    ensures AllAdded(t + s, rows) == t + AllAdded(s, rows) && AllAdded(s, rows) != []
    decreases |rows|
  {
    if rows != [] {
      AddedBehind(t, s, rows[0]);
      AllAddedBehind(t, Added(s, rows[0]), rows[1..]);
      hide Added;
    }
  }

  predicate Elsewhere(loc: u32, rows: seq<Row>) { forall i | 0 <= i < |rows| :: rows[i].loc != loc }

  /** After two rows with the same rule, the rest is added alike. */
  lemma {:induction false} SameRuleBefore(table: seq<Row>, x: Row, rows: seq<Row>)
    requires table != [] && table[|table| - 1].rule == x.rule && Elsewhere(table[|table| - 1].loc, rows) && Elsewhere(x.loc, rows)
    ensures AllAdded([x], rows) != [] && AllAdded(table, rows) == table + AllAdded([x], rows)[1..]
    decreases |rows|
  {
    if rows != [] {
      if rows[0].rule == x.rule {
        SameRuleBefore(table, x, rows[1..]);
      } else {
        AllAddedBehind(table, [rows[0]], rows[1..]);
        AllAddedBehind([x], [rows[0]], rows[1..]);
        assert Added([x], rows[0]) == [x] + [rows[0]];
        assert Added(table, rows[0]) == table + [rows[0]];
      }
    }
  }

  /** A whole entry behind a table: its rows are added, but for the first if that repeats the table's last rule. */
  lemma {:induction false} GroupAdded(table: seq<Row>, g: seq<Row>)
    requires table != [] && g != [] && Ordered(g) && Elsewhere(table[|table| - 1].loc, g)
    ensures AllAdded([], g) != []
    ensures AllAdded(table, g) == table + (if Begins(g, table[|table| - 1].rule) then AllAdded([], g)[1..] else AllAdded([], g))
    decreases |g|
  {
    var rule, rest := table[|table| - 1].rule, g[1..];
    assert AllAdded([], g) == AllAdded([g[0]], rest);
    AllAddedBehind([], [g[0]], rest);
    assert [] + [g[0]] == [g[0]];
    if g[0].rule != rule {
      AllAddedBehind(table, [g[0]], rest);
    } else if rest == [] {
      assert AllAdded([g[0]], rest) == [g[0]];
    } else if rest[0].loc == g[0].loc {
      assert Added([g[0]], rest[0]) == [rest[0]];
      GroupAdded(table, rest);
      BeginsOn(g, rule);
    } else {
      SameRuleBefore(table, g[0], rest);
      assert Begins(g, rule);
    }
  }

  lemma BeginsOn(g: seq<Row>, rule: Rule)
    requires |g| >= 2 && g[1].loc == g[0].loc && g[0].rule == rule
    ensures Begins(g, rule) <==> Begins(g[1..], rule)
  {
    if Begins(g[1..], rule) {
      forall i | 0 <= i < |g| && g[i].loc == g[0].loc ensures g[i].rule == rule { if i > 0 { assert g[1..][i - 1] == g[i]; } }
    }
  }

  // ------------------------------------------------------------------ the table of all entries

  function Kept(groups: seq<seq<Row>>): seq<seq<Row>>
    requires forall j | 0 <= j < |groups| :: groups[j] != []
  {
    seq(|groups|, k requires 0 <= k < |groups| => KeptRows(groups, k))
  }

  lemma {:induction false} AddedMembers(table: seq<Row>, rows: seq<Row>, x: Row)
    requires x in AllAdded(table, rows)
    ensures x in table || x in rows
    decreases |rows|
  {
    if rows != [] { AddedMembers(Added(table, rows[0]), rows[1..], x); }
  }

  lemma {:induction false} AddedLast(table: seq<Row>, rows: seq<Row>)
    requires rows != []
    ensures AllAdded(table, rows) != [] && AllAdded(table, rows)[|AllAdded(table, rows)| - 1].rule == rows[|rows| - 1].rule
    decreases |rows|
  {
    if |rows| == 1 {
      assert rows[1..] == [];
    } else {
      AddedLast(Added(table, rows[0]), rows[1..]);
    }
  }

  lemma {:induction false} InConcat(groups: seq<seq<Row>>, x: Row)
    ensures x in Concat(groups) <==> exists k :: 0 <= k < |groups| && x in groups[k]
  {
    if groups != [] {
      var n := |groups| - 1;
      InConcat(groups[..n], x);
      assert groups[..n] + [groups[n]] == groups;
      if x in Concat(groups[..n]) {
        var k :| 0 <= k < n && x in groups[..n][k];
        assert x in groups[k];
      }
      if exists k :: 0 <= k < |groups| && x in groups[k] {
        var k :| 0 <= k < |groups| && x in groups[k];
        if k < n { assert x in groups[..n][k]; }
      }
    }
  }

  lemma FirstEntries(groups: seq<seq<Row>>, n: nat)
    requires Entries(groups) && n <= |groups|
    ensures Entries(groups[..n]) && forall k | 0 <= k < n :: KeptRows(groups[..n], k) == KeptRows(groups, k)
  {
    hide Before, Ordered, Begins;
  }

  /** The table is what is kept of each entry. */
  lemma {:induction false} TableIs(groups: seq<seq<Row>>)
    requires Entries(groups)
    ensures AllAdded([], Concat(groups)) == Concat(Kept(groups))
  {
    hide AllAdded, Entries, Kept, KeptRows;
    EntriesParts(groups);
    KeptSnoc(groups);
    if groups != [] {
      var n := |groups| - 1;
      FirstEntries(groups, n);
      TableIs(groups[..n]);
      AllAddedAppend([], Concat(groups[..n]), groups[n]);
      GroupKept(groups, n);
    } else {
      NothingAdded();
    }
  }

  lemma NothingAdded()
    ensures AllAdded([], []) == []
  {
  }

  /** Keeping works entry by entry. */
  lemma KeptSnoc(groups: seq<seq<Row>>)
    requires Entries(groups)
    ensures |Kept(groups)| == |groups|
    ensures groups != [] ==>
              var n := |groups| - 1; Entries(groups[..n]) && Kept(groups)[..n] == Kept(groups[..n]) && Kept(groups)[n] == KeptRows(groups, n)
  {
    hide KeptRows, Before, Ordered;
    if groups != [] {
      var n := |groups| - 1;
      FirstEntries(groups, n);
      assert Kept(groups)[..n] == Kept(groups[..n]);
    }
  }

  lemma GroupKept(groups: seq<seq<Row>>, n: nat)
    requires Entries(groups) && n < |groups|
    ensures var before := AllAdded([], Concat(groups[..n])); AllAdded(before, groups[n]) == before + KeptRows(groups, n)
  {
    var g, before := groups[n], AllAdded([], Concat(groups[..n]));
    if n > 0 {
      LastAdded(groups, n);
      hide AllAdded, Concat, Before, Ordered, Begins;
      GroupAdded(before, g);
    } else {
      assert groups[..n] == [] && before == [];
    }
  }

  lemma LastAdded(groups: seq<seq<Row>>, n: nat)
    requires Entries(groups) && 0 < n < |groups|
    ensures var table := AllAdded([], Concat(groups[..n]));
      && table != [] && table[|table| - 1].rule == groups[n - 1][|groups[n - 1]| - 1].rule
      && Elsewhere(table[|table| - 1].loc, groups[n])
  {
    var first := groups[..n];
    var table := AllAdded([], Concat(first));
    assert Concat(first) == Concat(first[..n - 1]) + groups[n - 1];
    AddedLast([], Concat(first));
    var x := table[|table| - 1];
    AddedMembers([], Concat(first), x);
    InConcat(first, x);
    var k :| 0 <= k < |first| && x in first[k];
    hide AllAdded, Concat;
    assert Before(groups[k], groups[n]) || Before(groups[n], groups[k]);
  }

  lemma {:induction false} FirstKept(x: Row, rows: seq<Row>)
    requires Ordered(rows) && forall i | 0 <= i < |rows| :: x.loc <= rows[i].loc
    ensures AllAdded([x], rows) != [] && AllAdded([x], rows)[0].loc == x.loc
    ensures (forall i | 0 <= i < |rows| && rows[i].loc == x.loc :: rows[i].rule == x.rule) ==> AllAdded([x], rows)[0].rule == x.rule
    decreases |rows|
  {
    if rows != [] {
      var y, rest := rows[0], rows[1..];
      if x.loc == y.loc {
        assert Added([x], y) == [y];
        FirstKept(y, rest);
      } else if x.rule != y.rule {
        assert Added([x], y) == [x] + [y];
        AllAddedBehind([x], [y], rest);
      } else {
        FirstKept(x, rest);
      }
    }
  }

  lemma FirstRow(g: seq<Row>, rule: Rule)
    requires g != [] && Ordered(g)
    ensures AllAdded([], g) != [] && AllAdded([], g)[0].loc == g[0].loc
    ensures Begins(g, rule) ==> AllAdded([], g)[0].rule == rule && g[0].rule == rule
  {
    assert AllAdded([], g) == AllAdded([g[0]], g[1..]);
    hide AllAdded;
    FirstKept(g[0], g[1..]);
  }

  lemma KeptMembers(groups: seq<seq<Row>>, k: nat)
    requires Entries(groups) && k < |groups|
    ensures StrictlyOrdered(KeptRows(groups, k)) && forall x | x in KeptRows(groups, k) :: x in groups[k]
  {
    var g := AllAdded([], groups[k]);
    CompressionIsFaithful([], groups[k], 0);
    forall x | x in g ensures x in groups[k] { AddedMembers([], groups[k], x); }
    hide AllAdded, Before, Begins, Lookup;
  }

  /** What the kept rows of an entry answer. */
  lemma KeptAnswers(groups: seq<seq<Row>>, k: nat, pc: u32)
    requires Entries(groups) && k < |groups| && groups[k][0].loc <= pc
    ensures Lookup(KeptRows(groups, k), pc).Some? ==> Lookup(KeptRows(groups, k), pc) == Lookup(groups[k], pc)
    ensures Lookup(KeptRows(groups, k), pc).None? ==> Drops(groups, k) && Lookup(groups[k], pc) == Some(groups[k][0].rule)
    ensures Drops(groups, k) && pc == groups[k][0].loc ==> Lookup(KeptRows(groups, k), pc).None? && Lookup(groups[k], pc) == Some(groups[k][0].rule)
  {
    var g, rule := AllAdded([], groups[k]), if k > 0 then groups[k - 1][|groups[k - 1]| - 1].rule else groups[k][0].rule;
    CompressionIsFaithful([], groups[k], pc);
    assert [] + groups[k] == groups[k];
    LookupFirst(groups[k], pc);
    FirstRow(groups[k], rule);
    hide AllAdded, Lookup, Before, Begins, Entries;
    RestLookup(g, pc);
  }

  lemma RestLookup(g: seq<Row>, pc: u32)
    requires g != [] && g[0].loc <= pc && StrictlyOrdered(g)
    ensures Lookup(g, pc) == if Lookup(g[1..], pc).Some? then Lookup(g[1..], pc) else Some(g[0].rule)
    ensures pc == g[0].loc ==> Lookup(g[1..], pc).None?
  {
    hide Lookup;
    assert g == [g[0]] + g[1..];
    LookupAppend([g[0]], g[1..], pc);
    LookupSingle(g[0], pc);
    if pc == g[0].loc { LookupAbove(g[1..], pc); }
  }

  lemma {:induction false} LookupFirst(rows: seq<Row>, pc: u32)
    requires rows != [] && rows[0].loc <= pc
    ensures Lookup(rows, pc).Some?
  {
    if |rows| > 1 { LookupFirst(rows[..|rows| - 1], pc); }
  }

  // ------------------------------------------------------------------ exactly

  lemma {:induction false} ConcatDistinct(ks: seq<seq<Row>>)
    requires forall k | 0 <= k < |ks| :: StrictlyOrdered(ks[k])
    requires forall i, j | 0 <= i < j < |ks| :: Before(ks[i], ks[j]) || Before(ks[j], ks[i])
    ensures Distinct(Concat(ks))
  {
    if ks != [] {
      var n := |ks| - 1;
      var a, b := Concat(ks[..n]), ks[n];
      ConcatDistinct(ks[..n]);
      forall i, j | 0 <= i < |a| && 0 <= j < |b| ensures a[i].loc != b[j].loc {
        InConcat(ks[..n], a[i]);
        var k :| 0 <= k < n && a[i] in ks[..n][k];
        assert Before(ks[k], b) || Before(b, ks[k]);
      }
      hide Concat;
    }
  }

  lemma KeptDistinct(groups: seq<seq<Row>>)
    requires Entries(groups)
    ensures Distinct(Concat(Kept(groups)))
  {
    var ks := Kept(groups);
    forall k | 0 <= k < |ks| ensures StrictlyOrdered(ks[k]) && forall x | x in ks[k] :: x in groups[k] { KeptMembers(groups, k); }
    hide KeptRows, Ordered;
    forall i, j | 0 <= i < j < |ks| ensures Before(ks[i], ks[j]) || Before(ks[j], ks[i]) {
      assert Before(groups[i], groups[j]) || Before(groups[j], groups[i]);
      SubBefore(groups[i], groups[j], ks[i], ks[j]);
      SubBefore(groups[j], groups[i], ks[j], ks[i]);
    }
    ConcatDistinct(ks);
  }

  lemma SubBefore(a: seq<Row>, b: seq<Row>, a': seq<Row>, b': seq<Row>)
    requires (forall x | x in a' :: x in a) && (forall x | x in b' :: x in b)
    ensures Before(a, b) ==> Before(a', b')
  {
    if Before(a, b) {
      forall i, j | 0 <= i < |a'| && 0 <= j < |b'| ensures a'[i].loc < b'[j].loc {
        assert a'[i] in a && b'[j] in b;
      }
    }
  }

  lemma FirstBefore(a: seq<Row>, b: seq<Row>)
    requires a != [] && b != []
    ensures Before(a, b) ==> a[0].loc < b[0].loc
  {
  }

  /** A row at or below `pc` that is not of the covering entry lies below that entry. */
  lemma BelowCover(groups: seq<seq<Row>>, pc: u32, k: nat, x: Row)
    requires Entries(groups) && Cover(groups, pc).Some? && k < |groups| && k != Cover(groups, pc).value && x in groups[k] && x.loc <= pc
    ensures forall y | y in groups[Cover(groups, pc).value] :: x.loc < y.loc
  {
    var c := Cover(groups, pc).value;
    hide Cover;
    assert Before(groups[c], groups[k]) || Before(groups[k], groups[c]);
    var i :| 0 <= i < |groups[k]| && groups[k][i] == x;
    assert groups[k][0].loc <= x.loc;
    FirstBefore(groups[c], groups[k]);
  }

  /** The table's answer is that of the covering entry's kept rows, or else that of the address below the entry. */
  lemma TableAnswer(groups: seq<seq<Row>>, pc: u32)
    requires Entries(groups) && Cover(groups, pc).Some?
    ensures var c := Cover(groups, pc).value; var table := Concat(Kept(groups)); var start := groups[c][0].loc;
      BestRule(table, pc) ==
        if Lookup(KeptRows(groups, c), pc).Some? then Lookup(KeptRows(groups, c), pc)
        else if start == 0 then None
        else BestRule(table, start - 1)
  {
    hide Cover, Entries, Kept, KeptRows, Concat, Best, Lookup, Distinct, StrictlyOrdered;
    EntriesParts(groups);
    var c, table := Cover(groups, pc).value, Concat(Kept(groups));
    var ks, start := KeptRows(groups, c), groups[c][0].loc;
    KeptDistinct(groups);
    KeptMembers(groups, c);
    OrderedLookup(ks, pc);
    BestIs(ks, pc);
    forall x | x in table && x.loc <= pc ensures x in ks || forall y | y in groups[c] :: x.loc < y.loc { CoverSplit(groups, pc, x); }
    if Best(ks, pc).Some? {
      var b := Best(ks, pc).value;
      InTable(groups, c, b);
      BestUnique(table, b, pc);
    } else {
      NoneOfCover(table, groups[c], ks, pc, start);
    }
  }

  lemma EntriesParts(groups: seq<seq<Row>>)
    requires Entries(groups)
    ensures forall k | 0 <= k < |groups| :: groups[k] != []
  {
  }

  lemma CoverSplit(groups: seq<seq<Row>>, pc: u32, x: Row)
    requires Entries(groups) && Cover(groups, pc).Some? && x in Concat(Kept(groups)) && x.loc <= pc
    ensures var c := Cover(groups, pc).value; x in KeptRows(groups, c) || forall y | y in groups[c] :: x.loc < y.loc
  {
    TableRow(groups, x);
    var k :| 0 <= k < |groups| && x in KeptRows(groups, k) && x in groups[k];
    hide Cover, Kept, KeptRows, Concat;
    if k != Cover(groups, pc).value { BelowCover(groups, pc, k, x); }
  }

  lemma TableRow(groups: seq<seq<Row>>, x: Row)
    requires Entries(groups) && x in Concat(Kept(groups))
    ensures exists k :: 0 <= k < |groups| && x in KeptRows(groups, k) && x in groups[k]
  {
    InConcat(Kept(groups), x);
    hide Concat, KeptRows;
    var k :| 0 <= k < |Kept(groups)| && x in Kept(groups)[k];
    KeptMembers(groups, k);
  }

  lemma InTable(groups: seq<seq<Row>>, c: nat, x: Row)
    requires Entries(groups) && c < |groups| && x in KeptRows(groups, c)
    ensures x in Concat(Kept(groups))
  {
    InConcat(Kept(groups), x);
    hide Concat, KeptRows;
    assert x in Kept(groups)[c];
  }

  lemma NoneOfCover(table: seq<Row>, g: seq<Row>, ks: seq<Row>, pc: u32, start: u32)
    requires g != [] && g[0].loc == start <= pc && Distinct(table) && (forall x | x in ks :: x.loc > pc)
    requires forall x | x in table && x.loc <= pc :: x in ks || forall y | y in g :: x.loc < y.loc
    ensures BestRule(table, pc) == if start == 0 then None else BestRule(table, start - 1)
  {
    BestIs(table, pc);
    hide Best, Distinct;
    assert g[0] in g;
    if Best(table, pc).Some? {
      var b := Best(table, pc).value;
      assert b.loc < start;
      BestUnique(table, b, start - 1);
    } else if start > 0 {
      BestIs(table, start - 1);
    }
  }

  /** A dropped entry begins with the rule that holds just below it. */
  predicate Harmless(groups: seq<seq<Row>>, k: nat)
    requires k < |groups| && forall j | 0 <= j < |groups| :: groups[j] != []
  {
    Drops(groups, k) ==> groups[k][0].loc > 0 && Reference(groups, groups[k][0].loc - 1) == Some(groups[k][0].rule)
  }

  lemma CoverOfStart(groups: seq<seq<Row>>, k: nat)
    requires Entries(groups) && k < |groups|
    ensures Cover(groups, groups[k][0].loc) == Some(k)
  {
    var c := Cover(groups, groups[k][0].loc);
    hide Cover;
    assert c.Some?;
    assert c.value != k ==> Before(groups[c.value], groups[k]) || Before(groups[k], groups[c.value]);
  }

  lemma {:induction false} HarmlessAnswers(groups: seq<seq<Row>>, pc: u32)
    requires Entries(groups) && forall k | 0 <= k < |groups| :: Harmless(groups, k)
    ensures BestRule(Concat(Kept(groups)), pc) == Reference(groups, pc)
    decreases pc
  {
    hide *;
    EntriesParts(groups);
    ReferenceParts(groups, pc);
    if Cover(groups, pc).None? {
      NothingBelow(groups, pc);
    } else {
      var k := Cover(groups, pc).value;
      TableAnswer(groups, pc);
      KeptAnswers(groups, k, pc);
      if Lookup(KeptRows(groups, k), pc).None? {
        HarmlessParts(groups, k);
        HarmlessAnswers(groups, groups[k][0].loc - 1);
      }
    }
  }

  lemma ReferenceParts(groups: seq<seq<Row>>, pc: u32)
    requires forall k | 0 <= k < |groups| :: groups[k] != []
    ensures Reference(groups, pc) == if Cover(groups, pc).None? then None else Lookup(groups[Cover(groups, pc).value], pc)
  {
    hide Cover, Lookup;
  }

  lemma HarmlessParts(groups: seq<seq<Row>>, k: nat)
    requires k < |groups| && forall j | 0 <= j < |groups| :: groups[j] != []
    requires Harmless(groups, k) && Drops(groups, k)
    ensures groups[k][0].loc > 0 && Reference(groups, groups[k][0].loc - 1) == Some(groups[k][0].rule)
  {
    hide Drops, Reference;
  }

  lemma NothingBelow(groups: seq<seq<Row>>, pc: u32)
    requires Entries(groups) && Cover(groups, pc).None?
    ensures BestRule(Concat(Kept(groups)), pc) == None
  {
    var table := Concat(Kept(groups));
    BestIs(table, pc);
    hide Best, Concat, Kept, Cover, KeptRows;
    forall x | x in table ensures x.loc > pc {
      TableRow(groups, x);
      var k :| 0 <= k < |groups| && x in KeptRows(groups, k) && x in groups[k];
      assert groups[k][0].loc <= x.loc;
    }
  }

  /** The compressed and sorted table answers every address as the entries do exactly if no dropped row was needed. */
  lemma SectionExact(groups: seq<seq<Row>>)
    requires Entries(groups)
    ensures (forall pc: u32 :: BestRule(AllAdded([], Concat(groups)), pc) == Reference(groups, pc)) <==> forall k | 0 <= k < |groups| :: Harmless(groups, k)
  {
    TableIs(groups);
    var table := Concat(Kept(groups));
    if forall k | 0 <= k < |groups| :: Harmless(groups, k) {
      forall pc: u32 ensures BestRule(table, pc) == Reference(groups, pc) { HarmlessAnswers(groups, pc); }
    }
    if forall pc: u32 :: BestRule(table, pc) == Reference(groups, pc) {
      forall k | 0 <= k < |groups| ensures Harmless(groups, k) { RightIsHarmless(groups, k); }
    }
    hide *;
  }

  lemma RightIsHarmless(groups: seq<seq<Row>>, k: nat)
    requires Entries(groups) && k < |groups| && forall pc: u32 :: BestRule(Concat(Kept(groups)), pc) == Reference(groups, pc)
    ensures Harmless(groups, k)
  {
    var table, start := Concat(Kept(groups)), groups[k][0].loc;
    CoverOfStart(groups, k);
    TableAnswer(groups, start);
    KeptAnswers(groups, k, start);
    assert BestRule(table, start) == Reference(groups, start);
    if start > 0 { assert BestRule(table, start - 1) == Reference(groups, start - 1); }
    hide Cover, Kept, KeptRows, Concat, Lookup, BestRule, Entries, Drops;
  }

  /** Also an entry behind the one before it can be lost, when a third lies between them. */
  lemma LaterEntryIntervenes(a: u32, b: u32, c: u32, x: Rule, y: Rule)
    requires a < b < c && x != y
    ensures var groups := [[Row(a, x)], [Row(c, x)], [Row(b, y)]]; Entries(groups) && Drops(groups, 1) && !Harmless(groups, 1)
  {
    var groups := [[Row(a, x)], [Row(c, x)], [Row(b, y)]];
    assert Entries(groups) && Drops(groups, 1);
    var k := Cover(groups, c - 1);
    hide Cover;
    assert groups[2][0].loc <= c - 1 && groups[1][0].loc > c - 1;
    assert k.Some? && k.value == 2;
    LookupSingle(Row(b, y), c - 1);
    hide Lookup;
  }
}
