/** The flame graph's tree of frames: `FlameGraph::addChild` and the loop of `dumpFlameGraph` that builds it. */
module FlameTree {
  import opened Bytes

  /** A node, with its key in the parent; `kinds` counts inlined, C1-compiled and interpreted samples. Children may be in any order. */
  datatype Trie = Trie(key: u32, total: nat, self: nat, kinds: Kinds, children: seq<Trie>)

  datatype Kinds = Kinds(inlined: nat, c1: nat, interpreted: nat)

  /** A stack frame as inserted: the key of its child and what it adds to the child's kinds. */
  datatype Step = Step(key: u32, kind: int)

  function Empty(key: u32): Trie { Trie(key, 0, 0, Kinds(0, 0, 0), []) }

  function Counted(k: Kinds, kind: int, value: nat): Kinds {
    if kind == 1 then k.(inlined := k.inlined + value)
    else if kind == 2 then k.(c1 := k.c1 + value)
    else if kind == 3 then k.(interpreted := k.interpreted + value)
    else k
  }

  /** Position of the child with the given key, or the number of children. */
  function Find(cs: seq<Trie>, key: u32): (i: nat)
    ensures i <= |cs| && (i < |cs| ==> cs[i].key == key) && forall j | 0 <= j < i :: cs[j].key != key
  {
    if cs == [] then 0 else if cs[0].key == key then 0 else 1 + Find(cs[1..], key)
  }

  /** One stack trace with its counter: every node on the way counts it, the last one as its own. */
  function Inserted(t: Trie, path: seq<Step>, value: nat): Trie
    decreases |path|
  {
    if path == [] then t.(total := t.total + value, self := t.self + value)
    else
      var i := Find(t.children, path[0].key);
      var child := if i < |t.children| then t.children[i] else Empty(path[0].key);
      var child' := Inserted(child.(kinds := Counted(child.kinds, path[0].kind, value)), path[1..], value);
      t.(total := t.total + value, children := Placed(t.children, i, child'))
  }

  datatype Trace = Trace(path: seq<Step>, counter: nat)

  /** Traces without samples are left out. */
  function Build(traces: seq<Trace>): Trie {
    if traces == [] then Empty(0)
    else
      var t, last := Build(traces[..|traces| - 1]), traces[|traces| - 1];
      if last.counter == 0 then t else Inserted(t, last.path, last.counter)
  }

  function TotalOf(cs: seq<Trie>): nat { if cs == [] then 0 else cs[0].total + TotalOf(cs[1..]) }

  /** Every node's total is its own samples and its children's; children are distinct and never empty. */
  predicate Balanced(t: Trie) {
    t.total == t.self + TotalOf(t.children) && AllBalanced(t.children) && DistinctKeys(t.children)
  }

  predicate AllBalanced(cs: seq<Trie>) { forall i | 0 <= i < |cs| :: cs[i].total > 0 && Balanced(cs[i]) }

  lemma {:induction false} TotalUpdate(cs: seq<Trie>, i: nat, c: Trie)
    requires i < |cs|
    ensures TotalOf(cs[i := c]) + cs[i].total == TotalOf(cs) + c.total
  {
    if i == 0 {
      assert cs[i := c][1..] == cs[1..];
    } else {
      TotalUpdate(cs[1..], i - 1, c);
      assert cs[i := c][1..] == cs[1..][i - 1 := c];
    }
  }

  lemma {:induction false} TotalAppend(cs: seq<Trie>, c: Trie)
    ensures TotalOf(cs + [c]) == TotalOf(cs) + c.total
  {
    if cs != [] {
      TotalAppend(cs[1..], c);
      assert (cs + [c])[1..] == cs[1..] + [c];
    } else {
      assert [c][1..] == [];
    }
  }

  /** Inserting a trace keeps the tree balanced and adds the counter to its total. */
  lemma {:induction false} InsertKeepsBalance(t: Trie, path: seq<Step>, value: nat)
    requires Balanced(t) && value > 0
    ensures Balanced(Inserted(t, path, value)) && Inserted(t, path, value).total == t.total + value && Inserted(t, path, value).key == t.key
    decreases |path|
  {
    if path != [] {
      var i := Find(t.children, path[0].key);
      var child := if i < |t.children| then t.children[i] else Empty(path[0].key);
      var child1 := child.(kinds := Counted(child.kinds, path[0].kind, value));
      assert Balanced(child);
      assert Balanced(child1);
      InsertKeepsBalance(child1, path[1..], value);
      var c := Inserted(child1, path[1..], value);
      hide Balanced, Inserted, Counted;
      ChildrenKept(t, i, c, value);
    }
  }

  /** The children with `c` in place `i`, or behind them. */
  function Placed(cs: seq<Trie>, i: nat, c: Trie): seq<Trie>
    requires i <= |cs|
  {
    if i < |cs| then cs[i := c] else cs + [c]
  }

  predicate DistinctKeys(cs: seq<Trie>) { forall i, j | 0 <= i < j < |cs| :: cs[i].key != cs[j].key }

  lemma PlacedDistinct(cs: seq<Trie>, c: Trie)
    requires DistinctKeys(cs)
    ensures DistinctKeys(Placed(cs, Find(cs, c.key), c))
  {
  }

  lemma PlacedBalanced(cs: seq<Trie>, i: nat, c: Trie)
    requires AllBalanced(cs) && i <= |cs| && Balanced(c) && c.total > 0
    ensures AllBalanced(Placed(cs, i, c))
  {
    hide Balanced;
  }

  lemma PlacedTotal(cs: seq<Trie>, i: nat, c: Trie)
    requires i <= |cs|
    ensures TotalOf(Placed(cs, i, c)) == TotalOf(cs) + c.total - (if i < |cs| then cs[i].total else 0)
  {
    if i < |cs| { TotalUpdate(cs, i, c); } else { TotalAppend(cs, c); }
    hide TotalOf;
  }

  lemma ChildrenKept(t: Trie, i: nat, c: Trie, value: nat)
    requires Balanced(t) && i == Find(t.children, c.key) && Balanced(c) && c.total > 0
    requires c.total == (if i < |t.children| then t.children[i].total else 0) + value
    ensures Balanced(t.(total := t.total + value, children := Placed(t.children, i, c)))
  {
    PlacedDistinct(t.children, c);
    PlacedBalanced(t.children, i, c);
    PlacedTotal(t.children, i, c);
    hide TotalOf, AllBalanced, Placed, DistinctKeys;
  }

  function Sum(traces: seq<Trace>): nat { if traces == [] then 0 else Sum(traces[..|traces| - 1]) + traces[|traces| - 1].counter }

  /** The tree of any list of traces is balanced, and its root counts them all. */
  lemma {:induction false} RootCountsEverything(traces: seq<Trace>)
    ensures Balanced(Build(traces)) && Build(traces).total == Sum(traces)
  {
    if traces != [] {
      var init, last := traces[..|traces| - 1], traces[|traces| - 1];
      RootCountsEverything(init);
      if last.counter > 0 { InsertKeepsBalance(Build(init), last.path, last.counter); }
      hide Balanced, Inserted;
    }
  }

  /** What the traces through a path add up to is what the tree holds at the end of the path. */
  function At(t: Trie, path: seq<Step>): nat
    decreases |path|
  {
    if path == [] then t.total
    else
      var i := Find(t.children, path[0].key);
      if i < |t.children| then At(t.children[i], path[1..]) else 0
  }

  predicate Through(trace: seq<Step>, path: seq<Step>) {
    |path| <= |trace| && forall i | 0 <= i < |path| :: trace[i].key == path[i].key
  }

  function SumThrough(traces: seq<Trace>, path: seq<Step>): nat {
    if traces == [] then 0
    else
      var last := traces[|traces| - 1];
      SumThrough(traces[..|traces| - 1], path) + (if Through(last.path, path) then last.counter else 0)
  }

  lemma FindSame(cs: seq<Trie>, key: u32, i: nat)
    requires i < |cs| && cs[i].key == key && forall j | 0 <= j < i :: cs[j].key != key
    ensures Find(cs, key) == i
  {
  }

  lemma {:induction false} InsertedAt(t: Trie, trace: seq<Step>, value: nat, path: seq<Step>)
    requires Balanced(t) && value > 0
    ensures At(Inserted(t, trace, value), path) == At(t, path) + (if Through(trace, path) then value else 0)
    decreases |path|
  {
    hide Through, Counted;
    InsertKeepsBalance(t, trace, value);
    ThroughEnds(trace, path);
    if path != [] && trace != [] {
      var i := Find(t.children, trace[0].key);
      var child := if i < |t.children| then t.children[i] else Empty(trace[0].key);
      var child1 := child.(kinds := Counted(child.kinds, trace[0].kind, value));
      ChildBalanced(t, i, trace[0].key, child1.kinds);
      var c := Inserted(child1, trace[1..], value);
      InsertKeepsBalance(child1, trace[1..], value);
      var cs' := if i < |t.children| then t.children[i := c] else t.children + [c];
      assert Inserted(t, trace, value).children == cs';
      FindSame(cs', trace[0].key, i);
      if path[0].key == trace[0].key {
        InsertedAt(child1, trace[1..], value, path[1..]);
        AtKinds(child, child1.kinds, path[1..]);
        ThroughTail(trace, path);
      } else {
        OtherChild(t.children, i, c, path[0].key);
      }
    }
  }

  lemma ChildBalanced(t: Trie, i: nat, key: u32, kinds: Kinds)
    requires Balanced(t)
    ensures var child := if i < |t.children| then t.children[i] else Empty(key); Balanced(child) && Balanced(child.(kinds := kinds))
  {
    if i < |t.children| { assert Balanced(t.children[i]); }
  }

  lemma AtKinds(t: Trie, kinds: Kinds, path: seq<Step>)
    ensures At(t.(kinds := kinds), path) == At(t, path)
  {
  }

  lemma ThroughEnds(trace: seq<Step>, path: seq<Step>)
    ensures path == [] ==> Through(trace, path)
    ensures path != [] && (trace == [] || path[0].key != trace[0].key) ==> !Through(trace, path)
  {
  }

  lemma ThroughTail(trace: seq<Step>, path: seq<Step>)
    requires trace != [] && path != [] && trace[0].key == path[0].key
    ensures Through(trace, path) <==> Through(trace[1..], path[1..])
  {
    if Through(trace[1..], path[1..]) {
      forall i | 0 <= i < |path| ensures trace[i].key == path[i].key {
        if i > 0 { assert trace[1..][i - 1].key == path[1..][i - 1].key; }
      }
    }
  }

  lemma OtherChild(cs: seq<Trie>, i: nat, c: Trie, key: u32)
    requires i <= |cs| && c.key != key && (i < |cs| ==> cs[i].key == c.key)
    ensures var cs' := if i < |cs| then cs[i := c] else cs + [c];
      && (Find(cs, key) < |cs| ==> Find(cs', key) == Find(cs, key) && cs'[Find(cs', key)] == cs[Find(cs, key)])
      && (Find(cs, key) == |cs| ==> Find(cs', key) == |cs'|)
  {
    var cs' := if i < |cs| then cs[i := c] else cs + [c];
    var j := Find(cs, key);
    if j < |cs| { FindSame(cs', key, j); }
  }

  /** Every frame's width is the number of samples whose stack goes through it. */
  lemma {:induction false} WidthsAreSamples(traces: seq<Trace>, path: seq<Step>)
    ensures At(Build(traces), path) == SumThrough(traces, path)
  {
    if traces == [] {
      if path != [] { assert Find(Empty(0).children, path[0].key) == 0; }
    } else {
      var init, last := traces[..|traces| - 1], traces[|traces| - 1];
      WidthsAreSamples(init, path);
      RootCountsEverything(init);
      hide Balanced, Inserted, At, Through;
      if last.counter > 0 { InsertedAt(Build(init), last.path, last.counter, path); }
    }
  }
}
