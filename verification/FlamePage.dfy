/** From the nodes built in place to the page: whatever order the printer puts children in, it prints a balanced tree. */
module FlamePage {
  import opened Bytes
  import opened FlameTree
  import opened FlameBuilder
  import opened FlameLayout

  /** `t` is the tree at node `i`, its children in any order: the printer sorts them by name. */
  ghost predicate Mirrors(t: Trie, nodes: seq<Node>, i: nat) {
    && i < |nodes| && t.total == nodes[i].total && t.self == nodes[i].self && t.kinds == nodes[i].kinds && DistinctKeys(t.children)
    && (forall j | 0 <= j < |t.children| :: t.children[j].key in nodes[i].children && Mirrors(t.children[j], nodes, nodes[i].children[t.children[j].key]))
    && (forall key | key in nodes[i].children :: key in KeysOf(t.children))
  }

  function KeysOf(cs: seq<Trie>): seq<u32> { seq(|cs|, i requires 0 <= i < |cs| => cs[i].key) }

  /** The weights of the longer paths. */
  function ChildWeights(traces: seq<Trace>, path: seq<u32>, ks: seq<u32>): nat {
    if ks == [] then 0 else Weight(traces, path + [ks[0]]) + ChildWeights(traces, path, ks[1..])
  }

  predicate DistinctSeq(ks: seq<u32>) { forall i, j | 0 <= i < j < |ks| :: ks[i] != ks[j] }

  lemma {:induction false} ChildWeightsAdded(traces: seq<Trace>, t: Trace, path: seq<u32>, ks: seq<u32>)
    requires DistinctSeq(ks)
    ensures var keys := Keys(t.path);
      ChildWeights(traces + [t], path, ks) ==
      ChildWeights(traces, path, ks) + (if path < keys && keys[|path|] in ks then t.counter else 0)
    decreases |ks|
  {
    hide Weight, Keys;
    if ks != [] {
      WeightAdded(traces, t, path + [ks[0]]);
      ChildWeightsAdded(traces, t, path, ks[1..]);
      Extended(path, ks[0], Keys(t.path));
      assert ks == [ks[0]] + ks[1..];
    }
  }

  lemma Extended(path: seq<u32>, key: u32, keys: seq<u32>)
    ensures path + [key] <= keys <==> path < keys && keys[|path|] == key
  {
  }

  /** Every trace through a path ends there or goes on to one of the keys. */
  lemma {:induction false} WeightSplits(traces: seq<Trace>, path: seq<u32>, ks: seq<u32>)
    requires DistinctSeq(ks)
    requires forall n | 0 <= n < |traces| && traces[n].counter > 0 :: path < Keys(traces[n].path) ==> Keys(traces[n].path)[|path|] in ks
    ensures Weight(traces, path) == OwnWeight(traces, path) + ChildWeights(traces, path, ks)
    decreases |traces|
  {
    if traces == [] {
      NoChildWeights(path, ks);
    } else {
      var n := |traces| - 1;
      var init, t := traces[..n], traces[n];
      assert traces == init + [t];
      WeightSplits(init, path, ks);
      WeightAdded(init, t, path);
      ChildWeightsAdded(init, t, path, ks);
      hide Weight, OwnWeight, ChildWeights, Keys, DistinctSeq;
      assert path <= Keys(t.path) <==> path < Keys(t.path) || path == Keys(t.path);
    }
  }

  lemma {:induction false} NoChildWeights(path: seq<u32>, ks: seq<u32>)
    ensures ChildWeights([], path, ks) == 0
    decreases |ks|
  {
    if ks != [] { NoChildWeights(path, ks[1..]); }
  }

  /** What the builder keeps. */
  ghost predicate Built(nodes: seq<Node>, paths: seq<seq<u32>>, traces: seq<Trace>) {
    Shaped(nodes, paths) && Covered(paths, traces) && Totals(nodes, paths, traces, [], 0, 0) && Alive(paths, traces, [])
  }

  lemma ChildOf(nodes: seq<Node>, paths: seq<seq<u32>>, traces: seq<Trace>, i: nat, key: u32)
    requires Built(nodes, paths, traces) && i < |nodes| && key in nodes[i].children
    ensures var c := nodes[i].children[key];
      i < |paths| && 0 < c < |nodes| == |paths| && paths[c] == paths[i] + [key] && nodes[c].total == Weight(traces, paths[c]) > 0
  {
    assert LinkOk(nodes, paths, i, key);
    hide Weight, OwnWeight, Covered;
  }

  lemma {:induction false} TotalsOfChildren(cs: seq<Trie>, traces: seq<Trace>, path: seq<u32>)
    requires forall j | 0 <= j < |cs| :: cs[j].total == Weight(traces, path + [cs[j].key])
    ensures TotalOf(cs) == ChildWeights(traces, path, KeysOf(cs))
    decreases |cs|
  {
    hide Weight;
    if cs != [] {
      TotalsOfChildren(cs[1..], traces, path);
      assert KeysOf(cs)[1..] == KeysOf(cs[1..]);
    }
  }

  lemma CoveredPrefix(paths: seq<seq<u32>>, traces: seq<Trace>, n: nat, j: nat)
    requires Covered(paths, traces) && n < |traces| && traces[n].counter > 0 && j <= |traces[n].path|
    ensures |Keys(traces[n].path)| == |traces[n].path| && Keys(traces[n].path)[..j] in paths
  {
    assert Prefixes(paths, Keys(traces[n].path), |traces[n].path|);
  }

  lemma LinkBack(nodes: seq<Node>, paths: seq<seq<u32>>, i: nat, key: u32)
    requires Shaped(nodes, paths) && i < |nodes| && paths[i] + [key] in paths
    ensures key in nodes[i].children
  {
    assert LinkOk(nodes, paths, i, key);
  }

  lemma BuiltParts(nodes: seq<Node>, paths: seq<seq<u32>>, traces: seq<Trace>, i: nat)
    requires Built(nodes, paths, traces) && i < |nodes|
    ensures Shaped(nodes, paths) && Covered(paths, traces) && |nodes| == |paths|
    ensures nodes[i].total == Weight(traces, paths[i]) && nodes[i].self == OwnWeight(traces, paths[i])
  {
    hide Weight, OwnWeight, Covered, LinkOk, Alive;
  }

  /** Traces through a node go on to its children only. */
  lemma NextKeys(nodes: seq<Node>, paths: seq<seq<u32>>, traces: seq<Trace>, i: nat, n: nat)
    requires Built(nodes, paths, traces) && i < |nodes| == |paths| && n < |traces| && traces[n].counter > 0
    ensures paths[i] < Keys(traces[n].path) ==> Keys(traces[n].path)[|paths[i]|] in nodes[i].children
  {
    hide *;
    BuiltParts(nodes, paths, traces, i);
    var path, keys := paths[i], Keys(traces[n].path);
    CoveredPrefix(paths, traces, n, 0);
    if path < keys {
      var key := keys[|path|];
      CoveredPrefix(paths, traces, n, |path| + 1);
      assert keys[..|path| + 1] == path + [key];
      LinkBack(nodes, paths, i, key);
    }
  }

  lemma MirrorParts(t: Trie, nodes: seq<Node>, i: nat)
    requires Mirrors(t, nodes, i)
    ensures i < |nodes| && t.total == nodes[i].total && t.self == nodes[i].self && DistinctKeys(t.children) && DistinctSeq(KeysOf(t.children))
    ensures forall key | key in nodes[i].children :: key in KeysOf(t.children)
  {
  }

  lemma MirrorChild(t: Trie, nodes: seq<Node>, i: nat, j: nat)
    requires Mirrors(t, nodes, i) && j < |t.children|
    ensures i < |nodes| && t.children[j].key in nodes[i].children && Mirrors(t.children[j], nodes, nodes[i].children[t.children[j].key])
  {
  }

  lemma BalancedFrom(t: Trie)
    requires t.total == t.self + TotalOf(t.children) && DistinctKeys(t.children)
    requires forall j | 0 <= j < |t.children| :: t.children[j].total > 0 && Balanced(t.children[j])
    ensures Balanced(t)
  {
    hide TotalOf, DistinctKeys;
  }

  /** The tree at any node is balanced: what the printer relies on. */
  lemma {:induction false} MirrorIsBalanced(t: Trie, nodes: seq<Node>, paths: seq<seq<u32>>, traces: seq<Trace>, i: nat)
    requires Built(nodes, paths, traces) && Mirrors(t, nodes, i)
    ensures Balanced(t) && i < |paths| && t.total == Weight(traces, paths[i])
    decreases t
  {
    hide *;
    MirrorParts(t, nodes, i);
    BuiltParts(nodes, paths, traces, i);
    var path, cs := paths[i], t.children;
    forall j | 0 <= j < |cs| ensures cs[j].total > 0 && Balanced(cs[j]) && cs[j].total == Weight(traces, path + [cs[j].key]) {
      MirrorChild(t, nodes, i, j);
      ChildOf(nodes, paths, traces, i, cs[j].key);
      MirrorIsBalanced(cs[j], nodes, paths, traces, nodes[i].children[cs[j].key]);
    }
    forall n | 0 <= n < |traces| && traces[n].counter > 0
      ensures path < Keys(traces[n].path) ==> Keys(traces[n].path)[|path|] in KeysOf(cs)
    {
      NextKeys(nodes, paths, traces, i, n);
    }
    TotalsOfChildren(cs, traces, path);
    WeightSplits(traces, path, KeysOf(cs));
    BalancedFrom(t);
  }

  // ------------------------------------------------------------------ a built graph has a tree

  /** The tree at a node, and the trees at those of its children whose keys are given: paths grow on the way, up to `bound`. */
  lemma {:induction false} TreeAt(nodes: seq<Node>, paths: seq<seq<u32>>, i: nat, key: u32, bound: nat) returns (t: Trie)
    requires Shaped(nodes, paths) && i < |nodes| && forall j | 0 <= j < |paths| :: |paths[j]| <= bound
    ensures Mirrors(t, nodes, i) && t.key == key
    decreases bound - |paths[i]|, 1
  {
    hide Shaped;
    assert |paths| == |nodes| by { LinkAt(nodes, paths, i, key); }
    var cs := TreesAt(nodes, paths, i, nodes[i].children.Keys, bound);
    t := Trie(key, nodes[i].total, nodes[i].self, nodes[i].kinds, cs);
  }

  lemma {:induction false} TreesAt(nodes: seq<Node>, paths: seq<seq<u32>>, i: nat, keys: set<u32>, bound: nat) returns (cs: seq<Trie>)
    requires Shaped(nodes, paths) && i < |nodes| && keys <= nodes[i].children.Keys && forall j | 0 <= j < |paths| :: |paths[j]| <= bound
    ensures DistinctKeys(cs) && forall k | k in keys :: k in KeysOf(cs)
    ensures forall j | 0 <= j < |cs| :: cs[j].key in keys && Mirrors(cs[j], nodes, nodes[i].children[cs[j].key])
    decreases bound - |paths[i]|, 0, keys
  {
    hide Shaped, Mirrors;
    assert |paths| == |nodes| by { LinkAt(nodes, paths, i, 0); }
    if keys == {} {
      cs := [];
    } else {
      var k :| k in keys;
      LinkAt(nodes, paths, i, k);
      assert |paths[nodes[i].children[k]]| == |paths[i]| + 1;
      var rest := TreesAt(nodes, paths, i, keys - {k}, bound);
      var c := TreeAt(nodes, paths, nodes[i].children[k], k, bound);
      cs := rest + [c];
      forall x | x in keys ensures x in KeysOf(cs) { KeyFound(rest, c, x); }
    }
  }

  lemma KeyFound(rest: seq<Trie>, c: Trie, x: u32)
    ensures x == c.key || x in KeysOf(rest) ==> x in KeysOf(rest + [c])
  {
    var ks := KeysOf(rest + [c]);
    assert ks[|rest|] == c.key;
    if x in KeysOf(rest) {
      var j :| 0 <= j < |rest| && KeysOf(rest)[j] == x;
      assert ks[j] == x;
    }
  }

  lemma {:induction false} LongestPath(paths: seq<seq<u32>>) returns (bound: nat)
    ensures forall j | 0 <= j < |paths| :: |paths[j]| <= bound
  {
    bound := 0;
    if paths != [] {
      var n := |paths| - 1;
      bound := LongestPath(paths[..n]);
      if |paths[n]| > bound { bound := |paths[n]|; }
      forall j | 0 <= j < |paths| ensures |paths[j]| <= bound { if j < n { assert paths[..n][j] == paths[j]; } }
    }
  }

  /** There is a tree to print for every graph that was built. */
  lemma GraphHasItsTree(g: FlameGraph) returns (t: Trie)
    requires g.Valid()
    ensures Mirrors(t, g.nodes, 0)
  {
    var bound := LongestPath(g.paths);
    t := TreeAt(g.nodes, g.paths, 0, 0, bound);
  }

  /** The page shows what was built: for any traces, any order of children and any cut-off. */
  lemma PageShowsTheGraph(g: FlameGraph, t: Trie, min: nat, name: Trie -> nat)
    requires g.Valid() && Mirrors(t, g.nodes, 0) && Sum(g.traces) > 0
    ensures var fs := Frames(t, 0, 0, min, name); var start := Last(0, 0, 0);
      && t.total == Sum(g.traces) && Flowing(fs, start) && Decode(Commands(fs, start), start) == fs
      && Laid(fs, 0, 0, Sum(g.traces)) && Nested(fs, 0) && Below(fs, Depth(t, min))
  {
    MirrorIsBalanced(t, g.nodes, g.paths, g.traces, 0);
    assert Steps([]) == [];
    WidthsAreSamples(g.traces, []);
    RootCountsEverything(g.traces);
    hide Mirrors, Balanced, Build, Shaped, Covered, Totals, Alive, Flowing, Decode, Commands, Laid, Nested, Below, Frames, Depth;
    PageShowsTheTree(t, min, name);
  }
}
