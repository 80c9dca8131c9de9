/** The flame graph built in place: nodes updated one frame at a time, against the tree of `FlameTree`. */
module FlameBuilder {
  import opened Bytes
  import opened FlameTree

  /** A node as it is updated; children are positions of other nodes. */
  datatype Node = Node(total: nat, self: nat, kinds: Kinds, children: map<u32, nat>)

  function NewNode(): Node { Node(0, 0, Kinds(0, 0, 0), map[]) }

  function Keys(path: seq<Step>): seq<u32> { seq(|path|, i requires 0 <= i < |path| => path[i].key) }

  function Steps(keys: seq<u32>): seq<Step> { seq(|keys|, i requires 0 <= i < |keys| => Step(keys[i], 0)) }

  /** Counters of the traces that go through `keys`, and of those that end there. */
  function Weight(traces: seq<Trace>, keys: seq<u32>): nat { SumThrough(traces, Steps(keys)) }

  function OwnWeight(traces: seq<Trace>, keys: seq<u32>): nat {
    if traces == [] then 0
    else
      var last := traces[|traces| - 1];
      OwnWeight(traces[..|traces| - 1], keys) + (if Keys(last.path) == keys then last.counter else 0)
  }

  /** The trace goes through `keys`, and its frame there is of the given kind. */
  predicate OfKind(path: seq<Step>, keys: seq<u32>, kind: int) { 0 < |keys| <= |path| && keys <= Keys(path) && path[|keys| - 1].kind == kind }

  /** Counters of the traces whose frame at `keys` is of the given kind. */
  function KindWeight(traces: seq<Trace>, keys: seq<u32>, kind: int): nat {
    if traces == [] then 0
    else
      var last := traces[|traces| - 1];
      KindWeight(traces[..|traces| - 1], keys, kind) + (if OfKind(last.path, keys, kind) then last.counter else 0)
  }

  function KindWeights(traces: seq<Trace>, keys: seq<u32>): Kinds {
    Kinds(KindWeight(traces, keys, 1), KindWeight(traces, keys, 2), KindWeight(traces, keys, 3))
  }

  /** The child at `key` is the node of the longer path, and exists if that path has a node. */
  ghost predicate LinkOk(nodes: seq<Node>, paths: seq<seq<u32>>, i: nat, key: u32)
    requires |nodes| == |paths| && i < |nodes|
  {
    && (key in nodes[i].children ==> nodes[i].children[key] < |paths| && paths[nodes[i].children[key]] == paths[i] + [key])
    && (paths[i] + [key] in paths ==> key in nodes[i].children)
  }

  function Parent(keys: seq<u32>): seq<u32> { if keys == [] then [] else keys[..|keys| - 1] }

  /** Every node has its own path from the root. */
  ghost predicate Shaped(nodes: seq<Node>, paths: seq<seq<u32>>) {
    && 0 < |nodes| == |paths| && paths[0] == []
    && (forall i, j | 0 <= i < j < |paths| :: paths[i] != paths[j])
    && (forall i | 0 < i < |paths| :: Parent(paths[i]) in paths)
    && (forall i: nat, key: u32 {:trigger LinkOk(nodes, paths, i, key)} | i < |nodes| :: LinkOk(nodes, paths, i, key))
  }

  /** Every prefix of a counted trace has a node. */
  ghost predicate Covered(paths: seq<seq<u32>>, traces: seq<Trace>) {
    forall n | 0 <= n < |traces| && traces[n].counter > 0 :: Prefixes(paths, Keys(traces[n].path), |traces[n].path|)
  }

  ghost predicate Prefixes(paths: seq<seq<u32>>, keys: seq<u32>, k: nat) { k <= |keys| && forall j | 0 <= j <= k :: keys[..j] in paths }

  /** Every node but the root has weight, or lies on the trace that is being added. */
  ghost predicate Alive(paths: seq<seq<u32>>, traces: seq<Trace>, keys: seq<u32>) {
    forall i | 0 < i < |paths| :: Weight(traces, paths[i]) > 0 || (paths[i] != [] && paths[i] <= keys)
  }

  /** Totals while a trace is added: its first `k` nodes already count it. */
  ghost predicate Totals(nodes: seq<Node>, paths: seq<seq<u32>>, traces: seq<Trace>, keys: seq<u32>, k: nat, value: nat)
    requires |nodes| == |paths|
  {
    forall i | 0 <= i < |nodes| ::
      && nodes[i].total == Weight(traces, paths[i]) + (if |paths[i]| < k && paths[i] <= keys then value else 0)
      && nodes[i].self == OwnWeight(traces, paths[i])
  }

  /** Kinds while a trace is added: the nodes of its first `k` frames already count it. */
  ghost predicate KindTotals(nodes: seq<Node>, paths: seq<seq<u32>>, traces: seq<Trace>, t: Trace, k: nat)
    requires |nodes| == |paths|
  {
    forall i | 0 <= i < |nodes| ::
      nodes[i].kinds == KindWeights(if 0 < |paths[i]| <= k && paths[i] <= Keys(t.path) then traces + [t] else traces, paths[i])
  }

  /** Every node counts the kinds of exactly the traces through it. */
  ghost predicate KindsOk(nodes: seq<Node>, paths: seq<seq<u32>>, traces: seq<Trace>)
    requires |nodes| == |paths|
  {
    forall i | 0 <= i < |nodes| :: nodes[i].kinds == KindWeights(traces, paths[i])
  }

  /** `value` is added to the total of node `f`, and new nodes start empty. */
  ghost predicate CountedAt(nodes: seq<Node>, nodes': seq<Node>, f: nat, value: nat) {
    && |nodes| <= |nodes'|
    && (forall i | 0 <= i < |nodes| :: nodes'[i].total == nodes[i].total + (if i == f then value else 0) && nodes'[i].self == nodes[i].self)
    && (forall i | |nodes| <= i < |nodes'| :: nodes'[i].total == 0 && nodes'[i].self == 0)
  }

  /** There may be new nodes, which have counted nothing; the counts are the same. */
  ghost predicate Extended(nodes: seq<Node>, nodes': seq<Node>) {
    && |nodes| <= |nodes'|
    && (forall i | 0 <= i < |nodes| ::
          nodes'[i].total == nodes[i].total && nodes'[i].self == nodes[i].self && nodes'[i].kinds == nodes[i].kinds)
    && (forall i | |nodes| <= i < |nodes'| :: nodes'[i].total == 0 && nodes'[i].self == 0 && nodes'[i].kinds == Kinds(0, 0, 0))
  }

  /** The child counts what kind of frame it was. */
  ghost predicate KindCountedAt(nodes: seq<Node>, nodes': seq<Node>, child: nat, kind: int, value: nat) {
    && |nodes| <= |nodes'| && child < |nodes'|
    && nodes'[child].kinds == Counted(if child < |nodes| then nodes[child].kinds else Kinds(0, 0, 0), kind, value)
    && (forall i | 0 <= i < |nodes| && i != child :: nodes'[i].kinds == nodes[i].kinds)
    && (forall i | |nodes| <= i < |nodes'| && i != child :: nodes'[i].kinds == Kinds(0, 0, 0))
  }

  lemma CountsOnce(nodes: seq<Node>, nodes1: seq<Node>, f: nat, child: nat, kind: int, value: nat)
    requires f < |nodes| && Extended(nodes[f := nodes[f].(total := nodes[f].total + value)], nodes1) && child < |nodes1|
    ensures var nodes' := nodes1[child := nodes1[child].(kinds := Counted(nodes1[child].kinds, kind, value))];
            CountedAt(nodes, nodes', f, value) && KindCountedAt(nodes, nodes', child, kind, value)
  {
    hide Counted;
  }

  // ------------------------------------------------------------------ one more node

  lemma LinksKept(nodes: seq<Node>, paths: seq<seq<u32>>, nodes': seq<Node>)
    requires Shaped(nodes, paths) && |nodes'| == |nodes| && forall i | 0 <= i < |nodes| :: nodes'[i].children == nodes[i].children
    ensures Shaped(nodes', paths)
  {
    forall i: nat, key: u32 | i < |nodes'| ensures LinkOk(nodes', paths, i, key) { assert LinkOk(nodes, paths, i, key); }
  }

  lemma LinkAt(nodes: seq<Node>, paths: seq<seq<u32>>, f: nat, key: u32)
    requires Shaped(nodes, paths) && f < |nodes|
    ensures |paths| == |nodes| && LinkOk(nodes, paths, f, key)
  {
    hide LinkOk;
  }

  lemma LinkAdded(nodes: seq<Node>, paths: seq<seq<u32>>, f: nat, key: u32, i: nat, other: u32)
    requires Shaped(nodes, paths) && f < |nodes| && key !in nodes[f].children && i <= |nodes|
    ensures var nodes' := nodes[f := nodes[f].(children := nodes[f].children[key := |nodes|])] + [NewNode()];
      LinkOk(nodes', paths + [paths[f] + [key]], i, other)
  {
    var added := paths[f] + [key];
    var paths' := paths + [added];
    var nodes' := nodes[f := nodes[f].(children := nodes[f].children[key := |nodes|])] + [NewNode()];
    assert LinkOk(nodes, paths, f, key);
    if i < |nodes| {
      assert LinkOk(nodes, paths, i, other);
      SamePath(paths, i, other, f, key);
      if paths[i] + [other] in paths' && paths[i] + [other] != added { assert paths[i] + [other] in paths; }
    } else {
      NoPathBehind(paths, added, other);
      assert |added + [other]| > |added|;
    }
  }

  lemma SamePath(paths: seq<seq<u32>>, i: nat, other: u32, f: nat, key: u32)
    requires i < |paths| && f < |paths| && forall a, b | 0 <= a < b < |paths| :: paths[a] != paths[b]
    ensures paths[i] + [other] == paths[f] + [key] <==> i == f && other == key
  {
    if paths[i] + [other] == paths[f] + [key] {
      assert (paths[i] + [other])[..|paths[i]|] == paths[i] && (paths[f] + [key])[..|paths[f]|] == paths[f];
      assert (paths[i] + [other])[|paths[i]|] == other && (paths[f] + [key])[|paths[f]|] == key;
    }
  }

  lemma NoPathBehind(paths: seq<seq<u32>>, keys: seq<u32>, key: u32)
    requires |paths| > 0 && paths[0] == [] && forall i | 0 < i < |paths| :: Parent(paths[i]) in paths
    ensures keys + [key] in paths ==> keys in paths
  {
    assert Parent(keys + [key]) == keys;
  }

  lemma NodeAdded(nodes: seq<Node>, paths: seq<seq<u32>>, f: nat, key: u32)
    requires Shaped(nodes, paths) && f < |nodes| && key !in nodes[f].children
    ensures var nodes' := nodes[f := nodes[f].(children := nodes[f].children[key := |nodes|])] + [NewNode()];
      Shaped(nodes', paths + [paths[f] + [key]]) && paths[f] + [key] !in paths
  {
    var added := paths[f] + [key];
    var paths' := paths + [added];
    var nodes' := nodes[f := nodes[f].(children := nodes[f].children[key := |nodes|])] + [NewNode()];
    assert LinkOk(nodes, paths, f, key);
    forall i: nat, other: u32 | i < |nodes'| ensures LinkOk(nodes', paths', i, other) { LinkAdded(nodes, paths, f, key, i, other); }
    hide LinkOk;
    assert Parent(added) == paths[f];
    forall i | 0 < i < |paths'| ensures Parent(paths'[i]) in paths' { if i < |paths| { assert Parent(paths[i]) in paths; } }
  }

  // ------------------------------------------------------------------ weights

  /** A path without a node has no weight yet. */
  lemma {:induction false} NoWeight(paths: seq<seq<u32>>, traces: seq<Trace>, keys: seq<u32>)
    requires Covered(paths, traces) && keys !in paths
    ensures Weight(traces, keys) == 0 && OwnWeight(traces, keys) == 0
  {
    if traces != [] {
      var init, last := traces[..|traces| - 1], traces[|traces| - 1];
      assert Covered(paths, init);
      NoWeight(paths, init, keys);
      assert Through(last.path, Steps(keys)) ==> Keys(last.path)[..|keys|] == keys;
      if last.counter > 0 { assert Prefixes(paths, Keys(last.path), |last.path|); }
      assert Keys(last.path) == keys ==> Keys(last.path)[..|keys|] == keys;
    }
  }

  lemma WeightAdded(traces: seq<Trace>, t: Trace, keys: seq<u32>)
    ensures Weight(traces + [t], keys) == Weight(traces, keys) + (if keys <= Keys(t.path) then t.counter else 0)
    ensures OwnWeight(traces + [t], keys) == OwnWeight(traces, keys) + (if keys == Keys(t.path) then t.counter else 0)
  {
    assert (traces + [t])[..|traces|] == traces;
    assert Through(t.path, Steps(keys)) <==> keys <= Keys(t.path);
  }

  /** `k` frames of `t` are counted, and `f` is the node of the next. */
  ghost predicate Adding(nodes: seq<Node>, paths: seq<seq<u32>>, before: seq<Trace>, t: Trace, k: nat, f: nat) {
    && Shaped(nodes, paths) && Covered(paths, before) && Prefixes(paths, Keys(t.path), k)
    && f < |nodes| && k <= |t.path| && paths[f] == Keys(t.path)[..k]
    && Totals(nodes, paths, before, Keys(t.path), k, t.counter) && Alive(paths, before, Keys(t.path)) && KindTotals(nodes, paths, before, t, k)
  }

  lemma AddingParts(nodes: seq<Node>, paths: seq<seq<u32>>, before: seq<Trace>, t: Trace, k: nat, f: nat)
    requires Adding(nodes, paths, before, t, k, f)
    ensures Shaped(nodes, paths) && f < |nodes|
  {
    hide Shaped, Covered, Totals, Prefixes, Alive, KindTotals;
  }

  lemma AddingStarts(nodes: seq<Node>, paths: seq<seq<u32>>, before: seq<Trace>, t: Trace)
    requires Shaped(nodes, paths) && Covered(paths, before) && Totals(nodes, paths, before, [], 0, 0) && Alive(paths, before, []) && KindsOk(nodes, paths, before)
    ensures Adding(nodes, paths, before, t, 0, 0)
  {
    hide Weight, OwnWeight, Covered, LinkOk, KindWeights;
  }

  lemma NothingAdded(nodes: seq<Node>, paths: seq<seq<u32>>, before: seq<Trace>, t: Trace)
    requires Shaped(nodes, paths) && Covered(paths, before) && Totals(nodes, paths, before, [], 0, 0) && Alive(paths, before, []) && t.counter == 0
    requires KindsOk(nodes, paths, before)
    ensures Covered(paths, before + [t]) && Totals(nodes, paths, before + [t], [], 0, 0) && Alive(paths, before + [t], []) && KindsOk(nodes, paths, before + [t])
  {
    hide KindWeights;
    NoKindsAdded(nodes, paths, before, t);
    forall i | 0 <= i < |paths| ensures Weight(before + [t], paths[i]) == Weight(before, paths[i]) && OwnWeight(before + [t], paths[i]) == OwnWeight(before, paths[i]) {
      WeightAdded(before, t, paths[i]);
    }
    hide Weight, OwnWeight, Prefixes;
  }

  lemma NoKindsAdded(nodes: seq<Node>, paths: seq<seq<u32>>, before: seq<Trace>, t: Trace)
    requires |nodes| == |paths| && KindsOk(nodes, paths, before) && t.counter == 0
    ensures KindsOk(nodes, paths, before + [t])
  {
    hide KindWeights;
    forall i | 0 <= i < |nodes| ensures nodes[i].kinds == KindWeights(before + [t], paths[i]) { KindsAdded(before, t, paths[i]); }
  }

  lemma CoveredGrows(paths: seq<seq<u32>>, paths': seq<seq<u32>>, traces: seq<Trace>)
    requires Covered(paths, traces) && paths <= paths'
    ensures Covered(paths', traces)
  {
    forall n | 0 <= n < |traces| && traces[n].counter > 0 ensures Prefixes(paths', Keys(traces[n].path), |traces[n].path|) {
      assert Prefixes(paths, Keys(traces[n].path), |traces[n].path|);
    }
  }

  /** Only the node of the path itself is counted next. */
  lemma OnlyThis(paths: seq<seq<u32>>, keys: seq<u32>, k: nat, f: nat, i: nat)
    requires f < |paths| && i < |paths| && k <= |keys| && paths[f] == keys[..k] && forall a, b | 0 <= a < b < |paths| :: paths[a] != paths[b]
    ensures |paths[i]| < k + 1 && paths[i] <= keys <==> (|paths[i]| < k && paths[i] <= keys) || i == f
  {
    if |paths[i]| == k && paths[i] <= keys { assert paths[i] == keys[..k]; }
  }

  lemma AddingOn(nodes: seq<Node>, paths: seq<seq<u32>>, nodes': seq<Node>, paths': seq<seq<u32>>, before: seq<Trace>, t: Trace, k: nat, f: nat, child: nat)
    requires Adding(nodes, paths, before, t, k, f) && k < |t.path| && Shaped(nodes', paths')
    requires child < |nodes'| && paths'[child] == paths[f] + [t.path[k].key]
    requires paths' == (if paths[f] + [t.path[k].key] in paths then paths else paths + [paths[f] + [t.path[k].key]])
    requires CountedAt(nodes, nodes', f, t.counter) && KindCountedAt(nodes, nodes', child, t.path[k].kind, t.counter)
    ensures Adding(nodes', paths', before, t, k + 1, child)
  {
    hide Totals, Covered, Shaped, Alive, Prefixes, CountedAt, KindTotals, KindCountedAt;
    ShapedParts(nodes, paths);
    var keys := Keys(t.path);
    assert keys[..k + 1] == paths[f] + [t.path[k].key];
    CoveredGrows(paths, paths', before);
    TotalsOn(nodes, paths, nodes', paths', before, t, k, f);
    AliveOn(paths, paths', before, keys, keys[..k + 1]);
    PrefixesOn(paths, paths', keys, k);
    ShapedParts(nodes', paths');
    KindsOn(nodes, paths, nodes', paths', before, t, k, child);
  }

  /** A trace counts for the kind of its frame, once. */
  lemma KindsAdded(traces: seq<Trace>, t: Trace, keys: seq<u32>)
    ensures var on := 0 < |keys| <= |t.path| && keys <= Keys(t.path);
      KindWeights(traces + [t], keys) == if on then Counted(KindWeights(traces, keys), t.path[|keys| - 1].kind, t.counter) else KindWeights(traces, keys)
    ensures t.counter == 0 ==> KindWeights(traces + [t], keys) == KindWeights(traces, keys)
  {
    assert (traces + [t])[..|traces|] == traces;
  }

  lemma PrefixIs(keys: seq<u32>, trace: seq<u32>)
    ensures keys <= trace ==> trace[..|keys|] == keys
  {
  }

  lemma NotThrough(paths: seq<seq<u32>>, trace: seq<u32>, keys: seq<u32>)
    requires Prefixes(paths, trace, |trace|) && keys !in paths
    ensures !(keys <= trace)
  {
    PrefixIs(keys, trace);
  }

  /** A path without a node has no kinds yet. */
  lemma {:induction false} NoKinds(paths: seq<seq<u32>>, traces: seq<Trace>, keys: seq<u32>)
    requires Covered(paths, traces) && keys !in paths
    ensures KindWeights(traces, keys) == Kinds(0, 0, 0)
  {
    if traces != [] {
      var init, last := traces[..|traces| - 1], traces[|traces| - 1];
      assert Covered(paths, init);
      NoKinds(paths, init, keys);
      KindsAdded(init, last, keys);
      assert init + [last] == traces;
      if last.counter > 0 { NotThrough(paths, Keys(last.path), keys); }
    }
  }

  lemma KindsOn(nodes: seq<Node>, paths: seq<seq<u32>>, nodes': seq<Node>, paths': seq<seq<u32>>, before: seq<Trace>, t: Trace, k: nat, child: nat)
    requires Shaped(nodes, paths) && Covered(paths, before) && KindTotals(nodes, paths, before, t, k) && k < |t.path| && Shaped(nodes', paths')
    requires child < |nodes'| && paths'[child] == Keys(t.path)[..k + 1]
    requires paths' == (if Keys(t.path)[..k + 1] in paths then paths else paths + [Keys(t.path)[..k + 1]])
    requires KindCountedAt(nodes, nodes', child, t.path[k].kind, t.counter)
    ensures KindTotals(nodes', paths', before, t, k + 1)
  {
    hide KindWeights, KindCountedAt, Covered, Shaped, Keys, Counted;
    ShapedParts(nodes, paths);
    ShapedParts(nodes', paths');
    forall i | 0 <= i < |nodes'|
      ensures nodes'[i].kinds == KindWeights(if 0 < |paths'[i]| <= k + 1 && paths'[i] <= Keys(t.path) then before + [t] else before, paths'[i])
    {
      if i == child {
        ChildKinds(nodes, paths, nodes', paths', before, t, k, child);
      } else {
        OnlyChild(nodes', paths', child, i);
        OtherKinds(nodes, paths, nodes', paths', before, t, k, child, i);
      }
    }
  }

  lemma OnlyChild(nodes: seq<Node>, paths: seq<seq<u32>>, child: nat, i: nat)
    requires Shaped(nodes, paths) && child < |paths| && i < |paths| && i != child
    ensures paths[i] != paths[child]
  {
  }

  lemma ChildKinds(nodes: seq<Node>, paths: seq<seq<u32>>, nodes': seq<Node>, paths': seq<seq<u32>>, before: seq<Trace>, t: Trace, k: nat, child: nat)
    requires |nodes| == |paths| && Covered(paths, before) && KindTotals(nodes, paths, before, t, k) && k < |t.path| && |nodes'| == |paths'|
    requires child < |nodes'| && paths'[child] == Keys(t.path)[..k + 1]
    requires paths' == (if Keys(t.path)[..k + 1] in paths then paths else paths + [Keys(t.path)[..k + 1]])
    requires KindCountedAt(nodes, nodes', child, t.path[k].kind, t.counter)
    ensures nodes'[child].kinds == KindWeights(before + [t], paths'[child]) && |paths'[child]| == k + 1 && paths'[child] <= Keys(t.path)
  {
    hide KindWeights, Covered, Counted;
    KindsAdded(before, t, paths'[child]);
    if child >= |nodes| { NoKinds(paths, before, paths'[child]); }
  }

  lemma OtherKinds(nodes: seq<Node>, paths: seq<seq<u32>>, nodes': seq<Node>, paths': seq<seq<u32>>, before: seq<Trace>, t: Trace, k: nat, child: nat, i: nat)
    requires |nodes| == |paths| && KindTotals(nodes, paths, before, t, k) && k < |t.path| && |nodes'| == |paths'| && i < |nodes'| && i != child
    requires child < |nodes'| && paths'[child] == Keys(t.path)[..k + 1] && paths'[i] != paths'[child]
    requires paths' == (if Keys(t.path)[..k + 1] in paths then paths else paths + [Keys(t.path)[..k + 1]])
    requires KindCountedAt(nodes, nodes', child, t.path[k].kind, t.counter)
    ensures nodes'[i].kinds == KindWeights(if 0 < |paths'[i]| <= k + 1 && paths'[i] <= Keys(t.path) then before + [t] else before, paths'[i])
  {
    hide KindWeights, Counted;
    var keys := Keys(t.path);
    PrefixIs(paths'[i], keys);
    assert i < |nodes|;
  }

  lemma ShapedParts(nodes: seq<Node>, paths: seq<seq<u32>>)
    requires Shaped(nodes, paths)
    ensures |nodes| == |paths|
  {
  }

  lemma PrefixesOn(paths: seq<seq<u32>>, paths': seq<seq<u32>>, keys: seq<u32>, k: nat)
    requires Prefixes(paths, keys, k) && k < |keys| && paths' == (if keys[..k + 1] in paths then paths else paths + [keys[..k + 1]])
    ensures Prefixes(paths', keys, k + 1)
  {
    forall j | 0 <= j <= k + 1 ensures keys[..j] in paths' { if j <= k { assert keys[..j] in paths; } }
  }

  lemma AliveOn(paths: seq<seq<u32>>, paths': seq<seq<u32>>, traces: seq<Trace>, keys: seq<u32>, added: seq<u32>)
    requires Alive(paths, traces, keys) && added != [] && added <= keys && paths' == (if added in paths then paths else paths + [added])
    ensures Alive(paths', traces, keys)
  {
    hide Weight;
  }

  lemma TotalsOn(nodes: seq<Node>, paths: seq<seq<u32>>, nodes': seq<Node>, paths': seq<seq<u32>>, before: seq<Trace>, t: Trace, k: nat, f: nat)
    requires Adding(nodes, paths, before, t, k, f) && k < |t.path| && Shaped(nodes', paths')
    requires paths' == (if paths[f] + [t.path[k].key] in paths then paths else paths + [paths[f] + [t.path[k].key]])
    requires CountedAt(nodes, nodes', f, t.counter)
    ensures Totals(nodes', paths', before, Keys(t.path), k + 1, t.counter)
  {
    var keys := Keys(t.path);
    forall i | 0 <= i < |nodes'|
      ensures nodes'[i].total == Weight(before, paths'[i]) + (if |paths'[i]| < k + 1 && paths'[i] <= keys then t.counter else 0)
      ensures nodes'[i].self == OwnWeight(before, paths'[i])
    {
      if i < |nodes| {
        OnlyThis(paths, keys, k, f, i);
      } else {
        NoWeight(paths, before, paths'[i]);
      }
    }
    hide Weight, OwnWeight, Covered, LinkOk, Prefixes;
  }

  /** Counting the trace at its last node completes it. */
  lemma AddingEnds(nodes: seq<Node>, paths: seq<seq<u32>>, before: seq<Trace>, t: Trace, f: nat)
    requires Adding(nodes, paths, before, t, |t.path|, f) && f < |nodes| && t.counter > 0
    ensures var nodes' := nodes[f := nodes[f].(total := nodes[f].total + t.counter, self := nodes[f].self + t.counter)];
      Shaped(nodes', paths) && Covered(paths, before + [t]) && Totals(nodes', paths, before + [t], [], 0, 0) && Alive(paths, before + [t], [])
      && KindsOk(nodes', paths, before + [t])
  {
    hide KindWeights, KindTotals, LinkOk, Prefixes;
    KindsLast(nodes, paths, before, t, f);
    var keys := Keys(t.path);
    var nodes' := nodes[f := nodes[f].(total := nodes[f].total + t.counter, self := nodes[f].self + t.counter)];
    LinksKept(nodes, paths, nodes');
    forall i: nat | i < |nodes'|
      ensures nodes'[i].total == Weight(before + [t], paths[i]) && nodes'[i].self == OwnWeight(before + [t], paths[i])
    {
      LastCounted(nodes, paths, before, t, f, i);
    }
    forall i | 0 < i < |paths| ensures Weight(before + [t], paths[i]) > 0 { WeightAdded(before, t, paths[i]); }
    assert keys[..|t.path|] == keys;
    hide Weight, OwnWeight, LinkOk, Prefixes, Keys;
  }

  lemma KindsLast(nodes: seq<Node>, paths: seq<seq<u32>>, before: seq<Trace>, t: Trace, f: nat)
    requires Adding(nodes, paths, before, t, |t.path|, f) && f < |nodes|
    ensures |nodes| == |paths| && KindsOk(nodes[f := nodes[f].(total := nodes[f].total + t.counter, self := nodes[f].self + t.counter)], paths, before + [t])
  {
    hide KindWeights, KindTotals, Totals, Covered, Alive, Prefixes, LinkOk;
    KindsEnd(nodes, paths, before, t);
  }

  lemma KindsEnd(nodes: seq<Node>, paths: seq<seq<u32>>, before: seq<Trace>, t: Trace)
    requires |nodes| == |paths| && KindTotals(nodes, paths, before, t, |t.path|)
    ensures KindsOk(nodes, paths, before + [t])
  {
    hide KindWeights, Counted;
    forall i | 0 <= i < |nodes| ensures nodes[i].kinds == KindWeights(before + [t], paths[i]) { KindsAdded(before, t, paths[i]); }
  }

  lemma LastCounted(nodes: seq<Node>, paths: seq<seq<u32>>, before: seq<Trace>, t: Trace, f: nat, i: nat)
    requires Adding(nodes, paths, before, t, |t.path|, f) && f < |nodes| && i < |nodes|
    ensures nodes[i].total + (if i == f then t.counter else 0) == Weight(before + [t], paths[i])
    ensures nodes[i].self + (if i == f then t.counter else 0) == OwnWeight(before + [t], paths[i])
  {
    var keys := Keys(t.path);
    assert keys[..|t.path|] == keys;
    OnlyThis(paths, keys, |t.path|, f, i);
    WeightAdded(before, t, paths[i]);
    hide Weight, OwnWeight, LinkOk, Prefixes, Covered;
  }

  // ------------------------------------------------------------------ the builder

  class FlameGraph {
    var nodes: seq<Node>
    ghost var paths: seq<seq<u32>>
    ghost var traces: seq<Trace>

    /** Every node counts exactly the traces through its path, and every counted trace has its nodes. */
    ghost predicate Valid()
      reads this
    {
      Shaped(nodes, paths) && Covered(paths, traces) && Totals(nodes, paths, traces, [], 0, 0) && Alive(paths, traces, []) && KindsOk(nodes, paths, traces)
    }

    constructor ()
      ensures Valid() && traces == []
    {
      nodes := [NewNode()];
      paths := [[]];
      traces := [];
    }

    /** Counts `value` at node `f` and goes to its child, which may be new. */
    method AddChild(f: nat, step: Step, value: nat) returns (child: nat)
      requires Shaped(nodes, paths) && f < |nodes|
      modifies this`nodes, this`paths
      ensures Shaped(nodes, paths) && child < |nodes| && paths[child] == old(paths[f]) + [step.key]
      ensures paths == (if old(paths[f]) + [step.key] in old(paths) then old(paths) else old(paths) + [old(paths[f]) + [step.key]])
      ensures CountedAt(old(nodes), nodes, f, value) && KindCountedAt(old(nodes), nodes, child, step.kind, value)
    {
      hide Shaped, LinkOk, Counted, CountedAt, KindCountedAt, Extended;
      ghost var nodes0 := nodes;
      nodes := nodes[f := nodes[f].(total := nodes[f].total + value)];
      LinksKept(nodes0, paths, nodes);
      child := Child(f, step.key);
      ghost var nodes1 := nodes;
      nodes := nodes[child := nodes[child].(kinds := Counted(nodes[child].kinds, step.kind, value))];
      LinksKept(nodes1, paths, nodes);
      CountsOnce(nodes0, nodes1, f, child, step.kind, value);
    }

    /** The child of `f` by `key`, added if it is missing. */
    method Child(f: nat, key: u32) returns (child: nat)
      requires Shaped(nodes, paths) && f < |nodes|
      modifies this`nodes, this`paths
      ensures Shaped(nodes, paths) && child < |nodes| == |paths| && paths[child] == old(paths[f]) + [key]
      ensures paths == (if old(paths[f]) + [key] in old(paths) then old(paths) else old(paths) + [old(paths[f]) + [key]])
      ensures Extended(old(nodes), nodes)
    {
      hide Shaped;
      LinkAt(nodes, paths, f, key);
      if key in nodes[f].children {
        child := nodes[f].children[key];
      } else {
        child := |nodes|;
        NodeAdded(nodes, paths, f, key);
        nodes := nodes[f := nodes[f].(children := nodes[f].children[key := child])] + [NewNode()];
        paths := paths + [paths[f] + [key]];
      }
    }

    /** The frames of a trace, from the root; its last node is still to count it. */
    method CountFrames(t: Trace) returns (f: nat)
      requires Adding(nodes, paths, traces, t, 0, 0)
      modifies this`nodes, this`paths
      ensures Adding(nodes, paths, traces, t, |t.path|, f) && f < |nodes|
    {
      hide *;
      f := 0;
      for k := 0 to |t.path|
        invariant Adding(nodes, paths, traces, t, k, f)
      {
        AddingParts(nodes, paths, traces, t, k, f);
        ghost var nodes0, paths0, f0 := nodes, paths, f;
        f := AddChild(f, t.path[k], t.counter);
        AddingOn(nodes0, paths0, nodes, paths, traces, t, k, f0, f);
      }
      AddingParts(nodes, paths, traces, t, |t.path|, f);
    }

    /** One stack trace; traces without samples are left out. */
    method AddTrace(t: Trace)
      requires Valid()
      modifies this
      ensures Valid() && traces == old(traces) + [t]
    {
      hide Shaped, Covered, Totals, Adding, Alive, KindsOk;
      if t.counter == 0 {
        NothingAdded(nodes, paths, traces, t);
      } else {
        AddingStarts(nodes, paths, traces, t);
        var f := CountFrames(t);
        AddingEnds(nodes, paths, traces, t, f);
        nodes := nodes[f := nodes[f].(total := nodes[f].total + t.counter, self := nodes[f].self + t.counter)];
      }
      traces := traces + [t];
    }

    /** Every node holds what the tree of the traces holds at its path. */
    lemma NodesAreTheTree(i: nat)
      requires Valid() && i < |nodes|
      ensures i < |paths| && nodes[i].total == At(Build(traces), Steps(paths[i])) && nodes[i].self == OwnWeight(traces, paths[i])
    {
      WidthsAreSamples(traces, Steps(paths[i]));
    }

    /** And it holds how many of its samples were inlined, compiled by C1 and interpreted. */
    lemma NodesCountKinds(i: nat)
      requires Valid() && i < |nodes|
      ensures nodes[i].kinds == Kinds(KindWeight(traces, paths[i], 1), KindWeight(traces, paths[i], 2), KindWeight(traces, paths[i], 3))
    {
    }

    /** And every path the tree knows has a node. */
    lemma NoNodeIsMissing(keys: seq<u32>)
      requires Valid() && At(Build(traces), Steps(keys)) > 0
      ensures keys in paths
    {
      WidthsAreSamples(traces, Steps(keys));
      if keys !in paths { NoWeight(paths, traces, keys); }
    }
  }

  /** The whole loop over the samples. */
  method BuildGraph(ts: seq<Trace>) returns (g: FlameGraph)
    ensures fresh(g) && g.Valid() && g.traces == ts
  {
    g := new FlameGraph();
    for n := 0 to |ts|
      invariant fresh(g) && g.Valid() && g.traces == ts[..n]
    {
      g.AddTrace(ts[n]);
      assert ts[..n + 1] == ts[..n] + [ts[n]];
    }
    assert ts[..|ts|] == ts;
  }
}
