/** Which frames are shown, under which name and type, and how frames of one method share a node. */
module FlameFrames {
  import opened Bytes
  import opened FlameTree
  import opened FlameBuilder
  import opened FlameLayout

  // ------------------------------------------------------------------ frame types and keys

  datatype FrameType = Interpreted | JitCompiled | Inlined | Native | Cpp | Kernel | C1Compiled

  function TypeId(t: FrameType): nat {
    match t
    case Interpreted => 0
    case JitCompiled => 1
    case Inlined => 2
    case Native => 3
    case Cpp => 4
    case Kernel => 5
    case C1Compiled => 6
  }

  const NAME_LIMIT: nat := 0x1000_0000

  /** `name_index | type << 28` */
  function KeyOf(name: nat, t: FrameType): u32
    requires name < NAME_LIMIT
  {
    name + TypeId(t) * NAME_LIMIT
  }

  /** What `addChild` does for a frame: Java code of all kinds goes to one child, which counts the kind. */
  function StepFor(name: nat, t: FrameType): Step
    requires name < NAME_LIMIT
  {
    match t
    case Inlined => Step(KeyOf(name, JitCompiled), 1)
    case C1Compiled => Step(KeyOf(name, JitCompiled), 2)
    case Interpreted => Step(KeyOf(name, JitCompiled), 3)
    case _ => Step(KeyOf(name, t), 0)
  }

  predicate IsJava(t: FrameType) { t.Interpreted? || t.JitCompiled? || t.Inlined? || t.C1Compiled? }

  function NameIndex(key: u32): nat { key % NAME_LIMIT }

  /** Two frames share a node under the same parent exactly if they have one name and both are Java code, or one type. */
  lemma FramesShareNodes(name: nat, t: FrameType, name': nat, t': FrameType)
    requires name < NAME_LIMIT && name' < NAME_LIMIT
    ensures StepFor(name, t).key == StepFor(name', t').key <==> name == name' && (t == t' || (IsJava(t) && IsJava(t')))
    ensures NameIndex(StepFor(name, t).key) == name
  {
  }

  /** `Trie::type`: the kind that stands out, or the type of the key. */
  function ShownType(t: Trie): nat {
    if t.kinds.inlined * 3 >= t.total then TypeId(Inlined)
    else if t.kinds.c1 * 2 >= t.total then TypeId(C1Compiled)
    else if t.kinds.interpreted * 2 >= t.total then TypeId(Interpreted)
    else t.key / NAME_LIMIT
  }

  /** `name_and_type` */
  function ShownName(t: Trie, order: nat -> nat): nat { order(NameIndex(t.key)) * 8 + ShownType(t) }

  /** The counter of `kind` when all traces through `keys` have a frame of that kind there. */
  lemma {:induction false} OneKind(traces: seq<Trace>, keys: seq<u32>, kind: int)
    requires keys != [] && forall n | 0 <= n < |traces| && keys <= Keys(traces[n].path) :: traces[n].path[|keys| - 1].kind == kind
    ensures KindWeight(traces, keys, kind) == Weight(traces, keys)
    ensures forall other: int | other != kind :: KindWeight(traces, keys, other) == 0
  {
    if traces != [] {
      var init, last := traces[..|traces| - 1], traces[|traces| - 1];
      OneKind(init, keys, kind);
      WeightAdded(init, last, keys);
      assert init + [last] == traces;
    }
  }

  /** A frame whose samples were all of one type is shown with that type. */
  lemma UniformFramesKeepTheirType(t: Trie, traces: seq<Trace>, keys: seq<u32>, name: nat, ft: FrameType)
    requires name < NAME_LIMIT && keys != [] && t.key == StepFor(name, ft).key && t.total == Weight(traces, keys) > 0 && t.kinds == KindWeights(traces, keys)
    requires forall n | 0 <= n < |traces| && keys <= Keys(traces[n].path) :: traces[n].path[|keys| - 1] == StepFor(name, ft)
    ensures ShownType(t) == TypeId(ft) && NameIndex(t.key) == name
  {
    hide Weight, KindWeight, Keys;
    OneKind(traces, keys, StepFor(name, ft).kind);
    FramesShareNodes(name, ft, name, ft);
  }

  // ------------------------------------------------------------------ which nodes are shown

  /** The node at the positions `at`, none of whose ancestors is cut off. */
  predicate Reached(t: Trie, at: seq<nat>, min: nat)
    decreases |at|
  {
    at == [] || (at[0] < |t.children| && t.children[at[0]].total >= min && Reached(t.children[at[0]], at[1..], min))
  }

  function NodeAt(t: Trie, at: seq<nat>, min: nat): Trie
    requires Reached(t, at, min)
    decreases |at|
  {
    if at == [] then t else NodeAt(t.children[at[0]], at[1..], min)
  }

  /** Where the node starts: behind its parent's own samples and all earlier siblings, shown or not. */
  function StartAt(t: Trie, at: seq<nat>, min: nat): nat
    requires Reached(t, at, min)
    decreases |at|
  {
    if at == [] then 0 else t.self + TotalOf(t.children[..at[0]]) + StartAt(t.children[at[0]], at[1..], min)
  }

  function FrameAt(t: Trie, at: seq<nat>, level: nat, x: nat, min: nat, name: Trie -> nat): Frame
    requires Reached(t, at, min)
  {
    FrameOf(NodeAt(t, at, min), level + |at|, x + StartAt(t, at, min), name)
  }

  /** Frames of child `i` are among those of the children. */
  lemma {:induction false} ChildShown(cs: seq<Trie>, i: nat, level: nat, x: nat, min: nat, name: Trie -> nat, f: Frame)
    requires i < |cs| && cs[i].total >= min && f in Frames(cs[i], level, x + TotalOf(cs[..i]), min, name)
    ensures f in ChildFrames(cs, level, x, min, name)
    decreases i
  {
    hide Frames;
    ChildFramesParts(cs, level, x, min, name);
    if i > 0 {
      assert cs[..i][1..] == cs[1..][..i - 1] && cs[..i][0] == cs[0];
      assert TotalOf(cs[..i]) == cs[0].total + TotalOf(cs[1..][..i - 1]);
      ChildShown(cs[1..], i - 1, level, x + cs[0].total, min, name, f);
    } else {
      assert TotalOf(cs[..0]) == 0;
    }
  }

  /** Every node that is not cut off is shown, at its place and with its width. */
  lemma {:induction false} EveryNodeIsShown(t: Trie, at: seq<nat>, level: nat, x: nat, min: nat, name: Trie -> nat)
    requires Reached(t, at, min)
    ensures FrameAt(t, at, level, x, min, name) in Frames(t, level, x, min, name)
    decreases |at|
  {
    hide FrameOf, ChildFrames;
    FramesParts(t, level, x, min, name);
    if at != [] {
      var i := at[0];
      EveryNodeIsShown(t.children[i], at[1..], level + 1, x + t.self + TotalOf(t.children[..i]), min, name);
      ChildShown(t.children, i, level + 1, x + t.self, min, name, FrameAt(t, at, level, x, min, name));
    }
  }

  /** Nothing else is shown. */
  lemma {:induction false} EveryFrameIsANode(t: Trie, level: nat, x: nat, min: nat, name: Trie -> nat, f: Frame) returns (at: seq<nat>)
    requires f in Frames(t, level, x, min, name)
    ensures Reached(t, at, min) && f == FrameAt(t, at, level, x, min, name)
    decreases t, 0
  {
    hide FrameOf, ChildFrames;
    FramesParts(t, level, x, min, name);
    if f == FrameOf(t, level, x, name) {
      at := [];
    } else {
      var i, rest := FrameOfChild(t.children, level + 1, x + t.self, min, name, f);
      at := [i] + rest;
      assert at[1..] == rest;
    }
  }

  lemma {:induction false} FrameOfChild(cs: seq<Trie>, level: nat, x: nat, min: nat, name: Trie -> nat, f: Frame) returns (i: nat, at: seq<nat>)
    requires f in ChildFrames(cs, level, x, min, name)
    ensures i < |cs| && cs[i].total >= min && Reached(cs[i], at, min) && f == FrameAt(cs[i], at, level, x + TotalOf(cs[..i]), min, name)
    decreases cs, 0
  {
    hide Frames, FrameAt;
    ChildFramesParts(cs, level, x, min, name);
    if f in FirstFrames(cs, level, x, min, name) {
      i := 0;
      at := EveryFrameIsANode(cs[0], level, x, min, name, f);
      assert TotalOf(cs[..0]) == 0;
    } else {
      i, at := FrameOfChild(cs[1..], level, x + cs[0].total, min, name, f);
      i := i + 1;
      assert cs[..i][1..] == cs[1..][..i - 1] && cs[..i][0] == cs[0];
      assert TotalOf(cs[..i]) == cs[0].total + TotalOf(cs[1..][..i - 1]);
    }
  }
}
