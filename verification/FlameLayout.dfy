/** The layout of the flame graph and its delta-encoded frame commands. */
module FlameLayout {
  import opened Bytes
  import opened FlameTree

  /** A rectangle: `name` is the name and type shown, `extra` the counts by kind when they are given. */
  datatype Frame = Frame(name: nat, level: nat, x: nat, total: nat, extra: Option<Kinds>)

  function Extra(t: Trie): Option<Kinds> {
    if (t.kinds.inlined != 0 || t.kinds.c1 != 0 || t.kinds.interpreted != 0) && t.kinds.inlined < t.total && t.kinds.interpreted < t.total
    then Some(t.kinds) else None
  }

  function FrameOf(t: Trie, level: nat, x: nat, name: Trie -> nat): Frame { Frame(name(t), level, x, t.total, Extra(t)) }

  /** The frames `printFrame` prints, in order: children below `min` are skipped but keep their place. */
  function Frames(t: Trie, level: nat, x: nat, min: nat, name: Trie -> nat): seq<Frame> {
    [FrameOf(t, level, x, name)] + ChildFrames(t.children, level + 1, x + t.self, min, name)
  }

  function ChildFrames(cs: seq<Trie>, level: nat, x: nat, min: nat, name: Trie -> nat): seq<Frame> {
    if cs == [] then []
    else (if cs[0].total >= min then Frames(cs[0], level, x, min, name) else []) + ChildFrames(cs[1..], level, x + cs[0].total, min, name)
  }

  // ------------------------------------------------------------------ the layout is a nesting of disjoint frames

  /** Frames inside a strip: left to right, never narrower than nothing, and disjoint on each level. */
  predicate Laid(fs: seq<Frame>, level: nat, low: nat, high: nat) {
    && (forall i | 0 <= i < |fs| :: level <= fs[i].level && low <= fs[i].x && fs[i].x + fs[i].total <= high && fs[i].total > 0)
    && (forall i, j | 0 <= i < j < |fs| :: fs[i].x <= fs[j].x && (fs[i].level == fs[j].level ==> fs[i].x + fs[i].total <= fs[j].x))
  }

  predicate Inside(f: Frame, parent: Frame) {
    f.level == parent.level + 1 && parent.x <= f.x && f.x + f.total <= parent.x + parent.total
  }

  /** Every frame above the base level lies inside an earlier frame one level below. */
  predicate Nested(fs: seq<Frame>, level: nat) {
    forall j | 0 <= j < |fs| && fs[j].level > level :: exists i :: 0 <= i < j && Inside(fs[j], fs[i])
  }

  lemma LaidAppend(a: seq<Frame>, b: seq<Frame>, level: nat, low: nat, mid: nat, high: nat)
    requires Laid(a, level, low, mid) && Laid(b, level, mid, high) && low <= mid <= high
    ensures Laid(a + b, level, low, high)
  {
  }

  lemma NestedAppend(a: seq<Frame>, b: seq<Frame>, level: nat)
    requires Nested(a, level) && Nested(b, level)
    ensures Nested(a + b, level)
  {
    var c := a + b;
    forall j | 0 <= j < |c| && c[j].level > level ensures exists i :: 0 <= i < j && Inside(c[j], c[i]) {
      if j < |a| {
        var i :| 0 <= i < j && Inside(a[j], a[i]);
        assert Inside(c[j], c[i]);
      } else {
        var i :| 0 <= i < j - |a| && Inside(b[j - |a|], b[i]);
        assert Inside(c[j], c[i + |a|]);
      }
    }
    hide Inside;
  }

  lemma RootLaid(f: Frame, fs: seq<Frame>, low: nat, high: nat)
    requires f.total > 0 && f.x <= low <= high <= f.x + f.total && Laid(fs, f.level + 1, low, high)
    ensures Laid([f] + fs, f.level, f.x, f.x + f.total)
  {
  }

  /** The first half of `Laid`. */
  predicate Within(fs: seq<Frame>, level: nat, low: nat, high: nat) {
    forall i | 0 <= i < |fs| :: level <= fs[i].level && low <= fs[i].x && fs[i].x + fs[i].total <= high
  }

  lemma LaidWithin(fs: seq<Frame>, level: nat, low: nat, high: nat, low': nat, high': nat)
    requires Laid(fs, level, low, high) && low' <= low && high <= high'
    ensures Within(fs, level, low', high')
  {
  }

  lemma RootNested(f: Frame, fs: seq<Frame>)
    requires Within(fs, f.level + 1, f.x, f.x + f.total) && Nested(fs, f.level + 1)
    ensures Nested([f] + fs, f.level)
  {
    hide Within, Inside;
    var c := [f] + fs;
    forall j | 0 <= j < |c| && c[j].level > f.level ensures exists i :: 0 <= i < j && Inside(c[j], c[i]) {
      var i := RootEncloses(f, fs, j);
    }
  }

  /** The frame that encloses frame `j`: the root, or one among the others. */
  lemma RootEncloses(f: Frame, fs: seq<Frame>, j: nat) returns (i: nat)
    requires Within(fs, f.level + 1, f.x, f.x + f.total) && Nested(fs, f.level + 1)
    requires j < |fs| + 1 && ([f] + fs)[j].level > f.level
    ensures i < j && Inside(([f] + fs)[j], ([f] + fs)[i])
  {
    var g := fs[j - 1];
    if g.level == f.level + 1 {
      i := 0;
    } else {
      var k :| 0 <= k < j - 1 && Inside(g, fs[k]);
      i := k + 1;
    }
  }

  lemma FramesParts(t: Trie, level: nat, x: nat, min: nat, name: Trie -> nat)
    ensures Frames(t, level, x, min, name) == [FrameOf(t, level, x, name)] + ChildFrames(t.children, level + 1, x + t.self, min, name)
    ensures FrameOf(t, level, x, name).level == level && FrameOf(t, level, x, name).x == x && FrameOf(t, level, x, name).total == t.total
    ensures Balanced(t) ==> t.total == t.self + TotalOf(t.children) && AllBalanced(t.children)
  {
    hide ChildFrames, AllBalanced;
  }

  lemma {:induction false} FramesLaid(t: Trie, level: nat, x: nat, min: nat, name: Trie -> nat)
    requires Balanced(t) && t.total > 0
    ensures Laid(Frames(t, level, x, min, name), level, x, x + t.total) && Nested(Frames(t, level, x, min, name), level)
    decreases t, 0
  {
    hide *;
    FramesParts(t, level, x, min, name);
    ChildrenLaid(t.children, level + 1, x + t.self, min, name);
    var f, fs := FrameOf(t, level, x, name), ChildFrames(t.children, level + 1, x + t.self, min, name);
    RootLaid(f, fs, x + t.self, x + t.total);
    LaidWithin(fs, level + 1, x + t.self, x + t.total, x, x + t.total);
    RootNested(f, fs);
  }

  function FirstFrames(cs: seq<Trie>, level: nat, x: nat, min: nat, name: Trie -> nat): seq<Frame>
    requires cs != []
  {
    if cs[0].total >= min then Frames(cs[0], level, x, min, name) else []
  }

  lemma ChildFramesParts(cs: seq<Trie>, level: nat, x: nat, min: nat, name: Trie -> nat)
    requires cs != []
    ensures ChildFrames(cs, level, x, min, name) == FirstFrames(cs, level, x, min, name) + ChildFrames(cs[1..], level, x + cs[0].total, min, name)
    ensures TotalOf(cs) == cs[0].total + TotalOf(cs[1..])
    ensures AllBalanced(cs) ==> Balanced(cs[0]) && cs[0].total > 0 && AllBalanced(cs[1..])
  {
    hide Frames, Balanced;
  }

  lemma {:induction false} ChildrenLaid(cs: seq<Trie>, level: nat, x: nat, min: nat, name: Trie -> nat)
    requires AllBalanced(cs)
    ensures Laid(ChildFrames(cs, level, x, min, name), level, x, x + TotalOf(cs)) && Nested(ChildFrames(cs, level, x, min, name), level)
    decreases cs, 0
  {
    hide *;
    if cs == [] {
      NoChildren(level, x, min, name);
      NothingLaid(level, x, x);
    } else {
      ChildFramesParts(cs, level, x, min, name);
      FirstLaid(cs, level, x, min, name);
      ChildrenLaid(cs[1..], level, x + cs[0].total, min, name);
      var first, rest := FirstFrames(cs, level, x, min, name), ChildFrames(cs[1..], level, x + cs[0].total, min, name);
      LaidAppend(first, rest, level, x, x + cs[0].total, x + TotalOf(cs));
      NestedAppend(first, rest, level);
    }
  }

  lemma NoChildren(level: nat, x: nat, min: nat, name: Trie -> nat)
    ensures ChildFrames([], level, x, min, name) == [] && TotalOf([]) == 0
  {
  }

  lemma {:induction false} FirstLaid(cs: seq<Trie>, level: nat, x: nat, min: nat, name: Trie -> nat)
    requires cs != [] && Balanced(cs[0]) && cs[0].total > 0
    ensures Laid(FirstFrames(cs, level, x, min, name), level, x, x + cs[0].total) && Nested(FirstFrames(cs, level, x, min, name), level)
    decreases cs[0], 1
  {
    NothingLaid(level, x, x + cs[0].total);
    hide Frames, Laid, Nested, Balanced;
    FramesLaid(cs[0], level, x, min, name);
  }

  lemma NothingLaid(level: nat, low: nat, high: nat)
    ensures Laid([], level, low, high) && Nested([], level)
  {
  }

  /** `Trie::depth`. */
  function Depth(t: Trie, min: nat): nat { 1 + MaxDepth(t.children, min) }

  function MaxDepth(cs: seq<Trie>, min: nat): nat {
    if cs == [] then 0
    else
      var rest := MaxDepth(cs[1..], min);
      if cs[0].total >= min && Depth(cs[0], min) > rest then Depth(cs[0], min) else rest
  }

  predicate Below(fs: seq<Frame>, level: nat) { forall i | 0 <= i < |fs| :: fs[i].level < level }

  /** The declared depth has a level for every printed frame. */
  lemma {:induction false} FramesBelowDepth(t: Trie, level: nat, x: nat, min: nat, name: Trie -> nat)
    ensures Below(Frames(t, level, x, min, name), level + Depth(t, min))
  {
    ChildrenBelowDepth(t.children, level + 1, x + t.self, min, name);
    hide ChildFrames;
  }

  lemma {:induction false} ChildrenBelowDepth(cs: seq<Trie>, level: nat, x: nat, min: nat, name: Trie -> nat)
    ensures Below(ChildFrames(cs, level, x, min, name), level + MaxDepth(cs, min))
  {
    hide Frames, Depth, Below;
    if cs == [] {
      NothingBelow(level);
    } else {
      var rest := ChildFrames(cs[1..], level, x + cs[0].total, min, name);
      ChildrenBelowDepth(cs[1..], level, x + cs[0].total, min, name);
      if cs[0].total >= min {
        FramesBelowDepth(cs[0], level, x, min, name);
        BelowAppend(Frames(cs[0], level, x, min, name), rest, level + Depth(cs[0], min), level + MaxDepth(cs[1..], min), level + MaxDepth(cs, min));
      } else {
        BelowAppend([], rest, level, level + MaxDepth(cs[1..], min), level + MaxDepth(cs, min));
        assert [] + rest == rest;
      }
    }
  }

  lemma NothingBelow(level: nat)
    ensures Below([], level)
  {
  }

  lemma BelowAppend(a: seq<Frame>, b: seq<Frame>, m: nat, n: nat, level: nat)
    requires (a != [] ==> Below(a, m) && m <= level) && Below(b, n) && n <= level
    ensures Below(a + b, level)
  {
  }

  // ------------------------------------------------------------------ commands

  /** `u`, `n` and `f`; a width of zero stands for one left out. */
  datatype Command =
    | Up(name: nat, width: nat, extra: Option<Kinds>)
    | Next(name: nat, width: nat, extra: Option<Kinds>)
    | Absolute(name: nat, level: nat, delta: nat, width: nat, extra: Option<Kinds>)

  datatype Last = Last(level: nat, x: nat, total: nat)

  function CommandFor(f: Frame, last: Last): Command
    requires last.x <= f.x
  {
    var width := if f.total != last.total || f.extra.Some? then f.total else 0;
    if f.level == last.level + 1 && f.x == last.x then Up(f.name, width, f.extra)
    else if f.level == last.level && f.x == last.x + last.total then Next(f.name, width, f.extra)
    else Absolute(f.name, f.level, f.x - last.x, width, f.extra)
  }

  function LastOf(f: Frame): Last { Last(f.level, f.x, f.total) }

  /** Each frame starts at or right of the one before, so no delta is negative. */
  predicate Flowing(fs: seq<Frame>, last: Last)
    decreases |fs|
  {
    fs == [] || (last.x <= fs[0].x && (fs[0].total > 0 || fs[0].total == last.total) && Flowing(fs[1..], LastOf(fs[0])))
  }

  function Commands(fs: seq<Frame>, last: Last): seq<Command>
    requires Flowing(fs, last)
    decreases |fs|
  {
    if fs == [] then [] else [CommandFor(fs[0], last)] + Commands(fs[1..], LastOf(fs[0]))
  }

  /** The page's script: `u` and `n` are written in terms of `f`. */
  function DecodeOne(c: Command, last: Last): Frame {
    var width := if c.width != 0 then c.width else last.total;
    match c
    case Up(name, _, extra) => Frame(name, last.level + 1, last.x, width, extra)
    case Next(name, _, extra) => Frame(name, last.level, last.x + last.total, width, extra)
    case Absolute(name, level, delta, _, extra) => Frame(name, level, last.x + delta, width, extra)
  }

  function Decode(cs: seq<Command>, last: Last): seq<Frame>
    decreases |cs|
  {
    if cs == [] then [] else [DecodeOne(cs[0], last)] + Decode(cs[1..], LastOf(DecodeOne(cs[0], last)))
  }

  lemma {:induction false} DecodeCommands(fs: seq<Frame>, last: Last)
    requires Flowing(fs, last)
    ensures Decode(Commands(fs, last), last) == fs
    decreases |fs|
  {
    if fs != [] {
      assert DecodeOne(CommandFor(fs[0], last), last) == fs[0];
      DecodeCommands(fs[1..], LastOf(fs[0]));
      hide CommandFor, DecodeOne;
    }
  }

  lemma {:induction false} LaidFlows(fs: seq<Frame>, last: Last, level: nat, low: nat, high: nat)
    requires Laid(fs, level, low, high) && (fs != [] ==> last.x <= fs[0].x)
    ensures Flowing(fs, last)
    decreases |fs|
  {
    if fs != [] {
      assert Laid(fs[1..], level, low, high);
      assert |fs| > 1 ==> fs[0].x <= fs[1].x;
      LaidFlows(fs[1..], LastOf(fs[0]), level, low, high);
    }
  }

  /**
   For any balanced tree, its children in any order, and any cut-off: the page's script recovers every printed frame; frames
   on a level are disjoint and nested in their parents.
   */
  lemma PageShowsTheTree(t: Trie, min: nat, name: Trie -> nat)
    requires Balanced(t) && t.total > 0
    ensures var fs := Frames(t, 0, 0, min, name); var start := Last(0, 0, 0);
      && Flowing(fs, start) && Decode(Commands(fs, start), start) == fs
      && Laid(fs, 0, 0, t.total) && Nested(fs, 0) && Below(fs, Depth(t, min))
  {
    hide *;
    var start := Last(0, 0, 0);
    FramesLaid(t, 0, 0, min, name);
    FramesBelowDepth(t, 0, 0, min, name);
    LaidFromZero(Frames(t, 0, 0, min, name), t.total);
    DecodeCommands(Frames(t, 0, 0, min, name), start);
  }

  lemma LaidFromZero(fs: seq<Frame>, high: nat)
    requires Laid(fs, 0, 0, high)
    ensures Flowing(fs, Last(0, 0, 0))
  {
    LaidFlows(fs, Last(0, 0, 0), 0, 0, high);
  }

  // ------------------------------------------------------------------ the printer

  function LastAfter(fs: seq<Frame>, last: Last): Last { if fs == [] then last else LastOf(fs[|fs| - 1]) }

  lemma {:induction false} CommandsAppend(a: seq<Frame>, b: seq<Frame>, last: Last)
    requires Flowing(a + b, last)
    ensures Flowing(a, last) && Flowing(b, LastAfter(a, last))
    ensures Commands(a + b, last) == Commands(a, last) + Commands(b, LastAfter(a, last))
    decreases |a|
  {
    if a == [] {
      assert a + b == b;
    } else {
      assert (a + b)[1..] == a[1..] + b && (a + b)[0] == a[0];
      CommandsAppend(a[1..], b, LastOf(a[0]));
      assert LastAfter(a[1..], LastOf(a[0])) == LastAfter(a, last);
      hide CommandFor;
    }
  }

  /** The page's remaining commands, given what is still to be printed. */
  ghost predicate Remaining(whole: seq<Command>, end: Last, out: seq<Command>, fs: seq<Frame>, last: Last) {
    Flowing(fs, last) && whole == out + Commands(fs, last) && end == LastAfter(fs, last)
  }

  lemma RemainingStep(whole: seq<Command>, end: Last, out: seq<Command>, a: seq<Frame>, b: seq<Frame>, last: Last)
    requires Remaining(whole, end, out, a + b, last)
    ensures Flowing(a, last) && Remaining(whole, end, out + Commands(a, last), b, LastAfter(a, last))
  {
    CommandsAppend(a, b, last);
    LastAppend(a, b, last);
    hide Commands, Flowing;
    assert out + (Commands(a, last) + Commands(b, LastAfter(a, last))) == out + Commands(a, last) + Commands(b, LastAfter(a, last));
  }

  lemma RemainingNothing(whole: seq<Command>, end: Last, out: seq<Command>, last: Last)
    requires Remaining(whole, end, out, [], last)
    ensures whole == out && end == last
  {
  }

  lemma CommandsOne(f: Frame, last: Last)
    requires Flowing([f], last)
    ensures last.x <= f.x && Commands([f], last) == [CommandFor(f, last)]
  {
    assert [f][1..] == [];
    hide CommandFor;
  }

  class Printer {
    var last: Last
    var out: seq<Command>

    constructor ()
      ensures last == Last(0, 0, 0) && out == []
    {
      last, out := Last(0, 0, 0), [];
    }

    /** `printFrame`: the node, then its children. */
    method PrintFrame(t: Trie, level: nat, x: nat, min: nat, name: Trie -> nat)
      requires Flowing(Frames(t, level, x, min, name), last)
      modifies this
      ensures out == old(out) + Commands(Frames(t, level, x, min, name), old(last))
      ensures last == LastAfter(Frames(t, level, x, min, name), old(last))
      decreases t, 0
    {
      ghost var fs := Frames(t, level, x, min, name);
      ghost var whole, end := out + Commands(fs, last), LastAfter(fs, last);
      hide *;
      var f := FrameOf(t, level, x, name);
      FrameFirst(whole, end, out, t, level, x, min, name, last);
      out := out + [CommandFor(f, last)];
      last := LastOf(f);
      PrintChildren(t.children, level + 1, x + t.self, min, name, whole, end);
    }

    /** The loop of `printFrame` over the children, from left to right. */
    method PrintChildren(cs: seq<Trie>, level: nat, x0: nat, min: nat, name: Trie -> nat, ghost whole: seq<Command>, ghost end: Last)
      requires Remaining(whole, end, out, ChildFrames(cs, level, x0, min, name), last)
      modifies this
      ensures out == whole && last == end
      decreases cs, 0
    {
      hide *;
      var x: nat := x0;
      var i: nat := 0;
      assert cs[0..] == cs;
      while i < |cs|
        invariant i <= |cs|
        invariant Remaining(whole, end, out, ChildFrames(cs[i..], level, x, min, name), last)
      {
        ChildFirst(whole, end, out, cs, i, level, x, min, name, last);
        if cs[i].total >= min { PrintFrame(cs[i], level, x, min, name); }
        x := x + cs[i].total;
        i := i + 1;
      }
      NoChildren(level, x, min, name);
      assert cs[i..] == [];
      RemainingNothing(whole, end, out, last);
    }
  }

  lemma LastAppend(a: seq<Frame>, b: seq<Frame>, last: Last)
    ensures LastAfter(a + b, last) == LastAfter(b, LastAfter(a, last))
  {
    if b == [] { assert a + b == a; }
  }

  lemma FrameFirst(whole: seq<Command>, end: Last, out: seq<Command>, t: Trie, level: nat, x: nat, min: nat, name: Trie -> nat, last: Last)
    requires var fs := Frames(t, level, x, min, name); Flowing(fs, last) && whole == out + Commands(fs, last) && end == LastAfter(fs, last)
    ensures var f := FrameOf(t, level, x, name); var rest := ChildFrames(t.children, level + 1, x + t.self, min, name);
      && last.x <= f.x && Remaining(whole, end, out + [CommandFor(f, last)], rest, LastOf(f)) && t.children[0..] == t.children
  {
    var f, rest := FrameOf(t, level, x, name), ChildFrames(t.children, level + 1, x + t.self, min, name);
    FramesParts(t, level, x, min, name);
    hide Frames, ChildFrames, Commands, Flowing, CommandFor, FrameOf;
    RemainingStep(whole, end, out, [f], rest, last);
    CommandsOne(f, last);
  }

  lemma ChildFirst(whole: seq<Command>, end: Last, out: seq<Command>, cs: seq<Trie>, i: nat, level: nat, x: nat, min: nat, name: Trie -> nat, last: Last)
    requires i < |cs| && Remaining(whole, end, out, ChildFrames(cs[i..], level, x, min, name), last)
    ensures var rest := ChildFrames(cs[i + 1..], level, x + cs[i].total, min, name);
      if cs[i].total >= min then
        var first := Frames(cs[i], level, x, min, name);
        Flowing(first, last) && Remaining(whole, end, out + Commands(first, last), rest, LastAfter(first, last))
      else Remaining(whole, end, out, rest, last)
  {
    var tail := cs[i..];
    assert tail[0] == cs[i] && tail[1..] == cs[i + 1..];
    ChildFramesParts(tail, level, x, min, name);
    var first, rest := FirstFrames(tail, level, x, min, name), ChildFrames(cs[i + 1..], level, x + cs[i].total, min, name);
    hide Frames, ChildFrames, Commands, Flowing;
    if cs[i].total >= min {
      RemainingStep(whole, end, out, first, rest, last);
    } else {
      assert [] + rest == rest;
    }
  }
}
