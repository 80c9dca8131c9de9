/** What the second scan must do to the copied code. */
module Patching {
  import opened Bytes
  import opened Jvm
  import opened Opcodes
  import opened Layout
  import opened Emission

  function SiteWidth(op: byte): nat { if IsNarrowJump(op) then 2 else 4 }

  /** The distance stored at `site` by the instruction at `base`. */
  function OldDistance(code: seq<byte>, base: nat, site: nat): int
    requires base < |code| && site + SiteWidth(code[base]) <= |code|
  {
    if IsNarrowJump(code[base]) then S16(Get16(code, site)) else S32(Get32(code, site))
  }

  /** `site` holds a distance of the instruction at `base`, which leads to another instruction. */
  predicate JumpSite(code: seq<byte>, base: nat, site: nat) {
    && base < |code| && IsStart(code, base) && Decode(code, base).Some?
    && base < site && site + SiteWidth(code[base]) <= base + Decode(code, base).value.len
    && !IsReturn(code[base]) && !HasImplicitLocal(code[base])
    && var target := base + OldDistance(code, base, site);
       0 <= target < |code| && IsStart(code, target)
  }

  function NewDistance(code: seq<byte>, newLocal: nat, base: nat, site: nat): int
    requires JumpSite(code, base, site)
  {
    Image(code, newLocal, base + OldDistance(code, base, site)) - Image(code, newLocal, base)
  }

  /** Where the distance stored at `site` is stored in the new code. */
  function NewSite(code: seq<byte>, newLocal: nat, base: nat, site: nat): nat {
    site + Shift(code, newLocal, base)
  }

  predicate Fits(code: seq<byte>, newLocal: nat, base: nat, site: nat)
    requires JumpSite(code, base, site)
  {
    IsNarrowJump(code[base]) ==> -0x8000 <= NewDistance(code, newLocal, base, site) < 0x8000
  }

  /** The new code, which starts at `at`, stores the relocated distance. */
  predicate SiteDone(code: seq<byte>, newLocal: nat, at: nat, out: seq<byte>, base: nat, site: nat)
    requires JumpSite(code, base, site)
  {
    var q := at + NewSite(code, newLocal, base, site);
    q + SiteWidth(code[base]) <= |out|
    && (if IsNarrowJump(code[base]) then S16(Get16(out, q)) else S32(Get32(out, q))) == NewDistance(code, newLocal, base, site)
  }

  predicate Covers(code: seq<byte>, newLocal: nat, base: nat, site: nat, q: int)
    requires base < |code|
  {
    NewSite(code, newLocal, base, site) <= q < NewSite(code, newLocal, base, site) + SiteWidth(code[base])
  }

  function Base(jump: nat): nat { jump % 0x1_0000 }

  function Site(jump: nat): nat { jump / 0x1_0000 }

  /** Every jump leads somewhere, and no two distances overlap in the new code. */
  ghost predicate GoodJumps(code: seq<byte>, newLocal: nat, jumps: seq<nat>) {
    && (forall j | 0 <= j < |jumps| :: JumpSite(code, Base(jumps[j]), Site(jumps[j])))
    && (forall a, b | 0 <= a < b < |jumps| ::
          NewSite(code, newLocal, Base(jumps[a]), Site(jumps[a])) + SiteWidth(code[Base(jumps[a])])
          <= NewSite(code, newLocal, Base(jumps[b]), Site(jumps[b])))
  }

  /** The first `k` jumps are relocated and nothing else is touched. */
  ghost predicate Patched(code: seq<byte>, newLocal: nat, at: nat, first: seq<byte>, out: seq<byte>, jumps: seq<nat>, k: nat)
    requires GoodJumps(code, newLocal, jumps) && k <= |jumps|
  {
    && |out| == |first|
    && (forall j | 0 <= j < k :: SiteDone(code, newLocal, at, out, Base(jumps[j]), Site(jumps[j])))
    && (forall q | 0 <= q < |out| && (forall j | 0 <= j < k :: !Covers(code, newLocal, Base(jumps[j]), Site(jumps[j]), q - at)) ::
          out[q] == first[q])
  }

  /** The relocation table agrees with the layout at every instruction. */
  ghost predicate TableOk(code: seq<byte>, newLocal: nat, table: seq<u16>) {
    |table| == |code| + 1 && forall s: nat | s < |code| && IsStart(code, s) :: table[s] == Shift(code, newLocal, s)
  }

  /** Everything the second scan computes for a jump stays within 16 bits. */
  lemma JumpArithmetic(code: seq<byte>, newLocal: nat, base: nat, site: nat, table: seq<u16>)
    requires JumpSite(code, base, site) && Walks(code, 0) && TableOk(code, newLocal, table)
    requires |code| + Shift(code, newLocal, |code|) <= 65534
    ensures base < |code| && site + SiteWidth(code[base]) <= |code|
    ensures var target := base + OldDistance(code, base, site);
            && 0 <= target < |code|
            && base + table[base] == Image(code, newLocal, base)
            && target + table[target] == Image(code, newLocal, target) <= 65534
            && NewDistance(code, newLocal, base, site) == target + table[target] - (base + table[base])
            && NewSite(code, newLocal, base, site) == site + table[base]
            && 0 <= base + table[base] < site + table[base]
            && site + table[base] + SiteWidth(code[base]) <= |code| + Shift(code, newLocal, |code|)
  {
    hide Decode, OldDistance;
    EndIsStart(code, 0);
    ShiftMonotone(code, newLocal, base, |code|);
    ShiftMonotone(code, newLocal, base + OldDistance(code, base, site), |code|);
  }

  lemma ReadBack16(out: seq<byte>, q: nat, v: int)
    requires q + 2 <= |out| && -0x8000 <= v < 0x8000 && out[q..q + 2] == Put16(U16(v))
    ensures S16(Get16(out, q)) == v
  {
    hide Put16;
    assert Get16(out, q) == Get16(out[q..q + 2], 0);
  }

  lemma ReadBack32(out: seq<byte>, q: nat, v: int)
    requires q + 4 <= |out| && -0x8000_0000 <= v < 0x8000_0000 && out[q..q + 4] == Put32(U32(v))
    ensures S32(Get32(out, q)) == v
  {
    hide Put32;
    assert Get32(out, q) == Get32(out[q..q + 4], 0);
  }

  lemma SiteWritten(code: seq<byte>, newLocal: nat, at: nat, out: seq<byte>, base: nat, site: nat)
    requires JumpSite(code, base, site)
    requires var q := at + NewSite(code, newLocal, base, site);
             var v := NewDistance(code, newLocal, base, site);
             && q + SiteWidth(code[base]) <= |out|
             && -0x8000_0000 <= v < 0x8000_0000
             && (IsNarrowJump(code[base]) ==> -0x8000 <= v < 0x8000)
             && out[q..q + SiteWidth(code[base])] == if IsNarrowJump(code[base]) then Put16(U16(v)) else Put32(U32(v))
    ensures SiteDone(code, newLocal, at, out, base, site)
  {
    hide Decode, NewDistance, NewSite, Put16, Put32, Get16, Get32, S16, S32, U16, U32;
    var q := at + NewSite(code, newLocal, base, site);
    if IsNarrowJump(code[base]) {
      ReadBack16(out, q, NewDistance(code, newLocal, base, site));
    } else {
      ReadBack32(out, q, NewDistance(code, newLocal, base, site));
    }
  }

  lemma {:induction false} EndIsStart(code: seq<byte>, i: nat)
    requires Walks(code, i)
    ensures Reaches(code, i, |code|)
    decreases |code| - i
  {
    hide Decode;
    if i < |code| {
      EndIsStart(code, i + Decode(code, i).value.len);
    }
  }

  /** The opcode of a jump is not part of any distance. */
  lemma OpcodeUncovered(code: seq<byte>, newLocal: nat, base: nat, other: nat, site: nat)
    requires JumpSite(code, other, site) && IsStart(code, base) && base < |code| && Walks(code, 0)
    ensures !Covers(code, newLocal, other, site, Image(code, newLocal, base))
  {
    hide Decode, OldDistance;
    ShiftMonotone(code, newLocal, base, other);
    ShiftMonotone(code, newLocal, other, base);
  }

  /** Code that class file verification admits, as far as the rewriter relies on it. */
  ghost predicate WellFormed(code: seq<byte>) {
    && 0 < |code| <= 65534 && Walks(code, 0)
    && forall i: nat | i < |code| && IsStart(code, i) && Decode(code, i).Some? :: TargetsOk(code, Targets(Decode(code, i).value.instr))
  }

  /** Every one of `targets` is the pc of an instruction. */
  predicate TargetsOk(code: seq<byte>, targets: seq<int>) {
    forall k | 0 <= k < |targets| :: 0 <= targets[k] < |code| && IsStart(code, targets[k])
  }

  /** The sites of an instruction are its targets, one by one, in order and apart. */
  ghost predicate SitesMatch(code: seq<byte>, i: nat, sites: seq<nat>, targets: seq<int>, len: nat)
    requires i + len <= |code| && len > 0
  {
    && |sites| == |targets|
    && (forall k | 0 <= k < |sites| ::
          i < sites[k] && sites[k] + SiteWidth(code[i]) <= i + len && i + OldDistance(code, i, sites[k]) == targets[k])
    && (forall a, b | 0 <= a < b < |sites| :: sites[a] + SiteWidth(code[i]) <= sites[b])
    && (sites != [] ==> !IsReturn(code[i]) && !HasImplicitLocal(code[i]))
  }

  lemma SitesAreTargets(code: seq<byte>, i: nat)
    requires Decode(code, i).Some? && |code| <= 65534 && SwitchShape(code, i)
    ensures SitesMatch(code, i, Sites(code, i), Targets(Decode(code, i).value.instr), Decode(code, i).value.len)
  {
    hide Get32, Get16, S32, S16;
    if code[i] == TABLESWITCH {
      TableTargets(code, i);
    } else if code[i] == LOOKUPSWITCH {
      LookupTargets(code, i);
    } else if code[i] == WIDE {
    } else {
      PlainTargets(code, i);
    }
  }

  lemma PlainTargets(code: seq<byte>, i: nat)
    requires Decode(code, i).Some? && |code| <= 65534 && SwitchShape(code, i)
    requires code[i] != TABLESWITCH && code[i] != LOOKUPSWITCH && code[i] != WIDE
    ensures SitesMatch(code, i, Sites(code, i), Targets(Decode(code, i).value.instr), Decode(code, i).value.len)
  {
    hide S32, S16;
    var b := code[i..i + OpcodeLength(code[i])];
    assert |b| >= 3 ==> Get16(b, 1) == Get16(code, i + 1);
    assert |b| >= 5 ==> Get32(b, 1) == Get32(code, i + 1);
  }

  lemma TableTargets(code: seq<byte>, i: nat)
    requires DecodeTable(code, i).Some? && |code| <= 65534 && SwitchShape(code, i) && code[i] == TABLESWITCH
    ensures SitesMatch(code, i, Sites(code, i), Targets(DecodeTable(code, i).value.instr), DecodeTable(code, i).value.len)
  {
    hide Get32, S32, Sites, Targets, DecodeTable, SwitchShape, TableCount, SwitchBase;
    TableSitesAre(code, i);
    TableTargetsAre(code, i);
  }

  /** The sites of a `tableswitch`: the default, then the words after the bounds. */
  lemma TableSitesAre(code: seq<byte>, i: nat)
    requires SwitchShape(code, i) && code[i] == TABLESWITCH
    ensures var d, sites := SwitchBase(i), Sites(code, i);
            i < d && d + 12 <= |code| && 0 <= TableCount(code, d) && |sites| == 1 + TableCount(code, d)
            && forall k | 0 <= k < |sites| :: sites[k] == if k == 0 then d else d + 8 + 4 * k
  {
    hide Get32, S32;
  }

  lemma TableTargetsAre(code: seq<byte>, i: nat)
    requires DecodeTable(code, i).Some? && SwitchShape(code, i) && code[i] == TABLESWITCH
    ensures var d, r := SwitchBase(i), DecodeTable(code, i).value;
            d + 12 <= |code| && 0 <= TableCount(code, d) && i + r.len == d + 12 + 4 * TableCount(code, d)
            && |Targets(r.instr)| == 1 + TableCount(code, d)
            && forall k | 0 <= k < |Targets(r.instr)| ::
                 Targets(r.instr)[k] == i + S32(Get32(code, if k == 0 then d else d + 8 + 4 * k))
  {
    hide Get32, S32;
  }

  lemma LookupTargets(code: seq<byte>, i: nat)
    requires DecodeLookup(code, i).Some? && |code| <= 65534 && SwitchShape(code, i) && code[i] == LOOKUPSWITCH
    ensures SitesMatch(code, i, Sites(code, i), Targets(DecodeLookup(code, i).value.instr), DecodeLookup(code, i).value.len)
  {
    hide Get32, S32, Sites, Targets, DecodeLookup, SwitchShape, PairCount, SwitchBase;
    LookupSitesAre(code, i);
    LookupTargetsAre(code, i);
  }

  /** The sites of a `lookupswitch`: the default, then the second word of each pair. */
  lemma LookupSitesAre(code: seq<byte>, i: nat)
    requires SwitchShape(code, i) && code[i] == LOOKUPSWITCH
    ensures var d, sites := SwitchBase(i), Sites(code, i);
            i < d && d + 8 <= |code| && 0 <= PairCount(code, d) && |sites| == 1 + PairCount(code, d)
            && forall k | 0 <= k < |sites| :: sites[k] == if k == 0 then d else d + 4 + 8 * k
  {
    hide Get32, S32;
  }

  lemma LookupTargetsAre(code: seq<byte>, i: nat)
    requires DecodeLookup(code, i).Some? && SwitchShape(code, i) && code[i] == LOOKUPSWITCH
    ensures var d, r := SwitchBase(i), DecodeLookup(code, i).value;
            d + 8 <= |code| && 0 <= PairCount(code, d) && i + r.len == d + 8 + 8 * PairCount(code, d)
            && |Targets(r.instr)| == 1 + PairCount(code, d)
            && forall k | 0 <= k < |Targets(r.instr)| ::
                 Targets(r.instr)[k] == i + S32(Get32(code, if k == 0 then d else d + 4 + 8 * k))
  {
    hide Get32, S32;
  }

  lemma Unpack(base: nat, site: nat)
    requires base < 0x1_0000
    ensures Base(Pack(base, site)) == base && Site(Pack(base, site)) == site
  {
  }

  /** The jumps of one instruction lead somewhere and lie apart. */
  lemma OwnJumps(code: seq<byte>, newLocal: nat, i: nat)
    requires WellFormed(code) && i < |code| && IsStart(code, i) && Decode(code, i).Some? && SwitchShape(code, i)
    ensures GoodJumps(code, newLocal, Packed(i, Sites(code, i)))
    ensures forall j | 0 <= j < |Sites(code, i)| ::
              && Base(Packed(i, Sites(code, i))[j]) == i
              && Site(Packed(i, Sites(code, i))[j]) == Sites(code, i)[j]
  {
    hide Decode, Sites, SwitchShape, Base, Site, Pack, IsStart, Shift;
    var sites, targets := Sites(code, i), Targets(Decode(code, i).value.instr);
    SitesAreTargets(code, i);
    forall j | 0 <= j < |sites|
      ensures Base(Packed(i, sites)[j]) == i && Site(Packed(i, sites)[j]) == sites[j] && JumpSite(code, i, sites[j])
    {
      Unpack(i, sites[j]);
      assert i + OldDistance(code, i, sites[j]) == targets[j];
    }
  }

  lemma {:induction false} GoodJumpsFrom(code: seq<byte>, newLocal: nat, i: nat)
    requires WellFormed(code) && IsStart(code, i) && Walks(code, i)
    ensures GoodJumps(code, newLocal, Jumps(code, i))
    ensures forall j | 0 <= j < |Jumps(code, i)| :: i <= Base(Jumps(code, i)[j])
    decreases |code| - i
  {
    hide Decode, Sites, SwitchShape, Base, Site, Packed, IsStart, Shift, OldDistance, Growth;
    if i < |code| {
      DecodedSwitchShape(code, i);
      var next := i + Decode(code, i).value.len;
      ShiftStep(code, newLocal, i);
      OwnJumps(code, newLocal, i);
      GoodJumpsFrom(code, newLocal, next);
      var own, rest := Packed(i, Sites(code, i)), Jumps(code, next);
      assert Jumps(code, i) == own + rest;
      forall a, b | 0 <= a < |own| && 0 <= b < |rest|
        ensures NewSite(code, newLocal, Base(own[a]), Site(own[a])) + SiteWidth(code[Base(own[a])])
             <= NewSite(code, newLocal, Base(rest[b]), Site(rest[b]))
      {
        ShiftMonotone(code, newLocal, i, Base(rest[b]));
      }
    }
  }

  /** Every site of every instruction is among the collected jumps. */
  lemma {:induction false} SiteCollected(code: seq<byte>, from: nat, i: nat, k: nat) returns (j: nat)
    requires |code| <= 65534 && Walks(code, from) && Reaches(code, from, i) && i < |code| && Decode(code, i).Some? && SwitchShape(code, i)
    requires k < |Sites(code, i)|
    ensures j < |Jumps(code, from)| && Jumps(code, from)[j] == Pack(i, Sites(code, i)[k])
    decreases |code| - from
  {
    hide Decode, Sites, SwitchShape, Pack;
    if from == i {
      j := k;
    } else {
      DecodedSwitchShape(code, from);
      j := SiteCollected(code, from + Decode(code, from).value.len, i, k);
      j := j + |Packed(from, Sites(code, from))|;
    }
  }

  /** One more relocated jump disturbs none of the earlier ones. */
  lemma PatchedStart(code: seq<byte>, newLocal: nat, at: nat, first: seq<byte>, jumps: seq<nat>)
    requires GoodJumps(code, newLocal, jumps)
    ensures Patched(code, newLocal, at, first, first, jumps, 0)
  {
    hide GoodJumps, SiteDone, Covers;
  }

  lemma JumpAt(code: seq<byte>, newLocal: nat, jumps: seq<nat>, k: nat)
    requires GoodJumps(code, newLocal, jumps) && k < |jumps|
    ensures JumpSite(code, Base(jumps[k]), Site(jumps[k]))
  {
    hide JumpSite, NewSite, Base, Site;
  }

  lemma PatchedOnward(code: seq<byte>, newLocal: nat, at: nat, first: seq<byte>, out: seq<byte>, out': seq<byte>, jumps: seq<nat>, k: nat)
    requires GoodJumps(code, newLocal, jumps) && k < |jumps| && Patched(code, newLocal, at, first, out, jumps, k)
    requires |out'| == |out| && SiteDone(code, newLocal, at, out', Base(jumps[k]), Site(jumps[k]))
    requires forall q | 0 <= q < |out'| && !Covers(code, newLocal, Base(jumps[k]), Site(jumps[k]), q - at) :: out'[q] == out[q]
    ensures Patched(code, newLocal, at, first, out', jumps, k + 1)
  {
    hide Decode, Base, Site, JumpSite, NewDistance, NewSite, SiteWidth, SiteDone;
    forall j | 0 <= j < k
      ensures SiteDone(code, newLocal, at, out', Base(jumps[j]), Site(jumps[j]))
    {
      SiteKept(code, newLocal, at, out, out', Base(jumps[j]), Site(jumps[j]));
    }
  }

  lemma SiteKept(code: seq<byte>, newLocal: nat, at: nat, out: seq<byte>, out': seq<byte>, base: nat, site: nat)
    requires JumpSite(code, base, site) && SiteDone(code, newLocal, at, out, base, site) && |out'| == |out|
    requires forall q | 0 <= q < |out| && Covers(code, newLocal, base, site, q - at) :: out'[q] == out[q]
    ensures SiteDone(code, newLocal, at, out', base, site)
  {
    hide Decode, NewDistance, NewSite, S16, S32;
    var q := at + NewSite(code, newLocal, base, site);
    assert out'[q] == out[q] && out'[q + 1] == out[q + 1];
    if !IsNarrowJump(code[base]) {
      assert out'[q + 2] == out[q + 2] && out'[q + 3] == out[q + 3];
    }
  }

  /** The instruction at `i` was copied to its image, its distances relocated. */
  ghost predicate InstrCopied(code: seq<byte>, newLocal: byte, p: Probe, out: seq<byte>, i: nat)
    requires WellFormed(code) && i < |code| && IsStart(code, i) && Decode(code, i).Some?
  {
    DecodedSwitchShape(code, i);
    var copy := EmitRaw(Raw(code, i), newLocal, p);
    var at := Image(code, newLocal, i);
    && 0 <= at && at + |copy| <= |out|
    && (forall k | 0 <= k < |Sites(code, i)| ::
          JumpSite(code, i, Sites(code, i)[k]) && SiteDone(code, newLocal, 0, out, i, Sites(code, i)[k]))
    && (forall x | 0 <= x < |copy| && (forall k | 0 <= k < |Sites(code, i)| :: !Covers(code, newLocal, i, Sites(code, i)[k], at + x)) ::
          out[at + x] == copy[x])
  }

  /** `out` is the code the two scans promise. */
  ghost predicate Copied(code: seq<byte>, newLocal: byte, p: Probe, out: seq<byte>)
    requires WellFormed(code)
  {
    && |out| == Image(code, newLocal, |code|)
    && out[..8] == EntryCode(newLocal, p)
    && forall i: nat | i < |code| && IsStart(code, i) && Decode(code, i).Some? :: InstrCopied(code, newLocal, p, out, i)
  }

  lemma {:induction false} EmitAt(code: seq<byte>, newLocal: byte, p: Probe, from: nat, i: nat)
    requires Walks(code, from) && Reaches(code, from, i) && i < |code| && Decode(code, i).Some?
    ensures var x := i - from + GrowthBetween(code, newLocal, from, i);
            var copy := EmitRaw(Raw(code, i), newLocal, p);
            0 <= x && x + |copy| <= |Emit(code, newLocal, p, from)| && Emit(code, newLocal, p, from)[x..x + |copy|] == copy
    decreases |code| - from
  {
    hide Decode, EmitRaw, Raw;
    if from < i {
      var next := from + Decode(code, from).value.len;
      EmitAt(code, newLocal, p, next, i);
      ReachesForward(code, next, i);
      var x := i - next + GrowthBetween(code, newLocal, next, i);
      var own, copy := EmitRaw(Raw(code, from), newLocal, p), EmitRaw(Raw(code, i), newLocal, p);
      assert Emit(code, newLocal, p, from) == own + Emit(code, newLocal, p, next);
      SliceShifted(own, Emit(code, newLocal, p, next), x, copy);
    }
  }

  lemma SliceShifted(a: seq<byte>, b: seq<byte>, x: nat, w: seq<byte>)
    requires x + |w| <= |b| && b[x..x + |w|] == w
    ensures (a + b)[|a| + x..|a| + x + |w|] == w
  {
    forall k | 0 <= k < |w| ensures (a + b)[|a| + x + k] == w[k] {
      assert b[x..x + |w|][k] == w[k];
    }
  }

  lemma {:induction false} EmitLength(code: seq<byte>, newLocal: byte, p: Probe, from: nat)
    requires Walks(code, from)
    ensures |Emit(code, newLocal, p, from)| == |code| - from + GrowthBetween(code, newLocal, from, |code|)
    decreases |code| - from
  {
    hide Decode, EmitRaw, Raw;
    if from < |code| {
      EmitLength(code, newLocal, p, from + Decode(code, from).value.len);
    }
  }

  /** Conversely, every collected jump is a site of its instruction. */
  lemma {:induction false} JumpOrigin(code: seq<byte>, from: nat, j: nat) returns (k: nat)
    requires WellFormed(code) && Walks(code, from) && IsStart(code, from) && j < |Jumps(code, from)|
    ensures var i := Base(Jumps(code, from)[j]);
            && i < |code| && IsStart(code, i) && Decode(code, i).Some? && SwitchShape(code, i)
            && k < |Sites(code, i)| && Site(Jumps(code, from)[j]) == Sites(code, i)[k]
    decreases |code| - from
  {
    hide Decode, Sites, SwitchShape, Base, Site, Shift, IsStart;
    DecodedSwitchShape(code, from);
    var own := Packed(from, Sites(code, from));
    OwnJumps(code, 0, from);
    if j < |own| {
      k := j;
    } else {
      ShiftStep(code, 0, from);
      k := JumpOrigin(code, from + Decode(code, from).value.len, j - |own|);
    }
  }

  /** Bytes of an instruction that none of its own distances covers are covered by no distance. */
  lemma OnlyOwnSites(code: seq<byte>, newLocal: byte, p: Probe, i: nat, x: nat, j: nat)
    requires WellFormed(code) && i < |code| && IsStart(code, i) && Decode(code, i).Some? && SwitchShape(code, i)
    requires GoodJumps(code, newLocal, Jumps(code, 0)) && j < |Jumps(code, 0)|
    requires x < |EmitRaw(Raw(code, i), newLocal, p)|
    requires forall k | 0 <= k < |Sites(code, i)| :: !Covers(code, newLocal, i, Sites(code, i)[k], Image(code, newLocal, i) + x)
    ensures !Covers(code, newLocal, Base(Jumps(code, 0)[j]), Site(Jumps(code, 0)[j]), Image(code, newLocal, i) + x)
  {
    assert IsStart(code, 0);
    hide Decode, Sites, SwitchShape, Base, Site, Shift, IsStart, EmitRaw, OldDistance, Jumps;
    var k := JumpOrigin(code, 0, j);
    var base := Base(Jumps(code, 0)[j]);
    if base != i {
      assert JumpSite(code, base, Site(Jumps(code, 0)[j]));
      ShiftMonotone(code, newLocal, base, i);
      ShiftMonotone(code, newLocal, i, base);
    }
  }

  lemma SiteSliced(code: seq<byte>, newLocal: nat, at: nat, out: seq<byte>, base: nat, site: nat)
    requires JumpSite(code, base, site) && at <= |out| && SiteDone(code, newLocal, at, out, base, site)
    ensures SiteDone(code, newLocal, 0, out[at..], base, site)
  {
    hide Decode, NewDistance, NewSite, S16, S32;
  }

  lemma SitesPatched(code: seq<byte>, newLocal: byte, at: nat, first: seq<byte>, out: seq<byte>, i: nat)
    requires WellFormed(code) && i < |code| && IsStart(code, i) && Decode(code, i).Some? && SwitchShape(code, i)
    requires GoodJumps(code, newLocal, Jumps(code, 0)) && at <= |out|
    requires Patched(code, newLocal, at, first, out, Jumps(code, 0), |Jumps(code, 0)|)
    ensures forall k | 0 <= k < |Sites(code, i)| ::
              JumpSite(code, i, Sites(code, i)[k]) && SiteDone(code, newLocal, 0, out[at..], i, Sites(code, i)[k])
  {
    hide Decode, Sites, SwitchShape, Base, Site, OldDistance, Jumps, SiteDone, Covers, Shift;
    forall k | 0 <= k < |Sites(code, i)|
      ensures JumpSite(code, i, Sites(code, i)[k]) && SiteDone(code, newLocal, 0, out[at..], i, Sites(code, i)[k])
    {
      var j := SiteCollected(code, 0, i, k);
      Unpack(i, Sites(code, i)[k]);
      SiteSliced(code, newLocal, at, out, i, Sites(code, i)[k]);
    }
  }

  lemma BytePatched(code: seq<byte>, newLocal: byte, p: Probe, at: nat, first: seq<byte>, out: seq<byte>, i: nat, x: nat)
    requires WellFormed(code) && i < |code| && IsStart(code, i) && Decode(code, i).Some? && SwitchShape(code, i)
    requires GoodJumps(code, newLocal, Jumps(code, 0))
    requires Patched(code, newLocal, at, first, out, Jumps(code, 0), |Jumps(code, 0)|)
    requires x < |EmitRaw(Raw(code, i), newLocal, p)| && 0 <= Image(code, newLocal, i) && at + Image(code, newLocal, i) + x < |first|
    requires forall k | 0 <= k < |Sites(code, i)| :: !Covers(code, newLocal, i, Sites(code, i)[k], Image(code, newLocal, i) + x)
    ensures out[at + Image(code, newLocal, i) + x] == first[at + Image(code, newLocal, i) + x]
  {
    hide Decode, Sites, SwitchShape, Base, Site, EmitRaw, OldDistance, Jumps, SiteDone, Covers, Shift, IsStart, Raw;
    forall j | 0 <= j < |Jumps(code, 0)|
      ensures !Covers(code, newLocal, Base(Jumps(code, 0)[j]), Site(Jumps(code, 0)[j]), Image(code, newLocal, i) + x)
    {
      OnlyOwnSites(code, newLocal, p, i, x, j);
    }
  }

  lemma InstrPatched(code: seq<byte>, newLocal: byte, p: Probe, start: seq<byte>, out: seq<byte>, i: nat)
    requires WellFormed(code) && i < |code| && IsStart(code, i) && Decode(code, i).Some?
    requires GoodJumps(code, newLocal, Jumps(code, 0))
    requires Patched(code, newLocal, |start|, start + EntryCode(newLocal, p) + Emit(code, newLocal, p, 0), out, Jumps(code, 0), |Jumps(code, 0)|)
    ensures |start| <= |out| && InstrCopied(code, newLocal, p, out[|start|..], i)
  {
    hide Decode, Sites, SwitchShape, EmitRaw, Raw, EntryCode, Jumps, Emit, JumpSite, SiteDone, Covers, GoodJumps, Patched, TargetsOk;
    var at, first := |start|, start + EntryCode(newLocal, p) + Emit(code, newLocal, p, 0);
    var copy := EmitRaw(Raw(code, i), newLocal, p);
    PatchedLength(code, newLocal, at, first, out);
    EmitAt(code, newLocal, p, 0, i);
    DecodedSwitchShape(code, i);
    SitesPatched(code, newLocal, at, first, out, i);
    forall x | 0 <= x < |copy| && (forall k | 0 <= k < |Sites(code, i)| :: !Covers(code, newLocal, i, Sites(code, i)[k], Image(code, newLocal, i) + x))
      ensures out[at..][Image(code, newLocal, i) + x] == copy[x]
    {
      BytePatched(code, newLocal, p, at, first, out, i, x);
    }
  }

  lemma PatchedLength(code: seq<byte>, newLocal: byte, at: nat, first: seq<byte>, out: seq<byte>)
    requires WellFormed(code) && GoodJumps(code, newLocal, Jumps(code, 0))
    requires Patched(code, newLocal, at, first, out, Jumps(code, 0), |Jumps(code, 0)|)
    ensures |out| == |first|
    ensures Walks(code, 0)
    ensures forall q | 0 <= q < |out| && q < at + 8 :: out[q] == first[q]
  {
    hide Decode, Jumps, SiteDone;
  }

  /** The two scans together. */
  lemma ScansCopy(code: seq<byte>, newLocal: byte, p: Probe, start: seq<byte>, out: seq<byte>)
    requires WellFormed(code) && GoodJumps(code, newLocal, Jumps(code, 0))
    requires Patched(code, newLocal, |start|, start + EntryCode(newLocal, p) + Emit(code, newLocal, p, 0), out, Jumps(code, 0), |Jumps(code, 0)|)
    ensures |start| <= |out| && out[..|start|] == start && Copied(code, newLocal, p, out[|start|..])
  {
    hide Decode, EmitRaw, Raw, EntryCode, Jumps, Emit, GoodJumps, Patched, TargetsOk, InstrCopied;
    var at, first := |start|, start + EntryCode(newLocal, p) + Emit(code, newLocal, p, 0);
    PatchedLength(code, newLocal, at, first, out);
    EmitLength(code, newLocal, p, 0);
    assert out[..at] == first[..at] == start;
    assert out[at..][..8] == first[at..at + 8] == EntryCode(newLocal, p);
    forall i: nat | i < |code| && IsStart(code, i) && Decode(code, i).Some?
      ensures InstrCopied(code, newLocal, p, out[at..], i)
    {
      InstrPatched(code, newLocal, p, start, out, i);
    }
  }

  /** Opcodes of jumps are where the second scan looks for them. */
  lemma OpcodeInPlace(code: seq<byte>, newLocal: byte, p: Probe, start: seq<byte>, out: seq<byte>, k: nat, i: nat)
    requires WellFormed(code) && GoodJumps(code, newLocal, Jumps(code, 0)) && k <= |Jumps(code, 0)|
    requires Patched(code, newLocal, |start|, start + EntryCode(newLocal, p) + Emit(code, newLocal, p, 0), out, Jumps(code, 0), k)
    requires i < |code| && IsStart(code, i) && Decode(code, i).Some? && !IsReturn(code[i]) && !HasImplicitLocal(code[i])
    ensures 0 <= Image(code, newLocal, i) && |start| + Image(code, newLocal, i) < |out| == |start| + |code| + Shift(code, newLocal, |code|)
    ensures out[|start| + Image(code, newLocal, i)] == code[i]
  {
    hide Decode, EntryCode, Jumps, Emit, TargetsOk, SiteDone, Base, Site, OldDistance, EmitRaw, LocalShape, IsReturn, HasImplicitLocal;
    var at, first := |start|, start + EntryCode(newLocal, p) + Emit(code, newLocal, p, 0);
    EmitAt(code, newLocal, p, 0, i);
    EmitLength(code, newLocal, p, 0);
    var q := at + Image(code, newLocal, i);
    FirstByteKept(Raw(code, i), newLocal, p);
    assert first[q] == EmitRaw(Raw(code, i), newLocal, p)[0];
    forall j | 0 <= j < k
      ensures !Covers(code, newLocal, Base(Jumps(code, 0)[j]), Site(Jumps(code, 0)[j]), q - at)
    {
      OpcodeUncovered(code, newLocal, i, Base(Jumps(code, 0)[j]), Site(Jumps(code, 0)[j]));
    }
  }

  lemma FirstByteKept(raw: seq<byte>, newLocal: byte, p: Probe)
    requires LocalShape(raw) && !IsReturn(raw[0]) && !HasImplicitLocal(raw[0])
    ensures EmitRaw(raw, newLocal, p)[0] == raw[0]
  {
  }
}
