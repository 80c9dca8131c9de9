/** The front-coded name pool of the flame graph: `printCpool` and the page's `unpack`. */
module NamePool {
  import opened Bytes
  import opened Utf8

  /** A name as text, and the number of leading characters shared with the name before it. */
  datatype Entry = Entry(shared: nat, rest: seq<byte>)

  /** `getCommonPrefix`. Where `char` is signed, no byte is greater than 127. */
  function CommonPrefix(a: seq<byte>, b: seq<byte>, signedChar: bool): (n: nat)
    ensures n <= |a| && n <= |b| && a[..n] == b[..n]
    ensures !signedChar ==> forall i | 0 <= i < n :: a[i] < 0x80
  {
    if a == [] || b == [] || a[0] != b[0] || (!signedChar && a[0] > 127) then 0
    else
      var n := CommonPrefix(a[1..], b[1..], signedChar);
      assert a[..n + 1] == [a[0]] + a[1..][..n] && b[..n + 1] == [b[0]] + b[1..][..n];
      n + 1
  }

  function Pack(prev: seq<byte>, name: seq<byte>, signedChar: bool): Entry {
    var n := CommonPrefix(prev, name, signedChar);
    var shared := if n > 95 then 95 else n;
    Entry(shared, name[shared..])
  }

  /** All names, each after the one before it. */
  function PackAll(prev: seq<u32>, names: seq<seq<u32>>, signedChar: bool): seq<Entry>
    decreases |names|
  {
    if names == [] then [] else [Pack(EncodeAll(prev), EncodeAll(names[0]), signedChar)] + PackAll(names[0], names[1..], signedChar)
  }

  /** The page sees characters, not bytes: `substring` takes that many characters of the previous name. */
  function Unpack(prev: seq<u32>, e: Entry): Option<seq<u32>> {
    match DecodeAll(e.rest)
    case None => None
    case Some(rest) => Some(prev[..if e.shared < |prev| then e.shared else |prev|] + rest)
  }

  function UnpackAll(prev: seq<u32>, es: seq<Entry>): Option<seq<seq<u32>>>
    decreases |es|
  {
    if es == [] then Some([])
    else
      match Unpack(prev, es[0])
      case None => None
      case Some(name) =>
        match UnpackAll(name, es[1..])
        case None => None
        case Some(more) => Some([name] + more)
  }

  predicate AllNames(names: seq<seq<u32>>) { forall i | 0 <= i < |names| :: AllScalar(names[i]) }

  /** Leading ASCII bytes are as many characters. */
  lemma {:induction false} AsciiPrefix(text: seq<u32>, n: nat)
    requires AllScalar(text) && n <= |EncodeAll(text)| && forall i | 0 <= i < n :: EncodeAll(text)[i] < 0x80
    ensures n <= |text| && EncodeAll(text)[n..] == EncodeAll(text[n..]) && forall i | 0 <= i < n :: text[i] == EncodeAll(text)[i]
    decreases n
  {
    if n == 0 {
      assert text[0..] == text;
    } else {
      FirstAscii(text);
      var bytes, rest := EncodeAll(text), EncodeAll(text[1..]);
      assert bytes == [text[0]] + rest;
      hide EncodeAll;
      forall i | 0 <= i < n - 1 ensures rest[i] < 0x80 { assert bytes[i + 1] == rest[i]; }
      AsciiPrefix(text[1..], n - 1);
      assert text[1..][n - 1..] == text[n..] && bytes[n..] == rest[n - 1..];
      forall i | 0 <= i < n ensures text[i] == bytes[i] { if i > 0 { assert text[1..][i - 1] == rest[i - 1]; } }
    }
  }

  lemma FirstAscii(text: seq<u32>)
    requires AllScalar(text) && |EncodeAll(text)| > 0 && EncodeAll(text)[0] < 0x80
    ensures text != [] && EncodeAll(text) == [text[0]] + EncodeAll(text[1..]) && AllScalar(text[1..])
  {
    EncodeAllParts(text);
    hide *;
    EncodeDecodes(text[0], [], 0);
    AsciiOnly(text[0]);
  }

  lemma AsciiOnly(code: u32)
    requires IsScalar(code) && Encode(code) != [] && Encode(code)[0] < 0x80
    ensures Encode(code) == [code]
  {
  }

  /** The shared bytes are ASCII, or they are all of the name before. */
  predicate CleanCut(prev: seq<byte>, shared: nat)
    requires shared <= |prev|
  {
    shared == |prev| || forall i | 0 <= i < shared :: prev[i] < 0x80
  }

  /** The shared part of a packed name, in bytes. */
  lemma PackShares(a: seq<byte>, b: seq<byte>, signedChar: bool) returns (k: nat)
    ensures k <= |a| && k <= |b| && Pack(a, b, signedChar) == Entry(k, b[k..]) && a[..k] == b[..k]
    ensures !signedChar ==> CleanCut(a, k)
  {
    var n := CommonPrefix(a, b, signedChar);
    k := if n > 95 then 95 else n;
    hide CommonPrefix;
    assert a[..k] == a[..n][..k] && b[..k] == b[..n][..k];
  }

  lemma AsciiShared(prev: seq<u32>, name: seq<u32>, k: nat)
    requires AllScalar(prev) && AllScalar(name) && k <= |EncodeAll(prev)| && k <= |EncodeAll(name)| && EncodeAll(prev)[..k] == EncodeAll(name)[..k]
    requires forall i | 0 <= i < k :: EncodeAll(prev)[i] < 0x80
    ensures Unpack(prev, Entry(k, EncodeAll(name)[k..])) == Some(name)
  {
    var a, b := EncodeAll(prev), EncodeAll(name);
    hide EncodeAll, DecodeAll;
    forall i | 0 <= i < k ensures a[i] < 0x80 && b[i] == a[i] { assert a[..k][i] == b[..k][i]; }
    AsciiPrefix(prev, k);
    AsciiPrefix(name, k);
    assert prev[..k] == name[..k];
    assert AllScalar(name[k..]);
    RoundTrip(name[k..]);
    assert name[..k] + name[k..] == name;
  }

  lemma WholeShared(prev: seq<u32>, name: seq<u32>)
    requires AllScalar(prev) && AllScalar(name) && EncodeAll(prev) <= EncodeAll(name)
    ensures Unpack(prev, Entry(|EncodeAll(prev)|, EncodeAll(name)[|EncodeAll(prev)|..])) == Some(name)
  {
    hide EncodeAll, DecodeAll, AllScalar;
    var a, b := EncodeAll(prev), EncodeAll(name);
    assert a + b[|a|..] == b;
    RoundTrip(name);
    DecodeBehind(prev, b[|a|..]);
    BytesPerCharacter(prev);
    assert prev[..|prev|] == prev;
  }

  lemma {:induction false} BytesPerCharacter(text: seq<u32>)
    requires AllScalar(text)
    ensures |EncodeAll(text)| >= |text|
    ensures |EncodeAll(text)| == |text| ==> forall i | 0 <= i < |EncodeAll(text)| :: EncodeAll(text)[i] < 0x80
  {
    if text != [] {
      EncodeAllParts(text);
      OneByte(text[0]);
      hide Encode, EncodeAll, AllScalar, IsScalar;
      BytesPerCharacter(text[1..]);
    }
  }

  lemma OneByte(code: u32)
    requires IsScalar(code)
    ensures |Encode(code)| >= 1 && (|Encode(code)| == 1 ==> Encode(code)[0] < 0x80)
  {
  }

  /** If the name came back, its shared part stands for as many characters as it has bytes. */
  lemma CutIsClean(prev: seq<u32>, name: seq<u32>, k: nat)
    requires AllScalar(prev) && AllScalar(name) && k <= |EncodeAll(prev)| && k <= |EncodeAll(name)|
    requires Unpack(prev, Entry(k, EncodeAll(name)[k..])) == Some(name)
    ensures CleanCut(EncodeAll(prev), k)
  {
    var m := if k < |prev| then k else |prev|;
    CutBytes(prev, name, k, m);
    EncodeAppend(prev[..m], prev[m..]);
    assert prev[..m] + prev[m..] == prev;
    hide *;
    if m == |prev| {
      EncodeNothing();
      assert prev[m..] == [];
    }
    CutCharacters(prev[..m], EncodeAll(prev[m..]), EncodeAll(prev), k, m == |prev|);
  }

  lemma CutBytes(prev: seq<u32>, name: seq<u32>, k: nat, m: nat)
    requires AllScalar(prev) && AllScalar(name) && k <= |EncodeAll(name)| && m == if k < |prev| then k else |prev|
    requires Unpack(prev, Entry(k, EncodeAll(name)[k..])) == Some(name)
    ensures AllScalar(prev[..m]) && |EncodeAll(prev[..m])| == k
  {
    var rest := EncodeAll(name)[k..];
    DecodedIsEncoded(rest);
    EncodeAppend(prev[..m], DecodeAll(rest).value);
    hide EncodeAll, DecodeAll;
  }

  lemma CutCharacters(head: seq<u32>, tail: seq<byte>, all: seq<byte>, k: nat, whole: bool)
    requires AllScalar(head) && |EncodeAll(head)| == k && all == EncodeAll(head) + tail && (if whole then tail == [] else |head| == k)
    ensures k <= |all| && CleanCut(all, k)
  {
    BytesPerCharacter(head);
    hide EncodeAll, AllScalar;
  }

  /** One name comes back exactly if the cut is clean, whatever `char` is. */
  lemma UnpackExact(prev: seq<u32>, name: seq<u32>, signedChar: bool)
    requires AllScalar(prev) && AllScalar(name)
    ensures var e := Pack(EncodeAll(prev), EncodeAll(name), signedChar);
      e.shared <= |EncodeAll(prev)| && (Unpack(prev, e) == Some(name) <==> CleanCut(EncodeAll(prev), e.shared))
  {
    var a, b := EncodeAll(prev), EncodeAll(name);
    var k := PackShares(a, b, signedChar);
    hide EncodeAll, Pack, Unpack, AllScalar;
    if k == |a| {
      assert a[..k] == a && a <= b;
      WholeShared(prev, name);
    } else if CleanCut(a, k) {
      AsciiShared(prev, name, k);
    } else if Unpack(prev, Entry(k, b[k..])) == Some(name) {
      CutIsClean(prev, name, k);
    }
  }

  lemma UnpackUnsigned(prev: seq<u32>, name: seq<u32>)
    requires AllScalar(prev) && AllScalar(name)
    ensures Unpack(prev, Pack(EncodeAll(prev), EncodeAll(name), false)) == Some(name)
  {
    UnpackExact(prev, name, false);
    var k := PackShares(EncodeAll(prev), EncodeAll(name), false);
    hide *;
  }

  lemma UnpackFirst(prev: seq<u32>, e: Entry, es: seq<Entry>, name: seq<u32>, more: seq<seq<u32>>)
    requires Unpack(prev, e) == Some(name) && UnpackAll(name, es) == Some(more)
    ensures UnpackAll(prev, [e] + es) == Some([name] + more)
  {
    hide Unpack;
    assert ([e] + es)[1..] == es;
  }

  lemma PackFirst(prev: seq<u32>, names: seq<seq<u32>>)
    requires names != [] && AllNames(names)
    ensures PackAll(prev, names, false) == [Pack(EncodeAll(prev), EncodeAll(names[0]), false)] + PackAll(names[0], names[1..], false)
    ensures AllScalar(names[0]) && AllNames(names[1..]) && [names[0]] + names[1..] == names
  {
    hide Pack, AllScalar, EncodeAll;
  }

  /** Where `char` is unsigned, the page gets every name back, whatever the names are. */
  lemma {:induction false} NamesRoundTrip(prev: seq<u32>, names: seq<seq<u32>>)
    requires AllScalar(prev) && AllNames(names)
    ensures UnpackAll(prev, PackAll(prev, names, false)) == Some(names)
    decreases |names|
  {
    if names != [] {
      hide *;
      PackFirst(prev, names);
      UnpackUnsigned(prev, names[0]);
      NamesRoundTrip(names[0], names[1..]);
      UnpackFirst(prev, Pack(EncodeAll(prev), EncodeAll(names[0]), false), PackAll(names[0], names[1..], false), names[0], names[1..]);
    }
  }

  /** Every name is cut off cleanly from the one before it. */
  predicate AllClean(prev: seq<u32>, names: seq<seq<u32>>, signedChar: bool)
    decreases |names|
  {
    names == [] ||
    (var a := EncodeAll(prev);
     var shared := Pack(a, EncodeAll(names[0]), signedChar).shared;
     shared <= |a| && CleanCut(a, shared) && AllClean(names[0], names[1..], signedChar))
  }

  /** The whole pool comes back exactly if every cut is clean, whatever `char` is. */
  lemma {:induction false} PoolExact(prev: seq<u32>, names: seq<seq<u32>>, signedChar: bool)
    requires AllScalar(prev) && AllNames(names)
    ensures UnpackAll(prev, PackAll(prev, names, signedChar)) == Some(names) <==> AllClean(prev, names, signedChar)
    decreases |names|
  {
    if names != [] {
      var e, es := Pack(EncodeAll(prev), EncodeAll(names[0]), signedChar), PackAll(names[0], names[1..], signedChar);
      assert AllScalar(names[0]) && AllNames(names[1..]);
      UnpackExact(prev, names[0], signedChar);
      PoolExact(names[0], names[1..], signedChar);
      hide EncodeAll, Pack, Unpack, AllScalar, CleanCut;
      assert ([e] + es)[0] == e && ([e] + es)[1..] == es;
      UnpackSplits(prev, e, es, names);
    }
  }

  lemma UnpackSplits(prev: seq<u32>, e: Entry, es: seq<Entry>, names: seq<seq<u32>>)
    requires names != []
    ensures UnpackAll(prev, [e] + es) == Some(names) <==> Unpack(prev, e) == Some(names[0]) && UnpackAll(names[0], es) == Some(names[1..])
  {
    hide Unpack;
    assert ([e] + es)[0] == e && ([e] + es)[1..] == es;
    assert names == [names[0]] + names[1..];
    var name := Unpack(prev, e);
    if name.Some? && UnpackAll(name.value, es).Some? {
      var more := UnpackAll(name.value, es).value;
      assert ([name.value] + more)[0] == name.value && ([name.value] + more)[1..] == more;
    }
  }

  lemma DigitBytes(digit: u32)
    requires 0x30 <= digit < 0x3A
    ensures EncodeAll([digit]) == [digit]
  {
    assert [digit][1..] == [];
  }

  lemma AccentedBytes(digit: u32)
    requires 0x30 <= digit < 0x3A
    ensures EncodeAll([0xE9, digit]) == [0xC3, 0xA9, digit]
  {
    DigitBytes(digit);
    assert [0xE9, digit][1..] == [digit];
    assert Encode(0xE9) == [0xC3, 0xA9];
  }

  lemma AccentedPrefix()
    ensures CommonPrefix([0xC3, 0xA9, 0x31], [0xC3, 0xA9, 0x32], true) == 2
  {
    var x: seq<byte>, y: seq<byte> := [0xC3, 0xA9, 0x31], [0xC3, 0xA9, 0x32];
    assert x[1..] == [0xA9, 0x31] && y[1..] == [0xA9, 0x32] && [0xA9, 0x31][1..] == [0x31] && [0xA9, 0x32][1..] == [0x32];
    assert CommonPrefix([0x31], [0x32], true) == 0;
    assert CommonPrefix([0xA9, 0x31], [0xA9, 0x32], true) == 1;
  }

  /** Where `char` is signed, two names that share a non-ASCII letter come out wrong. */
  lemma SignedCharBreaksNames()
    ensures var a, b := [0xE9, 0x31], [0xE9, 0x32];
      Unpack(a, Pack(EncodeAll(a), EncodeAll(b), true)) == Some([0xE9, 0x31, 0x32])
  {
    var a: seq<u32>, b: seq<u32> := [0xE9, 0x31], [0xE9, 0x32];
    AccentedBytes(0x31);
    AccentedBytes(0x32);
    AccentedPrefix();
    hide EncodeAll, CommonPrefix;
    assert EncodeAll(b)[2..] == [0x32];
    assert DecodeAll([0x32]) == Some([0x32]) by { DigitBytes(0x32); RoundTrip([0x32]); }
    assert a[..2] + [0x32] == [0xE9, 0x31, 0x32];
  }
}
