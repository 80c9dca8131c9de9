/** Punycode as the Rust demangler decodes it, against sections 6.1 and 6.2 of RFC 3492. */
module Punycode {
  import opened Bytes
  import opened Utf8

  const SMALL_PUNYCODE_LEN: nat := 128
  const SIZE_MAX: nat := 0xFFFF_FFFF_FFFF_FFFF

  // ------------------------------------------------------------------ the RFC's procedure, on unbounded numbers

  function Digit(c: byte): Option<nat> {
    if 0x61 <= c <= 0x7A then Some(c as int - 0x61)
    else if 0x30 <= c <= 0x39 then Some(26 + (c as int - 0x30))
    else None
  }

  /** The threshold of digit position `k`: `k - bias` clamped to 1..26. */
  function Threshold(k: nat, bias: nat): (t: nat)
    ensures 1 <= t <= 26
  {
    if k <= bias + 1 then 1 else if k >= bias + 26 then 26 else k - bias
  }

  datatype Delta = Delta(value: nat, rest: seq<byte>) | NoDelta

  /** A generalized variable-length integer. */
  function ReadDelta(p: seq<byte>, w: nat, k: nat, bias: nat): Delta
    decreases |p|
  {
    if p == [] || Digit(p[0]).None? then NoDelta
    else
      var d, t := Digit(p[0]).value, Threshold(k, bias);
      if d < t then Delta(d * w, p[1..])
      else
        match ReadDelta(p[1..], w * (36 - t), k + 36, bias)
        case NoDelta => NoDelta
        case Delta(more, rest) => Delta(d * w + more, rest)
  }

  /** The scaling loop of section 6.1. */
  function Scaled(delta: nat, k: nat): (r: (nat, nat)) {
    if delta > 455 then Scaled(delta / 35, k + 36) else (delta, k)
  }

  function Adapted(delta: nat, points: nat, first: bool): nat
    requires points > 0
  {
    var (e, k) := Scaled(Damped(delta, points, first), 0);
    k + Skewed(e)
  }

  /** The delta halved, or damped the first time, and raised by its share of the points. */
  function Damped(delta: nat, points: nat, first: bool): nat
    requires points > 0
  {
    var d := if first then delta / 700 else delta / 2;
    d + Share(d, points)
  }

  function Share(d: nat, points: nat): nat
    requires points > 0
  {
    d / points
  }

  function Skewed(e: nat): nat { 36 * e / (e + 38) }

  /** The decoded text, and the inserted values in the order of their insertion. */
  datatype Decoded = Decoded(text: seq<u32>, inserted: seq<u32>) | Malformed

  lemma ReadDeltaShorter(p: seq<byte>, w: nat, k: nat, bias: nat)
    ensures ReadDelta(p, w, k, bias).Delta? ==> |ReadDelta(p, w, k, bias).rest| < |p|
    decreases |p|
  {
  }

  function Inserted(text: seq<u32>, at: nat, n: u32): seq<u32>
    requires at <= |text|
  {
    text[..at] + [n] + text[at..]
  }

  /** What one round of section 6.2 leaves behind. */
  datatype Round = Round(text: seq<u32>, i: nat, n: u32, delta: nat, rest: seq<byte>) | Stuck

  /** One code point is read and inserted; the demangler limits the length of the text. */
  function OneRound(text: seq<u32>, i: nat, n: nat, bias: nat, p: seq<byte>): (r: Round)
    ensures r.Round? ==> |r.rest| < |p| && |r.text| == |text| + 1
  {
    ReadDeltaShorter(p, 1, 36, bias);
    match ReadDelta(p, 1, 36, bias)
    case NoDelta => Stuck
    case Delta(delta, rest) =>
      var len := |text| + 1;
      var n', at := n + (i + delta) / len, (i + delta) % len;
      if !IsScalar(n') || len > SMALL_PUNYCODE_LEN then Stuck else Round(Inserted(text, at, n'), at + 1, n', delta, rest)
  }

  /** Section 6.2: `i`, `n` and the bias are its variables, `first` is true in the first round. */
  function Decode(text: seq<u32>, i: nat, n: nat, bias: nat, first: bool, p: seq<byte>): Decoded
    decreases |p|
  {
    match OneRound(text, i, n, bias, p)
    case Stuck => Malformed
    case Round(text', i', n', delta, rest) =>
      if rest == [] then Decoded(text', [n'])
      else
        match Decode(text', i', n', Adapted(delta, |text'|, first), false, rest)
        case Malformed => Malformed
        case Decoded(result, more) => Decoded(result, [n'] + more)
  }

  // ------------------------------------------------------------------ what decoding gives

  /** The code points below 0x80, in order. */
  function Basic(text: seq<u32>): seq<u32> {
    if text == [] then [] else if text[0] < 0x80 then [text[0]] + Basic(text[1..]) else Basic(text[1..])
  }

  lemma {:induction false} BasicAppend(a: seq<u32>, b: seq<u32>)
    ensures Basic(a + b) == Basic(a) + Basic(b)
  {
    if a == [] {
      assert a + b == b;
    } else {
      assert (a + b)[1..] == a[1..] + b && (a + b)[0] == a[0];
      BasicAppend(a[1..], b);
    }
  }

  lemma BasicInserted(text: seq<u32>, at: nat, n: u32)
    requires at <= |text| && n >= 0x80
    ensures Basic(Inserted(text, at, n)) == Basic(text)
  {
    var a, b := text[..at], text[at..];
    assert [n][1..] == [] && Basic([n]) == [];
    assert a + b == text;
    hide Basic;
    BasicAppend(a + [n], b);
    BasicAppend(a, [n]);
    BasicAppend(a, b);
    assert Basic(a) + [] == Basic(a);
  }

  predicate Sorted(s: seq<u32>, low: nat) {
    (forall i | 0 <= i < |s| :: low <= s[i] && IsScalar(s[i])) && forall i, j | 0 <= i < j < |s| :: s[i] <= s[j]
  }

  lemma SortedCons(n: u32, s: seq<u32>, low: nat)
    requires Sorted(s, n) && low <= n && IsScalar(n)
    ensures Sorted([n] + s, low)
  {
    hide IsScalar;
  }

  lemma RoundShape(text: seq<u32>, i: nat, n: nat, bias: nat, p: seq<byte>) returns (at: nat)
    requires OneRound(text, i, n, bias, p).Round?
    ensures var r := OneRound(text, i, n, bias, p);
      at <= |text| && r.text == Inserted(text, at, r.n) && n <= r.n && IsScalar(r.n) && |text| < SMALL_PUNYCODE_LEN
  {
    hide ReadDelta, IsScalar, Inserted;
    at := (i + ReadDelta(p, 1, 36, bias).value) % (|text| + 1);
  }

  lemma ScalarInserted(text: seq<u32>, at: nat, n: u32)
    requires AllScalar(text) && IsScalar(n) && at <= |text|
    ensures AllScalar(Inserted(text, at, n)) && |Inserted(text, at, n)| == |text| + 1
  {
    hide IsScalar;
  }

  lemma RoundInserts(text: seq<u32>, i: nat, n: nat, bias: nat, p: seq<byte>)
    requires n >= 0x80 && AllScalar(text) && OneRound(text, i, n, bias, p).Round?
    ensures var r := OneRound(text, i, n, bias, p);
      Basic(r.text) == Basic(text) && AllScalar(r.text) && |r.text| <= SMALL_PUNYCODE_LEN && n <= r.n && IsScalar(r.n)
  {
    hide *;
    var at := RoundShape(text, i, n, bias, p);
    BasicInserted(text, at, OneRound(text, i, n, bias, p).n);
    ScalarInserted(text, at, OneRound(text, i, n, bias, p).n);
  }

  /** Deleting the non-basic code points gives the text back; inserted values are scalar and never decrease. */
  lemma {:induction false} DecodeInserts(text: seq<u32>, i: nat, n: nat, bias: nat, first: bool, p: seq<byte>)
    requires n >= 0x80 && Decode(text, i, n, bias, first, p).Decoded? && AllScalar(text)
    ensures var r := Decode(text, i, n, bias, first, p);
      && Basic(r.text) == Basic(text) && AllScalar(r.text) && |r.text| == |text| + |r.inserted| <= SMALL_PUNYCODE_LEN
      && Sorted(r.inserted, n)
    decreases |p|
  {
    hide IsScalar, OneRound, Adapted, Basic, AllScalar;
    RoundInserts(text, i, n, bias, p);
    var r := OneRound(text, i, n, bias, p);
    if r.rest != [] {
      DecodeInserts(r.text, r.i, r.n, Adapted(r.delta, |r.text|, first), false, r.rest);
      SortedCons(r.n, Decode(r.text, r.i, r.n, Adapted(r.delta, |r.text|, first), false, r.rest).inserted, n);
    }
  }

  /** Decoding an ASCII prefix and its punycode, then encoding as UTF-8 and decoding that, returns the decoded text. */
  lemma DecodedTextSurvivesUtf8(ascii: seq<u32>, p: seq<byte>)
    requires (forall i | 0 <= i < |ascii| :: ascii[i] < 0x80) && Decode(ascii, 0, 0x80, 72, true, p).Decoded?
    ensures var r := Decode(ascii, 0, 0x80, 72, true, p);
      && Basic(r.text) == ascii && Sorted(r.inserted, 0x80) && |r.text| == |ascii| + |r.inserted|
      && DecodeAll(EncodeAll(r.text)) == Some(r.text)
  {
    BasicOfBasic(ascii);
    assert AllScalar(ascii);
    hide *;
    DecodeInserts(ascii, 0, 0x80, 72, true, p);
    RoundTrip(Decode(ascii, 0, 0x80, 72, true, p).text);
  }

  lemma {:induction false} BasicOfBasic(s: seq<u32>)
    requires forall i | 0 <= i < |s| :: s[i] < 0x80
    ensures Basic(s) == s
  {
    if s != [] { BasicOfBasic(s[1..]); }
  }

  // ------------------------------------------------------------------ the decoder, on 64-bit words

  /** The overflow test by division is exact. */
  lemma DivTest(a: nat, w: nat)
    requires w > 0
    ensures a > SIZE_MAX / w <==> a * w > SIZE_MAX
  {
    var q, r := SIZE_MAX / w, SIZE_MAX % w;
    assert SIZE_MAX == q * w + r;
    if a > q { assert a * w >= (q + 1) * w == q * w + w; } else { assert a * w <= q * w; }
  }

  /** What is left of the number, given the digits read so far. */
  ghost predicate Reading(p: seq<byte>, bias: nat, q: seq<byte>, w: nat, k: nat, acc: nat) {
    var more := ReadDelta(q, w, k + 36, bias);
    && 0 < w <= SIZE_MAX && acc <= SIZE_MAX
    && ReadDelta(p, 1, 36, bias) == match more { case NoDelta => NoDelta case Delta(value, rest) => Delta(acc + value, rest) }
  }

  /** A number too large to be the distance of a scalar value in any text that fits. */
  predicate Huge(x: nat) { x > SIZE_MAX / 36 }

  lemma ReadingStep(p: seq<byte>, bias: nat, q: seq<byte>, w: nat, k: nat, acc: nat)
    requires Reading(p, bias, q, w, k, acc)
    ensures q == [] || Digit(q[0]).None? ==> ReadDelta(p, 1, 36, bias) == NoDelta
    ensures q != [] && Digit(q[0]).Some? ==>
      var d, t := Digit(q[0]).value, Threshold(k + 36, bias);
      && (d * w + acc > SIZE_MAX ==> ReadDelta(p, 1, 36, bias).NoDelta? || Huge(ReadDelta(p, 1, 36, bias).value))
      && (d < t ==> ReadDelta(p, 1, 36, bias) == Delta(acc + d * w, q[1..]))
      && (d >= t && acc + d * w <= SIZE_MAX && w * (36 - t) <= SIZE_MAX ==> Reading(p, bias, q[1..], w * (36 - t), k + 36, acc + d * w))
      && (d >= t && w * (36 - t) > SIZE_MAX ==> ReadDelta(p, 1, 36, bias).NoDelta? || Huge(ReadDelta(p, 1, 36, bias).value))
  {
    if q != [] && Digit(q[0]).Some? {
      var d, t := Digit(q[0]).value, Threshold(k + 36, bias);
      assert d * w >= 0;
      if d >= t {
        assert 0 < w * (36 - t) by { assert 36 - t > 0; }
        WideStep(d, w, t);
      }
    }
    hide Digit, Threshold;
  }

  /** A weight that leaves the word comes after a digit that is already huge. */
  lemma WideStep(d: nat, w: nat, t: nat)
    requires 1 <= t <= 26 && d >= t && w > 0
    ensures w * (36 - t) > SIZE_MAX ==> Huge(d * w)
  {
    assert d * w >= w;
    assert w * (36 - t) <= w * 36;
  }

  /** The inner loop: it gives up only on a malformed number or on one that no valid text can have. */
  method ReadNumber(p: seq<byte>, bias: nat) returns (ok: bool, delta: nat, rest: seq<byte>)
    ensures ok ==> ReadDelta(p, 1, 36, bias) == Delta(delta, rest) && delta <= SIZE_MAX
    ensures !ok ==> ReadDelta(p, 1, 36, bias).NoDelta? || Huge(ReadDelta(p, 1, 36, bias).value)
  {
    hide ReadDelta, Digit, Huge;
    var w: nat, k: nat := 1, 0;
    delta, rest := 0, p;
    ReadingStart(p, bias);
    while true
      invariant Reading(p, bias, rest, w, k, delta)
      decreases |rest|
    {
      ReadingStep(p, bias, rest, w, k, delta);
      k := k + 36;
      var biased := if k < bias then 0 else k - bias;
      var t := if biased < 1 then 1 else if biased > 26 then 26 else biased;
      assert t == Threshold(k, bias);
      if rest == [] { return false, delta, rest; }
      var digit := Digit(rest[0]);
      rest := rest[1..];
      if digit.None? { return false, delta, rest; }
      var d := digit.value;
      DivTest(d, w);
      if d > SIZE_MAX / w || d * w > SIZE_MAX - delta { return false, delta, rest; }
      delta := delta + d * w;
      if d < t { return true, delta, rest; }
      DivTest(36 - t, w);
      if 36 - t > SIZE_MAX / w { return false, delta, rest; }
      w := w * (36 - t);
    }
  }

  lemma ReadingStart(p: seq<byte>, bias: nat)
    ensures Reading(p, bias, p, 1, 0, 0)
  {
  }

  /** The scaling loop of the bias adaptation. */
  method Scale(delta0: nat) returns (delta: nat, k: nat)
    ensures (delta, k) == Scaled(delta0, 0)
  {
    delta, k := delta0, 0;
    while delta > 455
      invariant Scaled(delta0, 0) == Scaled(delta, k)
    {
      delta := delta / 35;
      k := k + 36;
    }
  }

  /** The bias adaptation. */
  method AdaptBias(delta0: nat, len: nat, first: bool) returns (bias: nat)
    requires len > 0
    ensures bias == Adapted(delta0, len, first)
  {
    hide Scaled, Skewed, Share;
    var delta: nat := if first then delta0 / 700 else delta0 / 2;
    delta := delta + Share(delta, len);
    var e, k := Scale(delta);
    bias := k + Skewed(e);
  }

  lemma HugeIsStuck(text: seq<u32>, i: nat, n: nat, bias: nat, p: seq<byte>)
    requires |text| <= SMALL_PUNYCODE_LEN && ReadDelta(p, 1, 36, bias).Delta? && Huge(i + ReadDelta(p, 1, 36, bias).value)
    ensures OneRound(text, i, n, bias, p).Stuck?
  {
    hide ReadDelta;
    var x, len := i + ReadDelta(p, 1, 36, bias).value, |text| + 1;
    FarAway(x, len);
  }

  lemma FarAway(x: nat, len: nat)
    requires Huge(x) && 0 < len <= 129
    ensures x / len > 0x10FFFF
  {
    var q := x / len;
    assert x == q * len + x % len;
    assert q <= 0x10FFFF ==> q * len <= 0x10FFFF * len;
  }

  /** `memmove` and store: a code point is inserted into the first `len` elements. */
  method InsertAt(out: array<u32>, len: nat, at: nat, n: u32)
    requires at <= len < out.Length
    modifies out
    ensures out[..len + 1] == Inserted(old(out[..len]), at, n)
  {
    ghost var before := out[..len];
    forall j | at < j <= len { out[j] := out[j - 1]; }
    out[at] := n;
    assert out[..len + 1] == Inserted(before, at, n);
  }

  /** Deciding the rest of the input decides the whole. */
  ghost predicate Continues(whole: Decoded, now: Decoded) {
    (whole.Decoded? <==> now.Decoded?) && (now.Decoded? ==> whole.text == now.text)
  }

  lemma RoundContinues(whole: Decoded, text: seq<u32>, i: nat, n: nat, bias: nat, first: bool, p: seq<byte>)
    requires Continues(whole, Decode(text, i, n, bias, first, p))
    ensures var r := OneRound(text, i, n, bias, p);
      && (r.Stuck? ==> whole.Malformed?)
      && (r.Round? && r.rest == [] ==> whole.Decoded? && whole.text == r.text)
      && (r.Round? && r.rest != [] ==> Continues(whole, Decode(r.text, r.i, r.n, Adapted(r.delta, |r.text|, first), false, r.rest)))
  {
    hide OneRound, Adapted;
  }

  /** One round of the decoder on its array: it stops exactly when the RFC's procedure does. */
  method DecodeRound(out: array<u32>, len: nat, i: nat, n: nat, bias: nat, p: seq<byte>) returns (r: Round)
    requires out.Length == SMALL_PUNYCODE_LEN && len <= SMALL_PUNYCODE_LEN && i <= len && IsScalar(n)
    modifies out
    ensures r == OneRound(old(out[..len]), i, n, bias, p)
    ensures r.Round? ==> len < SMALL_PUNYCODE_LEN && out[..len + 1] == r.text && r.i <= len + 1 && IsScalar(r.n)
  {
    ghost var text := out[..len];
    var ok, delta, rest := ReadNumber(p, bias);
    if !ok {
      if ReadDelta(p, 1, 36, bias).Delta? { HugeIsStuck(text, i, n, bias, p); }
      return Stuck;
    }
    hide ReadDelta, Inserted;
    var len' := len + 1;
    if i > SIZE_MAX - delta {
      HugeIsStuck(text, i, n, bias, p);
      return Stuck;
    }
    var sum := i + delta;
    if n > SIZE_MAX - sum / len' { return Stuck; }
    var n', at := n + sum / len', sum % len';
    if n' > 0xFFFF_FFFF || !IsScalar(n') || len' > SMALL_PUNYCODE_LEN { return Stuck; }
    InsertAt(out, len, at, n');
    r := Round(out[..len'], at + 1, n', delta, rest);
  }

  /**
   `punycode_decode`: it succeeds exactly when section 6.2 of RFC 3492, computed without any limit on the size
   of numbers, yields scalar values only and a text of at most 128, and then with that text.
   */
  method PunycodeDecode(ascii: seq<u32>, p: seq<byte>, out: array<u32>) returns (length: Option<nat>)
    requires out.Length == SMALL_PUNYCODE_LEN
    modifies out
    ensures length.Some? <==> Decode(ascii, 0, 0x80, 72, true, p).Decoded?
    ensures length.Some? ==> length.value <= out.Length && out[..length.value] == Decode(ascii, 0, 0x80, 72, true, p).text
  {
    ghost var whole := Decode(ascii, 0, 0x80, 72, true, p);
    hide ReadDelta, Adapted, Inserted, Decode;
    if p == [] || |ascii| > SMALL_PUNYCODE_LEN {
      NothingToDecode(ascii, p);
      return None;
    }
    for j := 0 to |ascii|
      invariant out[..j] == ascii[..j]
    {
      out[j] := ascii[j];
    }
    assert out[..|ascii|] == ascii;
    var len: nat, i: nat, n: nat, bias: nat := |ascii|, 0, 0x80, 72;
    var first, rest := true, p;
    while true
      invariant i <= len <= SMALL_PUNYCODE_LEN && IsScalar(n)
      invariant Continues(whole, Decode(out[..len], i, n, bias, first, rest))
      decreases |rest|
    {
      RoundContinues(whole, out[..len], i, n, bias, first, rest);
      var r := DecodeRound(out, len, i, n, bias, rest);
      if r.Stuck? { return None; }
      len := len + 1;
      i, n := r.i, r.n;
      if r.rest == [] { return Some(len); }
      bias := AdaptBias(r.delta, len, first);
      first, rest := false, r.rest;
    }
  }

  lemma NothingToDecode(ascii: seq<u32>, p: seq<byte>)
    requires p == [] || |ascii| > SMALL_PUNYCODE_LEN
    ensures Decode(ascii, 0, 0x80, 72, true, p).Malformed?
  {
  }

  // ------------------------------------------------------------------ writing a decoded identifier

  lemma EncodeSize(code: u32)
    ensures |Encode(code)| <= 4
  {
  }

  lemma EncodeNext(codes: seq<u32>, i: nat)
    requires i < |codes|
    ensures EncodeAll(codes[..i + 1]) == EncodeAll(codes[..i]) + Encode(codes[i]) && |Encode(codes[i])| <= 4
  {
    EncodeSize(codes[i]);
    EncodeAppend(codes[..i], [codes[i]]);
    assert codes[..i + 1] == codes[..i] + [codes[i]];
    assert EncodeAll([codes[i]]) == Encode(codes[i]) by { assert [codes[i]][1..] == []; }
    hide Encode, EncodeAll;
  }

  /** The bytes before the last character: there must be room for four more. */
  function NeededRoom(codes: seq<u32>): nat { if codes == [] then 0 else |EncodeAll(codes[..|codes| - 1])| + 4 }

  lemma {:induction false} RoomGrows(codes: seq<u32>, i: nat)
    requires i < |codes|
    ensures |EncodeAll(codes[..i])| + 4 <= NeededRoom(codes)
  {
    hide EncodeAll;
    var n := |codes| - 1;
    EncodeAppend(codes[..i], codes[i..n]);
    assert codes[..n] == codes[..i] + codes[i..n];
  }

  /** The wide branch of `display_ident`: it never writes outside its buffer, and refuses exactly for want of four bytes before a character. */
  method DisplayWide(codes: seq<u32>, out: array<byte>) returns (length: Option<nat>)
    modifies out
    ensures length.Some? <==> NeededRoom(codes) <= out.Length
    ensures length.Some? ==> length.value <= out.Length && out[..length.value] == EncodeAll(codes)
  {
    hide Encode, EncodeAll, NeededRoom;
    var narrow: nat := 0;
    NothingWritten(codes);
    for i := 0 to |codes|
      invariant narrow <= out.Length && out[..narrow] == EncodeAll(codes[..i])
      invariant i > 0 ==> |EncodeAll(codes[..i - 1])| + 4 <= out.Length
    {
      if out.Length - narrow < 4 {
        RoomGrows(codes, i);
        return None;
      }
      EncodeNext(codes, i);
      var w := Encode(codes[i]);
      WriteAt(out, narrow, w);
      narrow := narrow + |w|;
    }
    assert codes[..|codes|] == codes;
    LastRoom(codes);
    length := Some(narrow);
  }

  lemma NothingWritten(codes: seq<u32>)
    ensures EncodeAll(codes[..0]) == []
  {
  }

  lemma LastRoom(codes: seq<u32>)
    ensures NeededRoom(codes) == if codes == [] then 0 else |EncodeAll(codes[..|codes| - 1])| + 4
  {
    hide EncodeAll;
  }

  method WriteAt(out: array<byte>, at: nat, w: seq<byte>)
    requires at + |w| <= out.Length
    modifies out
    ensures out[..at + |w|] == old(out[..at]) + w
  {
    for i := 0 to |w|
      invariant out[..at + i] == old(out[..at]) + w[..i]
    {
      out[at + i] := w[i];
      assert w[..i + 1] == w[..i] + [w[i]];
    }
    assert w[..|w|] == w;
  }
}
