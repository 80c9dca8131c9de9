/** The JFR event encoding of src/flightRecorder.cpp: compressed integers and sized records. */
module JfrFormat {
  import opened Bytes

  // ------------------------------------------------------------------ 64-bit integers in at most nine bytes

  /** Numbers that still have to be written after `k` bytes. */
  predicate LeftAfter(v: nat, k: nat) { k <= 8 && v < Room(k) }

  function Room(k: nat): nat
    requires k <= 8
    decreases 8 - k
  {
    if k == 8 then 0x100 else 128 * Room(k + 1)
  }

  /** A compressed long: seven bits a byte, but the ninth byte holds eight. */
  function Long(v: nat, k: nat): seq<byte>
    requires LeftAfter(v, k)
    decreases 8 - k
  {
    if k == 8 then [v] else if v < 128 then [v] else [v % 128 + 128] + Long(v / 128, k + 1)
  }

  /** A number and the position behind it. */
  datatype Read = Read(value: nat, next: nat) | Bad

  function ReadLong(s: seq<byte>, p: nat, k: nat): (r: Read)
    requires k <= 8
    ensures r.Read? ==> p < r.next <= |s|
    decreases 8 - k
  {
    if p >= |s| then Bad
    else if k == 8 || s[p] < 128 then Read(s[p], p + 1)
    else
      match ReadLong(s, p + 1, k + 1)
      case Bad => Bad
      case Read(v, next) => Read(s[p] as int - 128 + 128 * v, next)
  }

  lemma RoomIs()
    ensures Room(0) == 0x1_0000_0000_0000_0000
  {
    assert Room(6) == 0x40_0000;
    assert Room(4) == 0x10_0000_0000;
    assert Room(2) == 0x4_0000_0000_0000;
  }

  lemma {:induction false} LongReads(s: seq<byte>, p: nat, v: nat, k: nat)
    requires LeftAfter(v, k) && p + |Long(v, k)| <= |s| && s[p..p + |Long(v, k)|] == Long(v, k)
    ensures ReadLong(s, p, k) == Read(v, p + |Long(v, k)|)
    decreases 8 - k
  {
    var e := Long(v, k);
    assert s[p] == e[0];
    if k < 8 && v >= 128 {
      assert s[p + 1..p + 1 + |e| - 1] == e[1..] == Long(v / 128, k + 1);
      LongReads(s, p + 1, v / 128, k + 1);
    }
  }

  /** Every 64-bit value survives, in at most nine bytes. */
  lemma LongRoundTrip(v: u64, rest: seq<byte>)
    ensures LeftAfter(v, 0) && ReadLong(Long(v, 0) + rest, 0, 0) == Read(v, |Long(v, 0)|) && |Long(v, 0)| <= 9
  {
    RoomIs();
    assert (Long(v, 0) + rest)[0..0 + |Long(v, 0)|] == Long(v, 0);
    LongReads(Long(v, 0) + rest, 0, v, 0);
    LongLength(v, 0);
    hide Long, ReadLong;
  }

  function EncodeLong(v: u64): seq<byte> {
    RoomIs();
    Long(v, 0)
  }

  lemma LongSize(v: u64)
    ensures 1 <= |EncodeLong(v)| <= 9
  {
    RoomIs();
    LongLength(v, 0);
    hide Long;
  }

  lemma {:induction false} LongLength(v: nat, k: nat)
    requires LeftAfter(v, k)
    ensures 1 <= |Long(v, k)| <= 9 - k
    decreases 8 - k
  {
    if k < 8 && v >= 128 { LongLength(v / 128, k + 1); }
  }

  /** The ninth byte is reached exactly by values with their top bit set. */
  lemma NinthByteIsFull(v: u64)
    ensures LeftAfter(v, 0) && (v >= 0x8000_0000_0000_0000 ==> |Long(v, 0)| == 9 && Long(v, 0)[8] >= 128)
    ensures v < 0x8000_0000_0000_0000 ==> forall i | 0 <= i < |Long(v, 0)| :: (i == |Long(v, 0)| - 1) == (Long(v, 0)[i] < 128)
  {
    RoomIs();
    NinthByte(v, 0, 0x8000_0000_0000_0000);
    hide Long;
  }

  lemma {:induction false} NinthByte(v: nat, k: nat, top: nat)
    requires LeftAfter(v, k) && 2 * top == Room(k)
    ensures v >= top ==> |Long(v, k)| == 9 - k && Long(v, k)[8 - k] >= 128
    ensures v < top ==> forall i | 0 <= i < |Long(v, k)| :: (i == |Long(v, k)| - 1) == (Long(v, k)[i] < 128)
    decreases 8 - k
  {
    if k < 8 {
      RoomSteps(k);
      if v >= 128 {
        NinthByte(v / 128, k + 1, top / 128);
        assert Long(v, k) == [v % 128 + 128] + Long(v / 128, k + 1);
      }
    }
  }

  lemma RoomSteps(k: nat)
    requires k < 8
    ensures Room(k) == 128 * Room(k + 1) && Room(k) >= 0x8000
    decreases 8 - k
  {
    if k < 7 { RoomSteps(k + 1); }
  }
}
