/** First-fit search in a bit sequence, as a property of the sequence alone. */
module BitRuns {

  /** The `n` bits from `s` on lie inside `b` and are all clear. */
  ghost predicate ClearRun(b: seq<bool>, s: nat, n: nat) {
    s + n <= |b| && forall i :: s <= i < s + n ==> !b[i]
  }

  /** `r` is the least start of a run of `n` clear bits, or -1 when there is none. */
  ghost predicate IsFirstFit(b: seq<bool>, n: nat, r: int) {
    if r == -1 then
      forall s: nat :: !ClearRun(b, s, n)
    else
      0 <= r && ClearRun(b, r, n) && forall s: nat :: s < r ==> !ClearRun(b, s, n)
  }

  /** The clear bits. */
  ghost function Free(b: seq<bool>): set<nat> {
    set i: nat | i < |b| && !b[i]
  }

  /** `b` with the `n` bits from `s` on set to `v`. */
  function SetRun(b: seq<bool>, s: nat, n: nat, v: bool): (r: seq<bool>)
    requires s + n <= |b|
    ensures |r| == |b|
  {
    seq(|b|, i requires 0 <= i < |b| => if s <= i < s + n then v else b[i])
  }

  /**
   * The search over the map plus the one bit behind it (`b`) answers as a search of the map alone
   * would, except when the map holds no fit and its last `n - 1` bits and the bit behind are
   * clear; then it hands out a run that leaves the map.
   */
  lemma OneBitBehind(b: seq<bool>, n: nat, r: int)
    requires |b| >= 1 && n >= 2 && IsFirstFit(b, n, r)
    ensures
      IsFirstFit(b[..|b| - 1], n, r) <==>
      !(n <= |b| && ClearRun(b, |b| - n, n) && IsFirstFit(b[..|b| - 1], n, -1))
    ensures !IsFirstFit(b[..|b| - 1], n, r) ==> r == |b| - n
  {
    var m := b[..|b| - 1];
    assert forall s: nat :: ClearRun(b, s, n) <==> ClearRun(m, s, n) || (s + n == |b| && ClearRun(b, s, n));
    if r != -1 && r + n == |b| {
      assert !ClearRun(m, r, n);
      assert forall s: nat :: !ClearRun(m, s, n) by {
        forall s: nat ensures !ClearRun(m, s, n) {
          assert s < r ==> !ClearRun(b, s, n);
        }
      }
    }
  }

  /** Eight bits with only the last clear, followed by a clear bit: a request for two is granted
      although the map has no two adjacent clear bits. */
  lemma RunLeavesMap()
    ensures
      var b := [true, true, true, true, true, true, true, false, false];
      IsFirstFit(b, 2, 7) && IsFirstFit(b[..8], 2, -1)
  {
    var b := [true, true, true, true, true, true, true, false, false];
    assert ClearRun(b, 7, 2);
    forall s: nat | s < 7 ensures !ClearRun(b, s, 2) {
      assert b[s];
    }
    forall s: nat ensures !ClearRun(b[..8], s, 2) {
      assert s < 7 ==> b[..8][s];
    }
  }

  /** Taking a first fit and giving it back leaves the map as it was; while taken, the next
      single-bit fit lies strictly behind every bit that was already set before it. */
  lemma TakeThenGiveBack(b: seq<bool>, n: nat, r: int)
    requires r != -1 && IsFirstFit(b, n, r)
    ensures SetRun(SetRun(b, r, n, true), r, n, false) == b
    ensures forall s: nat :: n >= 1 && ClearRun(SetRun(b, r, n, true), s, n) ==> s >= r + n
  {
    var c := SetRun(b, r, n, true);
    forall s: nat | n >= 1 && s < r + n
      ensures !ClearRun(c, s, n)
    {
      if s < r {
        assert !ClearRun(b, s, n);
        if s + n <= |b| {
          var i :| s <= i < s + n && b[i];
          assert c[i];
        }
      } else {
        assert c[s];
      }
    }
    assert SetRun(c, r, n, false) == b;
  }

  /** The set bits are those in `taken`. */
  ghost predicate BitsOf(b: seq<bool>, taken: set<nat>) {
    (forall i :: i in taken ==> i < |b|) && (forall i :: 0 <= i < |b| ==> (b[i] <==> i in taken))
  }

  lemma FreeLast(b: seq<bool>, k: nat)
    requires |b| == k + 1
    ensures Free(b) == Free(b[..k]) + (if b[k] then {} else {k}) && k !in Free(b[..k])
  {
  }

  lemma BitsOfPrefix(b: seq<bool>, k: nat, taken: set<nat>)
    requires |b| == k + 1 && BitsOf(b, taken)
    ensures BitsOf(b[..k], taken - {k}) && (b[k] <==> k in taken)
  {
  }

  lemma {:induction false} ClearCount(b: seq<bool>, taken: set<nat>)
    requires BitsOf(b, taken)
    ensures |Free(b)| == |b| - |taken|
  {
    if b == [] {
      assert taken == {} && Free(b) == {};
    } else {
      hide BitsOf, Free;
      var k := |b| - 1;
      FreeLast(b, k);
      BitsOfPrefix(b, k, taken);
      ClearCount(b[..k], taken - {k});
      if k !in taken {
        assert taken - {k} == taken;
      }
    }
  }
}

/** The byte-array bitmap of the kernel: page pools, virtual-address pools, block and inode maps. */
module Bitmap {
  import opened BitRuns

  function Mask(i: nat): bv8
    requires i < 8
  {
    match i
    case 0 => 0x01 case 1 => 0x02 case 2 => 0x04 case 3 => 0x08
    case 4 => 0x10 case 5 => 0x20 case 6 => 0x40 case 7 => 0x80
  }

  predicate TestByte(b: bv8, i: nat)
    requires i < 8
  {
    b & Mask(i) != 0
  }

  lemma FullByte(b: bv8)
    ensures b == 0xff <==> forall i :: 0 <= i < 8 ==> TestByte(b, i)
  {
    if forall i :: 0 <= i < 8 ==> TestByte(b, i) {
      assert TestByte(b, 0) && TestByte(b, 1) && TestByte(b, 2) && TestByte(b, 3);
      assert TestByte(b, 4) && TestByte(b, 5) && TestByte(b, 6) && TestByte(b, 7);
    }
  }

  lemma SetByte(b: bv8, i: nat, j: nat)
    requires i < 8 && j < 8
    ensures TestByte(b | Mask(i), j) == (i == j || TestByte(b, j))
    ensures TestByte(b & !Mask(i), j) == (i != j && TestByte(b, j))
  {
  }

  /** The bits of a stretch of memory, lowest bit of the lowest byte first. */
  function Unpack(m: seq<bv8>): (b: seq<bool>)
    ensures |b| == 8 * |m|
  {
    seq(8 * |m|, k requires 0 <= k < 8 * |m| => TestByte(m[k / 8], k % 8))
  }

  lemma FullByteBits(m: seq<bv8>, idx: nat)
    requires idx < |m| && m[idx] == 0xff
    ensures forall k :: 8 * idx <= k < 8 * idx + 8 ==> Unpack(m)[k]
  {
    FullByte(m[idx]);
    forall k | 8 * idx <= k < 8 * idx + 8 ensures Unpack(m)[k] {
      assert k / 8 == idx && TestByte(m[idx], k % 8);
    }
  }

  lemma ReplaceByte(m: seq<bv8>, idx: nat, new8: bv8, value: bool)
    requires idx < 8 * |m|
    requires forall i :: 0 <= i < 8 ==> TestByte(new8, i) == if i == idx % 8 then value else TestByte(m[idx / 8], i)
    ensures Unpack(m[idx / 8 := new8]) == Unpack(m)[idx := value]
  {
  }

  lemma UpdateBit(m: seq<bv8>, idx: nat, value: bool)
    requires idx < 8 * |m|
    ensures
      var old8 := m[idx / 8];
      var new8 := if value then old8 | Mask(idx % 8) else old8 & !Mask(idx % 8);
      Unpack(m[idx / 8 := new8]) == Unpack(m)[idx := value]
  {
    var old8, i := m[idx / 8], idx % 8;
    var new8 := if value then old8 | Mask(i) else old8 & !Mask(i);
    forall j | 0 <= j < 8 ensures TestByte(new8, j) == if j == i then value else TestByte(old8, j) {
      SetByte(old8, i, j);
    }
    ReplaceByte(m, idx, new8, value);
  }

  /** State of the counting loop: the bits before `stop` end in exactly `count` clear ones, and no
      run of `cnt` clear bits ends at or before `stop`. */
  ghost predicate Counting(b: seq<bool>, cnt: nat, stop: nat, count: nat) {
    && count < cnt && count <= stop <= |b|
    && (forall k :: stop - count <= k < stop ==> !b[k])
    && (stop > count ==> b[stop - count - 1])
    && (forall s: nat :: s + cnt <= stop ==> !ClearRun(b, s, cnt))
  }

  lemma CountingStart(b: seq<bool>, cnt: nat, first: nat)
    requires cnt >= 1 && first < |b|
    requires (forall k :: 0 <= k < first ==> b[k]) && !b[first]
    ensures cnt == 1 ==> IsFirstFit(b, cnt, first)
    ensures cnt >= 2 ==> Counting(b, cnt, first + 1, 1)
  {
    forall s: nat | s < first || s + cnt <= first ensures !ClearRun(b, s, cnt) {
      assert s < first ==> b[s];
    }
  }

  lemma CountingStep(b: seq<bool>, cnt: nat, stop: nat, count: nat)
    requires Counting(b, cnt, stop, count) && stop < |b|
    ensures b[stop] ==> Counting(b, cnt, stop + 1, 0)
    ensures !b[stop] && count + 1 < cnt ==> Counting(b, cnt, stop + 1, count + 1)
    ensures !b[stop] && count + 1 == cnt ==> IsFirstFit(b, cnt, stop - count)
  {
    if b[stop] {
      NoRunYet(b, cnt, stop + 1, 0);
    } else if count + 1 < cnt {
      NoRunYet(b, cnt, stop + 1, count + 1);
    } else {
      assert ClearRun(b, stop - count, cnt);
    }
  }

  /** A clear tail shorter than `cnt` leaves no fit that ends at `stop`. */
  lemma NoRunYet(b: seq<bool>, cnt: nat, stop: nat, count: nat)
    requires count < cnt && count <= stop <= |b|
    requires stop > count ==> b[stop - count - 1]
    ensures forall s: nat :: s + cnt == stop ==> !ClearRun(b, s, cnt)
  {
  }

  /** The same search on a sequence of bits. */
  method FirstFit(b: seq<bool>, n: nat) returns (r: int)
    requires n >= 1
    ensures IsFirstFit(b, n, r)
  {
    var i, count := 0, 0;
    while i < |b|
      invariant i <= |b| && Counting(b, n, i, count)
    {
      CountingStep(b, n, i, count);
      if b[i] {
        count := 0;
      } else {
        count := count + 1;
        if count == n {
          return i - n + 1;
        }
      }
      i := i + 1;
    }
    r := -1;
  }

  /**
   * `bits` is the memory from the first byte of the map on. Only the first `len` bytes are the
   * map; what lies behind them belongs to somebody else but can be read through the pointer,
   * and the search does read it.
   */
  class BitMap {
    var len: nat
    var bits: array<bv8>

    ghost predicate Valid()
      reads this
    {
      len < bits.Length && 8 * bits.Length < 0x8000_0000
    }

    /** The first `n` bits of memory. */
    ghost function Prefix(n: nat): (b: seq<bool>)
      requires n <= 8 * bits.Length
      reads this, bits
      ensures |b| == n
    {
      Unpack(bits[..])[..n]
    }

    method ScanTest(idx: nat) returns (r: bool)
      requires idx < 8 * bits.Length
      ensures r == Unpack(bits[..])[idx]
    {
      var byteIdx := idx / 8;
      var bitIdx := idx % 8;
      r := bits[byteIdx] & Mask(bitIdx) != 0;
    }

    method Set(idx: nat, value: bool)
      requires idx < 8 * bits.Length
      modifies bits
      ensures Unpack(bits[..]) == old(Unpack(bits[..]))[idx := value]
    {
      var byteIdx := idx / 8;
      var bitIdx := idx % 8;
      UpdateBit(bits[..], idx, value);
      if value {
        bits[byteIdx] := bits[byteIdx] | Mask(bitIdx);
      } else {
        bits[byteIdx] := bits[byteIdx] & !Mask(bitIdx);
      }
      assert bits[..] == old(bits[..])[byteIdx := bits[byteIdx]];
    }

    /**
     * One bit: the least clear bit of the map. More than one: the least run of clear bits among
     * the bits of the map and the one bit behind it, which the second loop also tests.
     */
    method Scan(cnt: nat) returns (start: int)
      requires Valid() && cnt >= 1
      ensures IsFirstFit(Prefix(8 * len + if cnt == 1 then 0 else 1), cnt, start)
    {
      ghost var b := Prefix(8 * len + if cnt == 1 then 0 else 1);
      var idx := 0;
      while bits[idx] == 0xff && idx < len
        invariant 0 <= idx <= len
        invariant forall k :: 0 <= k < 8 * idx ==> b[k]
        decreases len - idx
      {
        FullByteBits(bits[..], idx);
        idx := idx + 1;
      }
      if idx == len {
        forall s: nat ensures !ClearRun(b, s, cnt) {
          assert s < 8 * len ==> b[s];
        }
        return -1;
      }
      var bitIdx := FirstClearBit(bits[idx]);
      start := idx * 8 + bitIdx;
      forall k | 8 * idx <= k <= start ensures b[k] == (k < start) {
        assert k / 8 == idx && b[k] == TestByte(bits[idx], k % 8);
      }
      CountingStart(b, cnt, start);
      if cnt == 1 {
        return;
      }
      start := ScanFrom(cnt, start, b);
    }

    static method FirstClearBit(byte: bv8) returns (bitIdx: nat)
      requires byte != 0xff
      ensures bitIdx < 8 && !TestByte(byte, bitIdx)
      ensures forall i :: 0 <= i < bitIdx ==> TestByte(byte, i)
    {
      FullByte(byte);
      bitIdx := 0;
      while byte & Mask(bitIdx) != 0
        invariant 0 <= bitIdx < 8
        invariant exists i :: bitIdx <= i < 8 && !TestByte(byte, i)
        invariant forall i :: 0 <= i < bitIdx ==> TestByte(byte, i)
        decreases 8 - bitIdx
      {
        bitIdx := bitIdx + 1;
      }
    }

    /** The counting loop behind the first clear bit `first`. */
    method ScanFrom(cnt: nat, first: nat, ghost b: seq<bool>) returns (start: int)
      requires Valid() && cnt >= 2 && first < 8 * len
      requires b == Prefix(8 * len + 1)
      requires Counting(b, cnt, first + 1, 1)
      ensures IsFirstFit(b, cnt, start)
    {
      var bitLeft := len * 8 - first;
      var nextBit := first + 1;
      var count := 1;
      while bitLeft > 0
        invariant 0 <= bitLeft && nextBit + bitLeft == 8 * len + 1
        invariant Counting(b, cnt, nextBit, count)
        decreases bitLeft
      {
        bitLeft := bitLeft - 1;
        CountingStep(b, cnt, nextBit, count);
        var t := ScanTest(nextBit);
        if !t {
          count := count + 1;
        } else {
          count := 0;
        }
        if count == cnt {
          start := nextBit - count + 1;
          return;
        }
        nextBit := nextBit + 1;
      }
      start := -1;
    }
  }
}
