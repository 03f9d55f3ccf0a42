/** The bitmap of lib/kernel/bitmap.c, which every allocator of the kernel uses. */
module Bitmaps {
  import opened Basics

  /** bitmap_scan does not return when its ASSERT fails. */
  datatype Scan = Panic | NotFound | Found(start: nat)

  // ---------------------------------------------------------------------------
  // Bits of a byte
  // ---------------------------------------------------------------------------

  /** BITMAP_MASK << k */
  function Mask(k: nat): bv8
    requires k < 8
  {
    if k == 0 then 1 else if k == 1 then 2 else if k == 2 then 4 else if k == 3 then 8
    else if k == 4 then 16 else if k == 5 then 32 else if k == 6 then 64 else 128
  }

  predicate Bit(b: bv8, k: nat)
    requires k < 8
  {
    b & Mask(k) != 0
  }

  lemma FullByte(b: bv8)
    ensures b == 0xff <==> forall k: nat :: k < 8 ==> Bit(b, k)
  {
    assert b == 0xff <==> Bit(b, 0) && Bit(b, 1) && Bit(b, 2) && Bit(b, 3) && Bit(b, 4) && Bit(b, 5) && Bit(b, 6) && Bit(b, 7);
  }

  /** What bitmap_set stores: only the addressed bit changes. */
  function WithBit(b: bv8, k: nat, value: bool): (r: bv8)
    requires k < 8
    ensures forall j: nat :: j < 8 ==> Bit(r, j) == if j == k then value else Bit(b, j)
  {
    if value then b | Mask(k) else b & !Mask(k)
  }

  // ---------------------------------------------------------------------------
  // First fit over a sequence of bits
  // ---------------------------------------------------------------------------

  predicate Clear(b: seq<bool>, start: nat, cnt: nat) {
    start + cnt <= |b| && forall i :: start <= i < start + cnt ==> !b[i]
  }

  /** `start` is the lowest position of `cnt` clear bits in a row. */
  ghost predicate IsFirstFit(b: seq<bool>, cnt: nat, start: nat) {
    Clear(b, start, cnt) && forall s: nat :: s < start ==> !Clear(b, s, cnt)
  }

  ghost predicate NoFit(b: seq<bool>, cnt: nat) {
    forall s: nat :: !Clear(b, s, cnt)
  }

  /** The lowest position at or after `from` of `cnt` clear bits in a row. */
  function FirstFitFrom(b: seq<bool>, cnt: nat, from: nat): (r: Option<nat>)
    ensures r.Some? ==> from <= r.value && Clear(b, r.value, cnt)
    ensures forall s: nat :: from <= s && (r.Some? ==> s < r.value) ==> !Clear(b, s, cnt)
    decreases |b| - from
  {
    if from + cnt > |b| then None
    else if Clear(b, from, cnt) then Some(from)
    else FirstFitFrom(b, cnt, from + 1)
  }

  function FirstFit(b: seq<bool>, cnt: nat): (r: Option<nat>)
    ensures match r
            case Some(s) => IsFirstFit(b, cnt, s)
            case None => NoFit(b, cnt)
  {
    FirstFitFrom(b, cnt, 0)
  }

  /** Bits start .. start + cnt - 1 set to v. */
  function SetRange(b: seq<bool>, start: nat, cnt: nat, v: bool): (r: seq<bool>)
    requires start + cnt <= |b|
    ensures |r| == |b|
    ensures forall i :: 0 <= i < |b| ==> r[i] == if start <= i < start + cnt then v else b[i]
  {
    seq(|b|, i requires 0 <= i < |b| => if start <= i < start + cnt then v else b[i])
  }

  /** How many bits are clear. */
  function FreeCount(bits: seq<bool>): nat {
    if bits == [] then 0 else (if bits[0] then 0 else 1) + FreeCount(bits[1..])
  }

  lemma {:induction false} FreeAfterTake(bits: seq<bool>, b: nat)
    requires b < |bits| && !bits[b]
    ensures FreeCount(bits) == FreeCount(bits[b := true]) + 1
    decreases |bits|
  {
    if b == 0 {
      assert bits[b := true][1..] == bits[1..];
    } else {
      FreeAfterTake(bits[1..], b - 1);
      assert bits[b := true][1..] == bits[1..][b - 1 := true];
    }
  }

  lemma {:induction false} AllClear(bits: seq<bool>)
    requires forall b :: 0 <= b < |bits| ==> !bits[b]
    ensures FreeCount(bits) == |bits|
    decreases |bits|
  {
    if bits != [] {
      AllClear(bits[1..]);
    }
  }

  lemma {:induction false} NoneFree(bits: seq<bool>)
    requires forall b :: 0 <= b < |bits| ==> bits[b]
    ensures FreeCount(bits) == 0
    decreases |bits|
  {
    if bits != [] {
      NoneFree(bits[1..]);
    }
  }

  // ---------------------------------------------------------------------------
  // The bitmap object
  // ---------------------------------------------------------------------------

  /** `bits` is the memory from the bitmap's first byte on: the bitmap proper is its
  first `len` bytes, and bitmap_scan may look one byte further. */
  class Bitmap {
    const bits: array<bv8>
    const len: nat

    ghost predicate Valid()
      reads this
    {
      len < bits.Length
    }

    /** bitmap_init */
    constructor (memory: array<bv8>, n: nat)
      requires n < memory.Length
      modifies memory
      ensures Valid() && bits == memory && len == n
      ensures forall i: nat :: i < 8 * len ==> !At(i)
      ensures forall i :: n <= i < memory.Length ==> memory[i] == old(memory[i])
    {
      bits := memory;
      len := n;
      new;
      for i := 0 to n
        invariant forall j :: 0 <= j < i ==> memory[j] == 0
        invariant forall j :: n <= j < memory.Length ==> memory[j] == old(memory[j])
      {
        memory[i] := 0;
      }
      forall i: nat | i < 8 * len ensures !At(i) {
        assert bits[i / 8] == 0;
      }
    }

    predicate At(i: nat)
      requires i < 8 * bits.Length
      reads this, bits
    {
      Bit(bits[i / 8], i % 8)
    }

    /** The bits the bitmap is meant to hold. */
    ghost function Bits(): (b: seq<bool>)
      requires Valid()
      reads this, bits
      ensures |b| == 8 * len
      ensures forall i: nat :: i < 8 * len ==> b[i] == At(i)
    {
      seq(8 * len, i requires 0 <= i < 8 * len && Valid() reads this, bits => At(i))
    }

    /** The bits bitmap_scan looks at when it searches for more than one. */
    ghost function Scanned(): (b: seq<bool>)
      requires Valid()
      reads this, bits
    {
      Bits() + [At(8 * len)]
    }

    /** bitmap_scan_test */
    method Test(i: nat) returns (r: bool)
      requires i < 8 * bits.Length
      ensures r == At(i)
    {
      var byte := i / 8;
      var odd := i % 8;
      r := bits[byte] & Mask(odd) != 0;
    }

    /** bitmap_set */
    method Set(i: nat, value: bool)
      requires i < 8 * bits.Length
      modifies bits
      ensures At(i) == value
      ensures forall j: nat :: j < 8 * bits.Length && j != i ==> At(j) == old(At(j))
      ensures Valid() && i < 8 * len ==> Bits() == old(Bits())[i := value]
    {
      var byte := i / 8;
      var odd := i % 8;
      bits[byte] := WithBit(bits[byte], odd, value);
      forall j: nat | j < 8 * bits.Length ensures At(j) == if j == i then value else old(At(j)) {
        assert j / 8 == byte && j % 8 == odd ==> j == i;
      }
    }

    /** bitmap_scan */
    method ScanFor(cnt: nat) returns (r: Scan)
      requires Valid()
      ensures cnt >= 1 ==> r == ScanSpec(Bits(), At(8 * len), cnt)
    {
      hide Clear, FirstFit, IsFirstFit, NoFit;
      var byte := 0;
      while bits[byte] == 0xff && byte < len
        invariant 0 <= byte <= len
        invariant forall i: nat :: i < 8 * byte ==> At(i)
        decreases len - byte
      {
        FullByte(bits[byte]);
        byte := byte + 1;
      }
      if !(byte < len) {
        AllSet(Bits());
        return Panic;
      }
      var bit := 0;
      FullByte(bits[byte]);
      while Mask(bit) & bits[byte] != 0
        invariant 0 <= bit < 8
        invariant forall k: nat :: k < bit ==> Bit(bits[byte], k)
        invariant exists k: nat :: bit <= k < 8 && !Bit(bits[byte], k)
        decreases 8 - bit
      {
        bit := bit + 1;
      }
      var first := byte * 8 + bit;
      assert first / 8 == byte && first % 8 == bit;
      assert forall i: nat :: i < first ==> At(i);
      FirstClear(Bits(), first);
      if cnt == 1 {
        return Found(first);
      }
      r := ScanRun(cnt, first, Scanned());
      FirstFitUnique(Scanned(), cnt, if r.Found? then r.start else 0);
    }

    /** The rest of bitmap_scan: the search for a run after the first clear bit. */
    method ScanRun(cnt: nat, first: nat, ghost b: seq<bool>) returns (r: Scan)
      requires Valid() && cnt != 1 && first < 8 * len
      requires |b| == 8 * len + 1 && forall i: nat :: i < |b| ==> b[i] == At(i)
      requires !b[first] && forall i: nat :: i < first ==> b[i]
      ensures !r.Panic?
      ensures cnt > 1 && r.Found? ==> IsFirstFit(b, cnt, r.start)
      ensures cnt > 1 && r.NotFound? ==> NoFit(b, cnt)
    {
      hide At, Clear, IsFirstFit, NoFit, RunEndsAt, NoRunBelow;
      var left := len * 8 - first;
      var next := first + 1;
      var count := 1;
      if cnt > 1 {
        NoRunBefore(b, first, cnt);
      }
      while left > 0
        invariant 0 <= left && next + left == 8 * len + 1 == |b|
        invariant 0 <= count <= next
        invariant cnt > 1 ==> 0 <= count < cnt
        invariant cnt > 1 ==> RunEndsAt(b, next, count) && NoRunBelow(b, next, cnt)
        decreases left
      {
        left := left - 1;
        if cnt > 1 {
          RunGrows(b, next, count);
        }
        var isSet := Test(next);
        if !isSet {
          count := count + 1;
        } else {
          count := 0;
        }
        if count == cnt {
          if cnt > 1 {
            RunFound(b, next + 1, cnt);
          }
          return Found(next - cnt + 1);
        }
        if cnt > 1 {
          NoRunEndsHere(b, next, count, cnt);
        }
        next := next + 1;
      }
      if cnt > 1 {
        NoRunAtAll(b, cnt);
      }
      r := NotFound;
    }
  }

  // ---------------------------------------------------------------------------
  // When the scan is first fit within the bitmap
  // ---------------------------------------------------------------------------

  lemma AllSet(b: seq<bool>)
    requires forall i :: 0 <= i < |b| ==> b[i]
    ensures FirstFit(b, 1) == None
  {
    forall s: nat | s + 1 <= |b| ensures !Clear(b, s, 1) {
      assert b[s];
    }
    FirstFitUnique(b, 1, 0);
  }

  lemma FirstClear(b: seq<bool>, first: nat)
    requires first < |b| && !b[first] && forall i :: 0 <= i < first ==> b[i]
    ensures FirstFit(b, 1) == Some(first)
  {
    forall s: nat | s < first ensures !Clear(b, s, 1) {
      assert b[s];
    }
    FirstFitUnique(b, 1, first);
  }

  /** Exactly `count` clear bits lie directly below `next`. */
  predicate RunEndsAt(b: seq<bool>, next: nat, count: nat) {
    count <= next <= |b| && Clear(b, next - count, count) && (next > count ==> b[next - count - 1])
  }

  /** No run of `cnt` clear bits ends below `next`. */
  ghost predicate NoRunBelow(b: seq<bool>, next: nat, cnt: nat) {
    forall s: nat :: s + cnt <= next ==> !Clear(b, s, cnt)
  }

  lemma NoRunBefore(b: seq<bool>, first: nat, cnt: nat)
    requires cnt > 1 && first < |b| && !b[first] && forall i :: 0 <= i < first ==> b[i]
    ensures RunEndsAt(b, first + 1, 1) && NoRunBelow(b, first + 1, cnt)
  {
    forall s: nat | s + cnt <= first + 1 ensures !Clear(b, s, cnt) {
      assert b[s];
    }
  }

  lemma NoRunEndsHere(b: seq<bool>, next: nat, count: nat, cnt: nat)
    requires next < |b| && RunEndsAt(b, next + 1, count) && count < cnt && NoRunBelow(b, next, cnt)
    ensures NoRunBelow(b, next + 1, cnt)
  {
    forall s: nat | s + cnt == next + 1 ensures !Clear(b, s, cnt) {
      assert s <= next - count && b[next - count];
    }
  }

  lemma RunFound(b: seq<bool>, next: nat, cnt: nat)
    requires RunEndsAt(b, next, cnt) && next > 0 && NoRunBelow(b, next - 1, cnt)
    ensures IsFirstFit(b, cnt, next - cnt)
  {
  }

  lemma NoRunAtAll(b: seq<bool>, cnt: nat)
    requires NoRunBelow(b, |b|, cnt)
    ensures NoFit(b, cnt)
  {
  }

  lemma RunGrows(b: seq<bool>, next: nat, count: nat)
    requires next < |b| && RunEndsAt(b, next, count)
    ensures RunEndsAt(b, next + 1, if b[next] then 0 else count + 1)
  {
  }

  /** What the scan computes, as a function of the bitmap's bits and of the bit after
  the bitmap. */
  function ScanSpec(b: seq<bool>, beyond: bool, cnt: nat): Scan {
    if FirstFit(b, 1) == None then Panic
    else match FirstFit(if cnt == 1 then b else b + [beyond], cnt)
         case None => NotFound
         case Some(s) => Found(s)
  }

  /** The search runs over the end: nothing fits in the bitmap, but its last cnt - 1
  bits and the bit after it are clear. */
  predicate Overruns(b: seq<bool>, beyond: bool, cnt: nat) {
    && cnt > 1 && cnt <= |b| + 1 && !beyond
    && Clear(b, |b| + 1 - cnt, cnt - 1)
    && FirstFit(b, cnt) == None && FirstFit(b, 1) != None
  }

  lemma FirstFitUnique(b: seq<bool>, cnt: nat, s: nat)
    ensures IsFirstFit(b, cnt, s) ==> FirstFit(b, cnt) == Some(s)
    ensures NoFit(b, cnt) ==> FirstFit(b, cnt) == None
  {
  }

  /** A run in the extended bits is a run in the bitmap or ends at the extra bit. */
  lemma ClearExtended(b: seq<bool>, beyond: bool, cnt: nat, s: nat)
    requires cnt >= 1
    ensures Clear(b + [beyond], s, cnt) <==>
              Clear(b, s, cnt) || (s + cnt == |b| + 1 && Clear(b, s, cnt - 1) && !beyond)
  {
    var e := b + [beyond];
    if Clear(e, s, cnt) {
      assert forall i :: s <= i < s + cnt && i < |b| ==> e[i] == b[i];
      assert s + cnt == |b| + 1 ==> !e[|b|];
    }
    if Clear(b, s, cnt) || (s + cnt == |b| + 1 && Clear(b, s, cnt - 1) && !beyond) {
      assert forall i :: s <= i < s + cnt ==> e[i] == if i < |b| then b[i] else beyond;
    }
  }

  /** bitmap_scan is first fit, with one exception for each of its failures: it panics
  where it should report that nothing is free, and it reports a run that leaves the
  bitmap by one bit exactly when Overruns. */
  lemma ScanIsFirstFit(b: seq<bool>, beyond: bool, cnt: nat)
    requires cnt >= 1
    ensures ScanSpec(b, beyond, cnt) ==
              if FirstFit(b, 1) == None then Panic
              else if Overruns(b, beyond, cnt) then Found(|b| + 1 - cnt)
              else match FirstFit(b, cnt) case None => NotFound case Some(s) => Found(s)
  {
    if cnt > 1 && FirstFit(b, 1) != None {
      var e := b + [beyond];
      forall s: nat ensures Clear(e, s, cnt) <==> Clear(b, s, cnt) || (s + cnt == |b| + 1 && Clear(b, s, cnt - 1) && !beyond) {
        ClearExtended(b, beyond, cnt, s);
      }
      match FirstFit(b, cnt) {
        case Some(s) => FirstFitUnique(e, cnt, s);
        case None =>
          if Overruns(b, beyond, cnt) {
            FirstFitUnique(e, cnt, |b| + 1 - cnt);
          } else {
            FirstFitUnique(e, cnt, 0);
          }
      }
    }
  }

  /** The two failures are real: two free bits at the end of a byte and a request for
  three finds a run that is not in the bitmap; a full bitmap panics. */
  lemma ScanFailures()
    ensures ScanSpec([true, true, true, true, true, true, false, false], false, 3) == Found(6)
    ensures ScanSpec([true, true, true, true, true, true, true, true], false, 1) == Panic
  {
    var b := [true, true, true, true, true, true, false, false];
    forall s: nat | s < 6 ensures !Clear(b, s, 1) {
      assert b[s];
    }
    FirstFitUnique(b, 1, 6);
    forall s: nat ensures !Clear(b, s, 3) {
      assert s < 6 ==> b[s];
    }
    FirstFitUnique(b, 3, 0);
    ScanIsFirstFit(b, false, 3);
    var full := [true, true, true, true, true, true, true, true];
    forall s: nat ensures !Clear(full, s, 1) {
      assert s < 8 ==> full[s];
    }
    FirstFitUnique(full, 1, 0);
  }
}
