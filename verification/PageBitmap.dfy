/**
 The bitmap allocator for low memory: first fit, aligned, with a skip past each obstacle.
 A set bit marks a reserved page; page i is bit i % 8 of byte i / 8.
 */
module PageBitmap {
  import opened Options

  const PAGE_SIZE: nat := 0x1000
  const MAX_SPECIAL_ADDR: nat := 0x100000
  const PAGES: nat := MAX_SPECIAL_ADDR / PAGE_SIZE
  const BYTES: nat := PAGES / 8
  const WORDS: nat := 0x1_0000_0000_0000_0000

  // ---------- Bits ----------

  function Mask(k: nat): (m: bv8)
    requires k < 8
  {
    if k == 0 then 1 else if k == 1 then 2 else if k == 2 then 4 else if k == 3 then 8
    else if k == 4 then 16 else if k == 5 then 32 else if k == 6 then 64 else 128
  }

  predicate TestIn(b: bv8, k: nat)
    requires k < 8
  {
    b & Mask(k) != 0
  }

  function SetIn(b: bv8, k: nat): bv8
    requires k < 8
  {
    b | Mask(k)
  }

  function ClearIn(b: bv8, k: nat): bv8
    requires k < 8
  {
    b & !Mask(k)
  }

  lemma SetBit(b: bv8, k: nat, j: nat)
    requires k < 8 && j < 8
    ensures TestIn(SetIn(b, k), j) <==> j == k || TestIn(b, j)
  {
  }

  lemma ClearBit(b: bv8, k: nat, j: nat)
    requires k < 8 && j < 8
    ensures TestIn(ClearIn(b, k), j) <==> j != k && TestIn(b, j)
  {
  }

  predicate Bit(bits: seq<bv8>, i: nat)
    requires |bits| == BYTES && i < PAGES
  {
    TestIn(bits[i / 8], i % 8)
  }

  function WithBit(bits: seq<bv8>, i: nat): seq<bv8>
    requires |bits| == BYTES && i < PAGES
  {
    bits[i / 8 := SetIn(bits[i / 8], i % 8)]
  }

  function WithoutBit(bits: seq<bv8>, i: nat): seq<bv8>
    requires |bits| == BYTES && i < PAGES
  {
    bits[i / 8 := ClearIn(bits[i / 8], i % 8)]
  }

  lemma WithBitAt(bits: seq<bv8>, i: nat, k: nat)
    requires |bits| == BYTES && i < PAGES && k < PAGES
    ensures Bit(WithBit(bits, i), k) <==> k == i || Bit(bits, k)
    ensures Bit(WithoutBit(bits, i), k) <==> k != i && Bit(bits, k)
  {
    hide TestIn, SetIn, ClearIn;
    if i / 8 == k / 8 {
      SetBit(bits[i / 8], i % 8, k % 8);
      ClearBit(bits[i / 8], i % 8, k % 8);
      if i % 8 == k % 8 { SameBit(i, k); }
    }
  }

  /** Page i and page j share a byte and a bit only if they are the same page. */
  lemma SameBit(i: nat, j: nat)
    requires i / 8 == j / 8 && i % 8 == j % 8
    ensures i == j
  {
  }

  // ---------- Fits ----------

  function RoundUp(n: nat, multiple: nat): nat
    requires multiple > 0
  {
    (n + multiple - 1) / multiple * multiple
  }

  function Max(x: nat, y: nat): nat { if x > y then x else y }
  function Min(x: nat, y: nat): nat { if x < y then x else y }

  /** Alignment in pages, as the allocator derives it from an alignment in bytes. */
  function Stride(alignment: nat): (a: nat)
    ensures a >= 1
  {
    Max((alignment + PAGE_SIZE - 1) % WORDS / PAGE_SIZE * PAGE_SIZE, PAGE_SIZE) / PAGE_SIZE
  }

  /** Unless rounding it up overflows, the requested alignment is met by aligning to the stride. */
  lemma StrideMeetsAlignment(alignment: nat)
    requires alignment + PAGE_SIZE - 1 < WORDS
    ensures alignment <= Stride(alignment) * PAGE_SIZE < alignment + 2 * PAGE_SIZE
    ensures alignment % PAGE_SIZE == 0 && alignment > 0 ==> Stride(alignment) * PAGE_SIZE == alignment
  {
  }

  function Limit(maxAddr: nat): (n: nat)
    ensures n <= PAGES
  {
    Min(maxAddr, MAX_SPECIAL_ADDR) / PAGE_SIZE
  }

  /** What ends at or before the limit lies below the address asked for, and in the pages that the bitmap covers. */
  lemma LimitMeets(maxAddr: nat, n: nat)
    ensures n <= Limit(maxAddr) <==> n * PAGE_SIZE <= maxAddr && n * PAGE_SIZE <= MAX_SPECIAL_ADDR
  {
  }

  predicate Aligned(i: nat, stride: nat)
    requires stride > 0
  {
    i % stride == 0
  }

  /** The aligned run [i, i + count) is free and ends below the limit. */
  ghost predicate FitsAt(bits: seq<bv8>, i: nat, count: nat, limit: nat, stride: nat)
    requires |bits| == BYTES && limit <= PAGES && stride > 0
  {
    count >= 1 && Aligned(i, stride) && i + count < limit && forall k :: i <= k < i + count ==> !Bit(bits, k)
  }

  lemma MulLess(p: nat, q: nat, d: nat)
    requires p * d < q * d
    ensures p < q
  {
  }

  lemma {:induction false} MulStep(p: nat, q: nat, d: nat)
    requires p < q
    ensures p * d + d <= q * d
  {
    assert q * d == (q - 1) * d + d;
    if p + 1 < q { MulStep(p, q - 1, d); }
  }

  lemma MultipleMod(q: nat, d: nat)
    requires d > 0
    ensures q * d % d == 0
  {
    var k, r := q * d / d, q * d % d;
    assert q * d == k * d + r;
    if k < q {
      MulStep(k, q, d);
    } else if q < k {
      MulStep(q, k, d);
    }
  }

  /** An aligned start before the next multiple of the stride at or after j lies before j. */
  lemma SkipsNothing(j: nat, stride: nat, x: nat)
    requires stride > 0 && x % stride == 0 && j > 0 && x < RoundUp(j, stride)
    ensures x < j
  {
    var q, d := x / stride, (j + stride - 1) / stride;
    assert x == q * stride;
    MulLess(q, d, stride);
    MulStep(q, d, stride);
  }

  lemma RoundUpIsUp(j: nat, stride: nat)
    requires stride > 0
    ensures RoundUp(j, stride) >= j && RoundUp(j, stride) % stride == 0
  {
    var n := j + stride - 1;
    assert n == n / stride * stride + n % stride;
    MultipleMod(n / stride, stride);
  }

  lemma NextMultiple(i: nat, stride: nat)
    requires stride > 0 && i % stride == 0
    ensures (i + stride) % stride == 0
  {
    assert i + stride == (i / stride + 1) * stride;
    MultipleMod(i / stride + 1, stride);
  }

  lemma BetweenMultiples(i: nat, x: nat, stride: nat)
    requires stride > 0 && i % stride == 0 && x % stride == 0 && i <= x < i + stride
    ensures x == i
  {
    var p, q := i / stride, x / stride;
    assert i == p * stride && x == q * stride;
    if p < q {
      MulStep(p, q, stride);
    } else if q < p {
      MulStep(q, p, stride);
    }
  }

  // ---------- The allocator ----------

  const HIGHER_HALF_BASE: nat := 0xFFFF_8000_0000_0000

  function FreeSet(bits: seq<bv8>): set<nat>
    requires |bits| == BYTES
  {
    set k: nat | k < PAGES && !Bit(bits, k)
  }

  /** The pages from low up to but not including high. */
  function Range(low: nat, high: nat): (s: set<nat>)
    requires low <= high
    ensures |s| == high - low && forall k :: k in s <==> low <= k < high
    decreases high
  {
    if low == high then {} else Range(low, high - 1) + {high - 1}
  }

  lemma WithoutRange(free: set<nat>, low: nat, i: nat)
    requires low <= i
    ensures free - Range(low, i) - {i} == free - Range(low, i + 1)
    ensures low == i ==> free - Range(low, i) == free
  {
  }

  /** Taking b away makes a smaller by the size of b if and only if all of b was there. */
  lemma TakenSize(a: set<nat>, b: set<nat>)
    ensures |a - b| == |a| - |b| <==> b <= a
  {
    assert a == (a - b) + a * b;
    assert b == (b - a) + a * b;
    assert |b - a| == 0 <==> b <= a;
  }

  lemma FreeSetChange(bits: seq<bv8>, i: nat)
    requires |bits| == BYTES && i < PAGES
    ensures FreeSet(WithBit(bits, i)) == FreeSet(bits) - {i}
    ensures FreeSet(WithoutBit(bits, i)) == FreeSet(bits) + {i}
  {
    hide Bit;
    forall k: nat | k < PAGES
      ensures Bit(WithBit(bits, i), k) <==> k == i || Bit(bits, k)
      ensures Bit(WithoutBit(bits, i), k) <==> k != i && Bit(bits, k)
    {
      WithBitAt(bits, i, k);
    }
  }

  lemma RangeIsFree(bits: seq<bv8>, low: nat, high: nat)
    requires |bits| == BYTES && low <= high <= PAGES && forall k :: low <= k < high ==> !Bit(bits, k)
    ensures Range(low, high) <= FreeSet(bits)
  {
  }

  /** No aligned fit starts before page i. */
  ghost predicate NoFit(bits: seq<bv8>, i: nat, count: nat, limit: nat, stride: nat)
    requires |bits| == BYTES && limit <= PAGES && stride > 0
  {
    forall x: nat :: x < i ==> !FitsAt(bits, x, count, limit, stride)
  }

  /** No aligned fit starts in [i, next), when the free run from i stops at j: a reserved page or the limit. */
  lemma NoFitBefore(bits: seq<bv8>, i: nat, j: nat, count: nat, limit: nat, stride: nat, next: nat)
    requires |bits| == BYTES && i <= j <= limit <= PAGES && stride > 0 && Aligned(i, stride)
    requires j < limit ==> Bit(bits, j)
    requires count == 0 || (if j < limit then j - i < count else j - i <= count)
    requires if i == j then next == i + stride else next == RoundUp(j, stride)
    ensures Aligned(next, stride) && next > i
    ensures forall x: nat :: i <= x < next ==> !FitsAt(bits, x, count, limit, stride)
  {
    hide Bit;
    if i == j {
      NextMultiple(i, stride);
    } else {
      RoundUpIsUp(j, stride);
    }
    forall x: nat | i <= x < next && x % stride == 0 ensures !FitsAt(bits, x, count, limit, stride) {
      if i == j { BetweenMultiples(i, x, stride); } else { SkipsNothing(j, stride, x); }
    }
  }

  function PageAt(address: nat): nat {
    if address < HIGHER_HALF_BASE then 0 else (address - HIGHER_HALF_BASE) / PAGE_SIZE
  }

  /** The page of any address in it. */
  lemma AddressInPage(i: nat, offset: nat)
    requires offset < PAGE_SIZE
    ensures PageAt(HIGHER_HALF_BASE + i * PAGE_SIZE + offset) == i
  {
  }

  class Bitmap {
    const bytes: array<bv8>
    var firstFreeIndex: nat
    var freePageAmount: int

    /** The search always starts at page 0: nothing ever raises firstFreeIndex. */
    ghost predicate Valid()
      reads this, bytes
    {
      bytes.Length == BYTES && firstFreeIndex == 0 && freePageAmount == |FreeSet(bytes[..])|
    }

    constructor ()
      ensures Valid() && fresh(bytes) && FreeSet(bytes[..]) == {}
    {
      bytes := new bv8[BYTES](i => 255);
      firstFreeIndex, freePageAmount := 0, 0;
      new;
      forall k: nat | k < PAGES ensures Bit(bytes[..], k) {
        assert bytes[..][k / 8] == 255;
      }
      assert FreeSet(bytes[..]) == {};
    }

    /** page_bitmap_reserved. */
    method Reserved(index: nat) returns (b: bool)
      requires bytes.Length == BYTES && index < PAGES
      ensures b <==> Bit(bytes[..], index)
    {
      hide TestIn;
      b := TestIn(bytes[index / 8], index % 8);
    }

    /** page_bitmap_reserve: the range is reserved afterwards, and the counter stays right exactly if all of it was
        free. */
    method Reserve(low: nat, high: nat)
      requires Valid() && low <= high < PAGES
      modifies this`freePageAmount, bytes
      ensures FreeSet(bytes[..]) == old(FreeSet(bytes[..])) - Range(low, high)
      ensures Valid() <==> Range(low, high) <= old(FreeSet(bytes[..]))
    {
      hide Bit, FreeSet, Range;
      TakenSize(FreeSet(bytes[..]), Range(low, high));
      SetBits(low, high);
      freePageAmount := freePageAmount - (high - low);
    }

    method SetBits(low: nat, high: nat)
      requires bytes.Length == BYTES && low <= high < PAGES
      modifies bytes
      ensures FreeSet(bytes[..]) == old(FreeSet(bytes[..])) - Range(low, high)
    {
      hide FreeSet, Range;
      ghost var free := FreeSet(bytes[..]);
      WithoutRange(free, low, low);
      for i := low to high
        invariant FreeSet(bytes[..]) == free - Range(low, i)
      {
        ReserveOne(i);
        WithoutRange(free, low, i);
      }
    }

    method ReserveOne(i: nat)
      requires bytes.Length == BYTES && i < PAGES
      modifies bytes
      ensures FreeSet(bytes[..]) == old(FreeSet(bytes[..])) - {i}
    {
      hide FreeSet, SetIn;
      ghost var before := bytes[..];
      bytes[i / 8] := SetIn(bytes[i / 8], i % 8);
      assert bytes[..] == WithBit(before, i);
      FreeSetChange(before, i);
    }

    /** The inner loop of page_bitmap_alloc: the free run from i, cut off at count pages or at the limit. */
    method Scan(i: nat, count: nat, limit: nat) returns (found: bool, j: nat)
      requires bytes.Length == BYTES && i < limit <= PAGES && !Bit(bytes[..], i)
      ensures i < j <= limit && forall k :: i <= k < j ==> !Bit(bytes[..], k)
      ensures found ==> j - i == count && j < limit
      ensures !found ==>
        (j < limit ==> Bit(bytes[..], j)) && (count == 0 || (if j < limit then j - i < count else j - i <= count))
    {
      hide Bit;
      j := i + 1;
      while j < limit
        invariant i < j <= limit && (forall k :: i <= k < j ==> !Bit(bytes[..], k))
        invariant count == 0 || j - i <= count
      {
        if j - i == count { return true, j; }
        var reserved := Reserved(j);
        if reserved { return false, j; }
        j := j + 1;
      }
      return false, j;
    }

    /** The search of page_bitmap_alloc: the lowest aligned fit, if there is one. */
    method FindFit(count: nat, limit: nat, stride: nat) returns (r: Option<nat>)
      requires Valid() && limit <= PAGES && stride > 0
      ensures r.None? ==> NoFit(bytes[..], limit, count, limit, stride)
      ensures r.Some? ==>
        FitsAt(bytes[..], r.value, count, limit, stride) && NoFit(bytes[..], r.value, count, limit, stride)
    {
      hide Bit, RoundUp, Aligned, FreeSet;
      var i := firstFreeIndex;
      AlignedZero(stride);
      while i < limit
        invariant Aligned(i, stride) && NoFit(bytes[..], i, count, limit, stride)
        decreases limit - i
      {
        var reserved := Reserved(i);
        if reserved {
          NoFitBefore(bytes[..], i, i, count, limit, stride, i + stride);
          i := i + stride;
        } else {
          var found, j := Scan(i, count, limit);
          if found { return Some(i); }
          NoFitBefore(bytes[..], i, j, count, limit, stride, RoundUp(j, stride));
          NextStart(j, stride);
          i := Max(RoundUp(j, stride), stride) - stride;
          i := i + stride;
        }
      }
      return None;
    }

    /** page_bitmap_alloc: the lowest aligned fit, taken; None only if there is no fit. */
    method Alloc(count: nat, maxAddr: nat, alignment: nat) returns (r: Option<nat>)
      requires Valid()
      modifies this`freePageAmount, bytes
      ensures Valid()
      ensures r.None? ==>
        bytes[..] == old(bytes[..]) && NoFit(old(bytes[..]), Limit(maxAddr), count, Limit(maxAddr), Stride(alignment))
      ensures r.Some? ==>
        var i := PageAt(r.value);
        && r.value == i * PAGE_SIZE + HIGHER_HALF_BASE
        && FitsAt(old(bytes[..]), i, count, Limit(maxAddr), Stride(alignment))
        && NoFit(old(bytes[..]), i, count, Limit(maxAddr), Stride(alignment))
        && FreeSet(bytes[..]) == old(FreeSet(bytes[..])) - Range(i, i + count)
    {
      var stride, limit := Stride(alignment), Limit(maxAddr);
      hide Stride, Limit, Bit, Aligned, FreeSet, NoFit, Range;
      var i := FindFit(count, limit, stride);
      if i.None? { return None; }
      FitIsFree(bytes[..], i.value, count, limit, stride);
      Reserve(i.value, i.value + count);
      return Some(i.value * PAGE_SIZE + HIGHER_HALF_BASE);
    }

    /** page_bitmap_free: the page is free afterwards, and the counter stays right exactly if it was reserved before. */
    method Free(address: nat)
      requires Valid() && HIGHER_HALF_BASE <= address && PageAt(address) < PAGES
      modifies this, bytes
      ensures FreeSet(bytes[..]) == old(FreeSet(bytes[..])) + {PageAt(address)} && firstFreeIndex == 0
      ensures Valid() <==> old(Bit(bytes[..], PageAt(address)))
    {
      var index := (address - HIGHER_HALF_BASE) / PAGE_SIZE;
      ghost var before := bytes[..];
      bytes[index / 8] := ClearIn(bytes[index / 8], index % 8);
      firstFreeIndex := Min(firstFreeIndex, index);
      freePageAmount := freePageAmount + 1;
      assert bytes[..] == WithoutBit(before, index);
      assert index !in FreeSet(before) <==> Bit(before, index);
      hide Bit, FreeSet;
      FreeSetChange(before, index);
    }
  }

  lemma FitIsFree(bits: seq<bv8>, i: nat, count: nat, limit: nat, stride: nat)
    requires |bits| == BYTES && limit <= PAGES && stride > 0 && FitsAt(bits, i, count, limit, stride)
    ensures i + count < PAGES && Range(i, i + count) <= FreeSet(bits)
  {
    hide Bit;
    RangeIsFree(bits, i, i + count);
  }

  lemma AlignedZero(stride: nat)
    requires stride > 0
    ensures Aligned(0, stride)
  {
  }

  lemma NextStart(j: nat, stride: nat)
    requires stride > 0 && j > 0
    ensures RoundUp(j, stride) >= stride
  {
    RoundUpIsUp(j, stride);
    if RoundUp(j, stride) < stride { SkipsNothing(j, stride, 0); BetweenMultiples(0, RoundUp(j, stride), stride); }
  }
}
