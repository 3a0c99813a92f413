/**
 Range updates of a flat map from virtual page numbers to entries, and what each does page by page.
 Page numbers wrap at 2^36, so a range may pass through zero and a very long one may visit a page twice.
 */
module FlatRanges {
  import opened Paging

  /** The page k pages after v, modulo 2^36. */
  function After(v: nat, k: nat): (w: nat)
    ensures w < VPNS
  {
    (v + k) % VPNS
  }

  function Later(v: nat): (w: nat)
    ensures w < VPNS
  {
    After(v, 1)
  }

  /** The frame k frames after f, modulo 2^40. */
  function AfterFrame(f: nat, k: nat): Frame { (f + k) % FRAMES }

  /** Pages v, v+1, ... (n of them, modulo 2^36) mapped to frames f, f+1, ... */
  function MapRange(flat: FlatMap, v: nat, f: Frame, n: nat, flags: Flags): FlatMap
    decreases n
  {
    if n == 0 then flat
    else MapRange(flat[v := Entry(f, flags | PRESENT)], Later(v), AfterFrame(f, 1), n - 1, flags)
  }

  function UnmapRange(flat: FlatMap, v: nat, n: nat): FlatMap
    decreases n
  {
    if n == 0 then flat else UnmapRange(flat - {v}, Later(v), n - 1)
  }

  /** The owned frames that unmapping n pages from v gives back, in order. */
  function OwnedInRange(flat: FlatMap, v: nat, n: nat): seq<nat>
    decreases n
  {
    if n == 0 then []
    else (if v in flat && flat[v].Owned() then [flat[v].frame] else []) + OwnedInRange(flat - {v}, Later(v), n - 1)
  }

  function Lookup(flat: FlatMap, v: nat): Entry { if v in flat then flat[v] else ZERO }

  /** An entry with new flags: the frame and the ownership bit stay. */
  function Reflag(e: Entry, flags: Flags): Entry {
    Entry(e.frame, (if e.Owned() then flags | OWNED else flags) | PRESENT)
  }

  function ReflagRange(flat: FlatMap, v: nat, n: nat, flags: Flags): FlatMap
    decreases n
  {
    if n == 0 then flat else ReflagRange(flat[v := Reflag(Lookup(flat, v), flags)], Later(v), n - 1, flags)
  }

  predicate AllMapped(flat: FlatMap, v: nat, n: nat) {
    forall k: nat :: k < n ==> After(v, k) in flat
  }

  // ---------- Wrap-around ----------

  lemma AfterNext(v: nat, k: nat)
    ensures Later(After(v, k)) == After(v, k + 1) && After(Later(v), k) == After(v, k + 1)
  {
    ModAdd(v + k, 1);
    ModAdd(v + 1, k);
  }

  lemma ModAdd(n: nat, k: nat)
    ensures (n % VPNS + k) % VPNS == (n + k) % VPNS
  {
    var r, q := n % VPNS + k, n / VPNS;
    assert n + k == r + q * VPNS;
    Wrap(r, q);
  }

  lemma Wrap(r: nat, q: nat)
    ensures (r + q * VPNS) % VPNS == r % VPNS
  {
  }

  /** Within one turn of the address space a range visits no page twice. */
  lemma AfterInjective(v: nat, j: nat, k: nat)
    requires j < VPNS && k < VPNS && After(v, j) == After(v, k)
    ensures j == k
  {
    ModAdd(v, j);
    ModAdd(v, k);
  }

  ghost predicate Hits(v: nat, n: nat, w: nat) {
    exists k: nat :: k < n && After(v, k) == w
  }

  lemma HitsNext(v: nat, n: nat, w: nat)
    requires n > 0 && v < VPNS
    ensures Hits(v, n, w) <==> w == v || Hits(Later(v), n - 1, w)
  {
    assert After(v, 0) == v;
    if Hits(Later(v), n - 1, w) {
      var k: nat :| k < n - 1 && After(Later(v), k) == w;
      AfterNext(v, k);
      assert After(v, k + 1) == w;
    }
    if Hits(v, n, w) && w != v {
      var k: nat :| k < n && After(v, k) == w;
      AfterNext(v, k - 1);
      assert After(Later(v), k - 1) == w;
    }
  }

  // ---------- Page by page ----------

  lemma {:induction false} MapRangeMiss(flat: FlatMap, v: nat, f: Frame, n: nat, flags: Flags, w: nat)
    requires v < VPNS && !Hits(v, n, w)
    ensures var r := MapRange(flat, v, f, n, flags); (w in r <==> w in flat) && (w in flat ==> r[w] == flat[w])
    decreases n
  {
    if n > 0 {
      HitsNext(v, n, w);
      MapRangeMiss(flat[v := Entry(f, flags | PRESENT)], Later(v), AfterFrame(f, 1), n - 1, flags, w);
    }
  }

  /** The page visited k-th, and not again later, is mapped to the k-th frame. */
  lemma {:induction false} MapRangeHit(flat: FlatMap, v: nat, f: Frame, n: nat, flags: Flags, k: nat)
    requires v < VPNS && k < n && forall j: nat :: k < j < n ==> After(v, j) != After(v, k)
    ensures var r := MapRange(flat, v, f, n, flags);
            After(v, k) in r && r[After(v, k)] == Entry(AfterFrame(f, k), flags | PRESENT)
    decreases n
  {
    hide After, AfterFrame, Later;
    var flat' := flat[v := Entry(f, flags | PRESENT)];
    AfterZero(v, f);
    if k == 0 {
      forall j: nat | j < n - 1 ensures After(Later(v), j) != v {
        AfterNext(v, j);
        assert After(v, j + 1) != After(v, 0);
      }
      MapRangeMiss(flat', Later(v), AfterFrame(f, 1), n - 1, flags, v);
    } else {
      AfterNext(v, k - 1);
      forall j: nat | k - 1 < j < n - 1 ensures After(Later(v), j) != After(Later(v), k - 1) {
        AfterNext(v, j);
        assert After(v, j + 1) != After(v, k);
      }
      MapRangeHit(flat', Later(v), AfterFrame(f, 1), n - 1, flags, k - 1);
      FrameAdd(f, k);
    }
  }

  lemma AfterZero(v: nat, f: Frame)
    requires v < VPNS
    ensures After(v, 0) == v && AfterFrame(f, 0) == f
  {
  }

  lemma FrameAdd(f: Frame, k: nat)
    requires k > 0
    ensures AfterFrame(AfterFrame(f, 1), k - 1) == AfterFrame(f, k)
  {
  }

  lemma {:induction false} UnmapRangeAt(flat: FlatMap, v: nat, n: nat, w: nat)
    requires v < VPNS
    ensures var r := UnmapRange(flat, v, n);
            (w in r <==> w in flat && !Hits(v, n, w)) && (w in r ==> r[w] == flat[w])
    decreases n
  {
    if n > 0 {
      HitsNext(v, n, w);
      UnmapRangeAt(flat - {v}, Later(v), n - 1, w);
    }
  }

  lemma {:induction false} ReflagRangeBy(flat: FlatMap, v: nat, n: nat, flags: Flags, w: nat)
    requires v < VPNS
    ensures var r := ReflagRange(flat, v, n, flags);
            && (w in r <==> w in flat || Hits(v, n, w))
            && (w in r ==> r[w] == if Hits(v, n, w) then Reflag(Lookup(flat, w), flags) else flat[w])
    decreases n
  {
    hide Reflag;
    if n > 0 {
      HitsNext(v, n, w);
      ReflagTwice(Lookup(flat, v), flags);
      ReflagRangeBy(flat[v := Reflag(Lookup(flat, v), flags)], Later(v), n - 1, flags, w);
    }
  }

  lemma ReflagTwice(e: Entry, flags: Flags)
    ensures Reflag(Reflag(e, flags), flags) == Reflag(e, flags)
  {
  }

  /** A page that is visited keeps its frame and of its flags the ownership bit alone; any other page keeps its
      entry. */
  lemma ReflagRangeAt(flat: FlatMap, v: nat, n: nat, flags: Flags, w: nat)
    requires v < VPNS
    ensures var r := ReflagRange(flat, v, n, flags);
            && (w in r <==> w in flat || Hits(v, n, w))
            && (w in flat && !Hits(v, n, w) ==> r[w] == flat[w])
            && (Hits(v, n, w) ==>
                  var e := Lookup(flat, w); r[w] == Entry(e.frame, flags | PRESENT | (e.flags & OWNED)))
  {
    ReflagRangeBy(flat, v, n, flags, w);
    ReflagBits(Lookup(flat, w), flags);
    hide Reflag;
  }

  lemma ReflagBits(e: Entry, flags: Flags)
    ensures Reflag(e, flags) == Entry(e.frame, flags | PRESENT | (e.flags & OWNED))
  {
  }

  // ---------- Allocating a range page by page ----------

  /** Pages v, v+1, ... mapped to the frames in s. */
  function AllocRange(flat: FlatMap, v: nat, s: seq<Frame>, flags: Flags): FlatMap
    decreases |s|
  {
    if s == [] then flat else AllocRange(flat[v := Entry(s[0], flags | PRESENT)], Later(v), s[1..], flags)
  }

  lemma {:induction false} AllocRangeSnoc(flat: FlatMap, v: nat, s: seq<Frame>, f: Frame, flags: Flags)
    requires v < VPNS
    ensures AllocRange(flat, v, s + [f], flags)
        == AllocRange(flat, v, s, flags)[After(v, |s|) := Entry(f, flags | PRESENT)]
    decreases |s|
  {
    if s == [] {
      AfterZero(v, f);
      assert [] + [f] == [f];
    } else {
      assert (s + [f])[1..] == s[1..] + [f];
      AllocRangeSnoc(flat[v := Entry(s[0], flags | PRESENT)], Later(v), s[1..], f, flags);
      AfterNext(v, |s| - 1);
    }
  }

  lemma {:induction false} AllocRangeRemove(flat: FlatMap, u: nat, s: seq<Frame>, flags: Flags, v: nat)
    requires u < VPNS && !Hits(u, |s|, v)
    ensures AllocRange(flat, u, s, flags) - {v} == AllocRange(flat - {v}, u, s, flags)
    ensures (v in AllocRange(flat, u, s, flags) <==> v in flat)
    ensures (v in flat ==> AllocRange(flat, u, s, flags)[v] == flat[v])
    decreases |s|
  {
    if s != [] {
      HitsNext(u, |s|, v);
      var e := Entry(s[0], flags | PRESENT);
      assert flat[u := e] - {v} == (flat - {v})[u := e];
      AllocRangeRemove(flat[u := e], Later(u), s[1..], flags, v);
    }
  }

  /** The rest of a range no longer than the address space does not come back to its first page. */
  lemma FirstNotHit(v: nat, n: nat)
    requires v < VPNS && 0 < n <= VPNS
    ensures !Hits(Later(v), n - 1, v)
  {
    forall k: nat | k < n - 1 ensures After(Later(v), k) != v {
      AfterNext(v, k);
      AfterZero(v, 0);
      if After(v, k + 1) == After(v, 0) { AfterInjective(v, k + 1, 0); }
    }
  }

  /** No page that a range visits is mapped. */
  ghost predicate NoneMapped(flat: FlatMap, v: nat, n: nat) { forall w :: Hits(v, n, w) ==> w !in flat }

  /** Allocating a range and unmapping it again gives back exactly the frames taken, whatever was mapped before. */
  lemma {:induction false} FramesComeBack(flat: FlatMap, v: nat, s: seq<Frame>, flags: Flags)
    requires v < VPNS && |s| <= VPNS && Has(flags, OWNED)
    ensures OwnedInRange(AllocRange(flat, v, s, flags), v, |s|) == s
    decreases |s|
  {
    if s != [] {
      var e, u := Entry(s[0], flags | PRESENT), Later(v);
      OwnedAfterOr(flags);
      FirstNotHit(v, |s|);
      AllocRangeRemove(flat[v := e], u, s[1..], flags, v);
      assert flat[v := e] - {v} == flat - {v};
      FramesComeBack(flat - {v}, u, s[1..], flags);
    }
  }

  /** It restores the flat map if and only if nothing was mapped there before. */
  lemma AllocUnmapRoundTrip(flat: FlatMap, v: nat, s: seq<Frame>, flags: Flags)
    requires v < VPNS
    ensures UnmapRange(AllocRange(flat, v, s, flags), v, |s|) == flat <==> NoneMapped(flat, v, |s|)
  {
    var r := AllocRange(flat, v, s, flags);
    forall w: nat
      ensures w in UnmapRange(r, v, |s|) <==> w in flat && !Hits(v, |s|, w)
      ensures w in UnmapRange(r, v, |s|) ==> UnmapRange(r, v, |s|)[w] == flat[w]
    {
      UnmapRangeAt(r, v, |s|, w);
      AllocRangeMapped(flat, v, s, flags, w);
      if w in flat && !Hits(v, |s|, w) { AllocRangeRemove(flat, v, s, flags, w); }
    }
  }

  /** An allocated range holds frames of the list with the flags given, and the pages beside it what they held. */
  lemma {:induction false} AllocRangeFrom(flat: FlatMap, v: nat, s: seq<Frame>, flags: Flags, w: nat)
    requires v < VPNS && w in AllocRange(flat, v, s, flags)
    ensures var r := AllocRange(flat, v, s, flags);
            if Hits(v, |s|, w) then r[w].frame in s && r[w].flags == flags | PRESENT else w in flat && r[w] == flat[w]
    decreases |s|
  {
    if s != [] {
      HitsNext(v, |s|, w);
      AllocRangeFrom(flat[v := Entry(s[0], flags | PRESENT)], Later(v), s[1..], flags, w);
    }
  }

  /** And if it visits no page twice, they stand in order. */
  lemma {:induction false} AllocRangeHit(flat: FlatMap, v: nat, s: seq<Frame>, flags: Flags, k: nat)
    requires v < VPNS && k < |s| <= VPNS
    ensures After(v, k) in AllocRange(flat, v, s, flags)
    ensures AllocRange(flat, v, s, flags)[After(v, k)] == Entry(s[k], flags | PRESENT)
    decreases |s|
  {
    var flat' := flat[v := Entry(s[0], flags | PRESENT)];
    if k == 0 {
      AfterZero(v, 0);
      FirstNotHit(v, |s|);
      AllocRangeRemove(flat', Later(v), s[1..], flags, v);
    } else {
      AfterNext(v, k - 1);
      AllocRangeHit(flat', Later(v), s[1..], flags, k - 1);
    }
  }

  lemma {:induction false} MapRangeFlags(flat: FlatMap, v: nat, f: Frame, n: nat, flags: Flags, w: nat)
    requires v < VPNS && Hits(v, n, w)
    ensures w in MapRange(flat, v, f, n, flags) && MapRange(flat, v, f, n, flags)[w].flags == flags | PRESENT
    decreases n
  {
    HitsNext(v, n, w);
    var flat' := flat[v := Entry(f, flags | PRESENT)];
    if Hits(Later(v), n - 1, w) {
      MapRangeFlags(flat', Later(v), AfterFrame(f, 1), n - 1, flags, w);
    } else {
      MapRangeMiss(flat', Later(v), AfterFrame(f, 1), n - 1, flags, w);
    }
  }

  lemma OwnedAfterOr(flags: Flags)
    ensures Has(flags | PRESENT, OWNED) == Has(flags, OWNED)
  {
  }

  lemma {:induction false} AllocRangeMapped(flat: FlatMap, v: nat, s: seq<Frame>, flags: Flags, w: nat)
    requires v < VPNS
    ensures w in AllocRange(flat, v, s, flags) <==> w in flat || Hits(v, |s|, w)
    decreases |s|
  {
    if s != [] {
      HitsNext(v, |s|, w);
      AllocRangeMapped(flat[v := Entry(s[0], flags | PRESENT)], Later(v), s[1..], flags, w);
    }
  }

  lemma {:induction false} MapRangeMapped(flat: FlatMap, v: nat, f: Frame, n: nat, flags: Flags, w: nat)
    requires v < VPNS
    ensures w in MapRange(flat, v, f, n, flags) <==> w in flat || Hits(v, n, w)
    decreases n
  {
    if n > 0 {
      HitsNext(v, n, w);
      MapRangeMapped(flat[v := Entry(f, flags | PRESENT)], Later(v), AfterFrame(f, 1), n - 1, flags, w);
    }
  }

  // ---------- Counting pages ----------

  function Interval(lo: nat, hi: nat): (r: set<nat>)
    ensures forall w: nat :: w in r <==> lo <= w < hi
    decreases hi
  {
    if lo >= hi then {} else Interval(lo, hi - 1) + {hi - 1}
  }

  lemma {:induction false} IntervalCard(lo: nat, hi: nat)
    requires lo <= hi
    ensures |Interval(lo, hi)| == hi - lo
    decreases hi - lo
  {
    if lo < hi { IntervalCard(lo, hi - 1); }
  }

  lemma CardMonotone(a: set<nat>, b: set<nat>)
    requires a <= b
    ensures |a| <= |b|
  {
    assert b == a + (b - a);
  }

  lemma BoundedCard(s: set<nat>, lo: nat, hi: nat)
    requires lo <= hi && forall w :: w in s ==> lo <= w < hi
    ensures |s| <= hi - lo
  {
    IntervalCard(lo, hi);
    CardMonotone(s, Interval(lo, hi));
  }

  /** Unmapping gives back at most one frame for each page that was mapped. */
  lemma {:induction false} OwnedAtMost(flat: FlatMap, v: nat, n: nat)
    ensures |OwnedInRange(flat, v, n)| <= |flat.Keys|
    decreases n
  {
    if n > 0 {
      OwnedAtMost(flat - {v}, Later(v), n - 1);
      assert (flat - {v}).Keys == flat.Keys - {v};
    }
  }
}
