/**
 The life of an address space: every sequence of calls on it, and the regions that the kernel chooses along the way.
 */
module VmmLife {
  import opened Options
  import opened Paging
  import opened FlatRanges
  import opened PageTable
  import opened AddressSpace
  import opened Vmm

  datatype Call =
    | AllocCall(virtAddr: nat, length: nat, prot: Prot)
    | MapCall(virtAddr: nat, physAddr: nat, length: nat, prot: Prot)
    | UnmapCall(virtAddr: nat, length: nat)
    | ProtectCall(virtAddr: nat, length: nat, prot: Prot)

  /** The arguments are 64-bit words. */
  predicate Words(call: Call) {
    call.virtAddr < ADDRESSES && call.length < ADDRESSES && (call.MapCall? ==> call.physAddr < ADDRESSES)
  }

  /** What a space is between calls: where it searches next, and what it maps. */
  datatype View = View(freeAddress: nat, flat: FlatMap)

  ghost function ViewOf(space: Space): View
    reads space, space.m
  {
    View(space.freeAddress, Flat(space.m.mem, space.pml))
  }

  // ---------- One call ----------

  /** A finished vmm_alloc or vmm_map: pages are added, and freeAddress moves past a region that was searched for. */
  ghost predicate Takes(s: View, virtAddr: nat, length: nat, addr: nat, s': View) {
    var base := if virtAddr == 0 then addr else virtAddr;
    && base < ADDRESSES && Chosen(s.flat, s.freeAddress, virtAddr, length, Found(addr), base, s'.freeAddress)
    && forall w :: w in s'.flat <==> w in s.flat || Hits(Vpn(base), PageCount(base, length), w)
  }

  predicate RangeMapped(s: View, virtAddr: nat, length: nat) {
    AllMapped(s.flat, Vpn(virtAddr), PageCount(virtAddr, length))
  }

  /** The arguments that a call does not turn down, in the state it finds. */
  predicate Accepted(s: View, call: Call) {
    match call
    case AllocCall(virtAddr, length, prot) =>
      length != 0 && prot.read && (virtAddr == 0 || !RangeMapped(s, virtAddr, length))
    case MapCall(virtAddr, physAddr, length, prot) =>
      physAddr != 0 && length != 0 && prot.read && (virtAddr == 0 || !RangeMapped(s, virtAddr, length))
    case UnmapCall(virtAddr, length) => RangeMapped(s, virtAddr, length)
    case ProtectCall(virtAddr, length, prot) => prot.read && RangeMapped(s, virtAddr, length)
  }

  /** A call that is turned down changes nothing; one that is not, and returns, has had its effect. */
  ghost predicate Next(s: View, call: Call, r: Outcome, s': View) {
    match r
    case Failed(_) => !Accepted(s, call) && s' == s
    case Done(addr) => Accepted(s, call) && (
      match call
      case AllocCall(virtAddr, length, _) => Takes(s, virtAddr, length, addr, s')
      case MapCall(virtAddr, _, length, _) => Takes(s, virtAddr, length, addr, s')
      case UnmapCall(virtAddr, length) =>
        && s'.freeAddress == s.freeAddress
        && forall w :: w in s'.flat <==> w in s.flat && !Hits(Vpn(virtAddr), PageCount(virtAddr, length), w)
      case ProtectCall(_, _, _) => s'.freeAddress == s.freeAddress && s'.flat.Keys == s.flat.Keys
    )
    case _ => false
  }

  /** A system call on the space: whatever it is, its effect is the one that Next describes. */
  method Execute(space: Space, call: Call) returns (r: Outcome)
    requires space.Valid() && Words(call)
    modifies space`freeAddress, space.m
    ensures r.Done? || r.Failed? ==> space.Valid() && Next(old(ViewOf(space)), call, r, ViewOf(space))
  {
    hide Flat, OwnershipOk, TreeOk, Vpn, PageCount, Chosen, OnlyTree, OnlyLeaves, AllMapped, SearchEnds;
    hide AllocRange, MapRange, UnmapRange, ReflagRange, OwnedInRange;
    ghost var flat := Flat(space.m.mem, space.pml);
    match call
    case AllocCall(virtAddr, length, prot) =>
      ghost var taken;
      r, taken := Alloc(space, virtAddr, length, prot);
      if r.Failed? { KnownErrno(r.errno); }
      if r.Done? {
        ghost var base := if virtAddr == 0 then r.addr else virtAddr;
        forall w { AllocRangeMapped(flat, Vpn(base), taken, AllocFlags(prot), w); }
      }
    case MapCall(virtAddr, physAddr, length, prot) =>
      r := MapPhysical(space, virtAddr, physAddr, length, prot);
      if r.Failed? { KnownErrno(r.errno); }
      if r.Done? {
        ghost var base := if virtAddr == 0 then r.addr else virtAddr;
        forall w {
          MapRangeMapped(flat, Vpn(base), FrameOf(physAddr), PageCount(base, length), ProtToFlags(prot).value, w);
        }
      }
    case UnmapCall(virtAddr, length) =>
      r := Unmap(space, virtAddr, length);
      forall w { UnmapRangeAt(flat, Vpn(virtAddr), PageCount(virtAddr, length), w); }
    case ProtectCall(virtAddr, length, prot) =>
      r := Protect(space, virtAddr, length, prot);
      if r.Done? { ProtectedPages(flat, Vpn(virtAddr), PageCount(virtAddr, length), ProtToFlags(prot).value); }
  }

  lemma KnownErrno(e: Errno)
    ensures e == EINVAL || e == EACCES || e == EEXIST || e == EFAULT
  {
  }

  lemma ProtectedPages(flat: FlatMap, v: nat, n: nat, flags: Flags)
    requires v < VPNS && AllMapped(flat, v, n)
    ensures ReflagRange(flat, v, n, flags).Keys == flat.Keys
  {
    forall w ensures w in ReflagRange(flat, v, n, flags) <==> w in flat {
      ReflagRangeAt(flat, v, n, flags, w);
    }
  }

  // ---------- Every sequence of calls ----------

  /** A space from its creation on: nothing is mapped in its lower half, and every call so far has returned. */
  ghost predicate Life(views: seq<View>, calls: seq<Call>, rs: seq<Outcome>) {
    && |views| == |calls| + 1 && |rs| == |calls| && views[0].freeAddress == FIRST_REGION
    && (forall w :: w in views[0].flat ==> w >= VPNS / 2)
    && forall i :: 0 <= i < |calls| ==> Words(calls[i]) && Next(views[i], calls[i], rs[i], views[i + 1])
  }

  /** The most pages that a call can take, from its arguments alone. */
  function Cost(call: Call): nat {
    match call
    case AllocCall(virtAddr, length, _) => if virtAddr == 0 then SizeInPages(length) else PageCount(virtAddr, length)
    case MapCall(virtAddr, _, length, _) => if virtAddr == 0 then SizeInPages(length) else PageCount(virtAddr, length)
    case _ => 0
  }

  function Total(calls: seq<Call>): nat {
    if calls == [] then 0 else Total(calls[..|calls|-1]) + Cost(calls[|calls|-1])
  }

  lemma {:induction false} TotalPrefix(calls: seq<Call>, i: nat)
    requires i <= |calls|
    ensures Total(calls[..i]) <= Total(calls)
    decreases |calls| - i
  {
    if i < |calls| {
      TotalNext(calls, i);
      TotalPrefix(calls, i + 1);
    } else {
      assert calls[..i] == calls;
    }
  }

  lemma TotalNext(calls: seq<Call>, i: nat)
    requires i < |calls|
    ensures Total(calls[..i + 1]) == Total(calls[..i]) + Cost(calls[i])
  {
    assert calls[..i + 1][..i] == calls[..i];
  }

  /** The lower-half pages mapped at or after page p. */
  function Above(flat: FlatMap, p: nat): set<nat> { set w | w in flat && p <= w < VPNS / 2 }

  /** The pages passed over by searches, and those that stand in the way of later ones, fit into the budget. */
  predicate Bounded(s: View, budget: nat) {
    s.freeAddress % PAGE_SIZE == 0 && s.freeAddress / PAGE_SIZE + |Above(s.flat, s.freeAddress / PAGE_SIZE)| <= budget
  }

  // ---------- One search ----------

  lemma LowVpn(p: nat)
    requires p < VPNS
    ensures Vpn(p * PAGE_SIZE) == p
  {
  }

  lemma LowProbe(p: nat, n: nat, j: nat)
    requires p + j * n <= VPNS / 2
    ensures Probe(p * PAGE_SIZE, n, j) == (p + j * n) * PAGE_SIZE
  {
    assert p * PAGE_SIZE + j * (n * PAGE_SIZE) == (p + j * n) * PAGE_SIZE;
  }

  lemma LowAfter(p: nat, k: nat)
    requires p + k < VPNS
    ensures After(p, k) == p + k
  {
  }

  /** As long as it stays in the lower half, a search passes over nothing but mapped pages. */
  lemma {:induction false} PassedOver(flat: FlatMap, p: nat, n: nat, j: nat)
    requires p + |Above(flat, p)| + n <= VPNS / 2 && BusyUpTo(flat, p * PAGE_SIZE, n, j)
    ensures Interval(p, p + j * n) <= Above(flat, p) && j * n <= |Above(flat, p)|
    decreases j
  {
    hide AllMapped, Vpn, Probe, Interval, Above;
    if j == 0 {
      NothingPassed(flat, p);
    } else {
      PassedOver(flat, p, n, j - 1);
      var q := (j - 1) * n;
      assert j * n == q + n;
      LowProbe(p, n, j - 1);
      assert Busy(flat, Probe(p * PAGE_SIZE, n, j - 1), n);
      PassedOne(flat, p, q, n);
    }
  }

  lemma NothingPassed(flat: FlatMap, p: nat)
    ensures Interval(p, p) <= Above(flat, p)
  {
  }

  lemma PassedOne(flat: FlatMap, p: nat, q: nat, n: nat)
    requires Interval(p, p + q) <= Above(flat, p) && p + q + n <= VPNS / 2
    requires AllMapped(flat, Vpn((p + q) * PAGE_SIZE), n)
    ensures Interval(p, p + q + n) <= Above(flat, p) && q + n <= |Above(flat, p)|
  {
    hide Interval, AllMapped, Vpn;
    MappedRun(flat, p + q, n);
    forall w | w in Interval(p, p + q + n) ensures w in Above(flat, p) {
      if w < p + q { assert w in Interval(p, p + q); }
    }
    IntervalCard(p, p + q + n);
    CardMonotone(Interval(p, p + q + n), Above(flat, p));
  }

  lemma MappedRun(flat: FlatMap, p: nat, n: nat)
    requires p + n <= VPNS / 2 && AllMapped(flat, Vpn(p * PAGE_SIZE), n)
    ensures forall w :: p <= w < p + n ==> w in flat
  {
    LowVpn(p);
    forall w | p <= w < p + n ensures w in flat {
      LowAfter(p, w - p);
      assert After(p, w - p) in flat;
    }
  }

  /** A search that the budget allows ends in the lower half, with the pages it passed over paid for. */
  lemma SearchInBudget(flat: FlatMap, p: nat, n: nat, a: nat) returns (q: nat)
    requires p + |Above(flat, p)| + n <= VPNS / 2 && SearchEnds(flat, p * PAGE_SIZE, n, Found(a))
    ensures a == (p + q) * PAGE_SIZE && Interval(p, p + q) <= Above(flat, p) && q <= |Above(flat, p)|
  {
    hide AllMapped, Vpn;
    var k := LastTurn(flat, p * PAGE_SIZE, n, Found(a));
    PassedOver(flat, p, n, k);
    q := k * n;
    LowProbe(p, n, k);
  }

  /** Within the budget a search neither panics nor goes on for ever: it finds a region. */
  lemma SearchFinds(flat: FlatMap, p: nat, n: nat) returns (a: nat)
    requires n > 0 && p + |Above(flat, p)| + n <= VPNS / 2
    ensures SearchEnds(flat, p * PAGE_SIZE, n, Found(a))
  {
    hide Busy, Probe, Above, Vpn, AllMapped;
    var k := FirstFree(flat, p, n, 0);
    PassedOver(flat, p, n, k);
    a := Probe(p * PAGE_SIZE, n, k);
    LowProbe(p, n, k);
    assert StopsAt(flat, p * PAGE_SIZE, n, k, a) by { NotBusy(flat, a, n); }
  }

  lemma NotBusy(flat: FlatMap, a: nat, n: nat)
    requires !Busy(flat, a, n) && a < SEARCH_LIMIT
    ensures !AllMapped(flat, Vpn(a), n)
  {
  }

  lemma {:induction false} FirstFree(flat: FlatMap, p: nat, n: nat, j: nat) returns (k: nat)
    requires n > 0 && p + |Above(flat, p)| + n <= VPNS / 2 && BusyUpTo(flat, p * PAGE_SIZE, n, j)
    ensures BusyUpTo(flat, p * PAGE_SIZE, n, k) && !Busy(flat, Probe(p * PAGE_SIZE, n, k), n)
    decreases |Above(flat, p)| - j
  {
    hide Busy, Probe, Above;
    PassedOver(flat, p, n, j);
    assert j <= j * n;
    if Busy(flat, Probe(p * PAGE_SIZE, n, j), n) {
      PassedOver(flat, p, n, j + 1);
      assert j + 1 <= (j + 1) * n;
      k := FirstFree(flat, p, n, j + 1);
    } else {
      k := j;
    }
  }

  // ---------- What a call costs ----------

  /** A call given an address adds at most its own pages. */
  lemma GivenAddress(s: View, virtAddr: nat, length: nat, addr: nat, s': View, budget: nat)
    requires virtAddr != 0 && Takes(s, virtAddr, length, addr, s') && Bounded(s, budget)
    ensures Bounded(s', budget + PageCount(virtAddr, length))
  {
    var p, v, n := s.freeAddress / PAGE_SIZE, Vpn(virtAddr), PageCount(virtAddr, length);
    hide PageCount, Vpn, SearchEnds;
    HitCard(v, n);
    assert Above(s'.flat, p) <= Above(s.flat, p) + HitSet(v, n) by {
      forall w | w in Above(s'.flat, p) ensures w in Above(s.flat, p) + HitSet(v, n) { InHitSet(v, n, w); }
    }
    CardMonotone(Above(s'.flat, p), Above(s.flat, p) + HitSet(v, n));
  }

  function HitSet(v: nat, n: nat): set<nat> { if n == 0 then {} else HitSet(v, n - 1) + {After(v, n - 1)} }

  lemma {:induction false} HitCard(v: nat, n: nat)
    ensures |HitSet(v, n)| <= n
  {
    if n > 0 { HitCard(v, n - 1); }
  }

  lemma {:induction false} InHitSet(v: nat, n: nat, w: nat)
    ensures Hits(v, n, w) <==> w in HitSet(v, n)
    decreases n
  {
    if n > 0 {
      InHitSet(v, n - 1, w);
      if w == After(v, n - 1) { assert Hits(v, n, w); }
      if Hits(v, n - 1, w) {
        var k: nat :| k < n - 1 && After(v, k) == w;
        assert Hits(v, n, w);
      }
    }
  }

  /** A call that searches costs its own pages: what it passes over no longer stands in the way. */
  lemma SearchedAddress(s: View, length: nat, addr: nat, s': View, budget: nat)
    requires Takes(s, 0, length, addr, s') && length < ADDRESSES
    requires Bounded(s, budget) && budget + SizeInPages(length) <= VPNS / 2
    ensures Bounded(s', budget + SizeInPages(length))
    ensures s.freeAddress <= addr && s'.freeAddress == addr + SizeInPages(length) * PAGE_SIZE <= VPNS / 2 * PAGE_SIZE
  {
    hide SizeInPages, SearchEnds, PageCount, Above, Hits, Interval, Vpn;
    var p, n := s.freeAddress / PAGE_SIZE, SizeInPages(length);
    assert s.freeAddress == p * PAGE_SIZE;
    var q := SearchInBudget(s.flat, p, n, addr);
    AlignedCount(addr, length);
    LowEnd(p + q, n);
    if n > 0 { LowVpn(p + q); }
    assert n == 0 ==> PageCount(addr, length) == 0;
    PassedIsPaid(s.flat, s'.flat, p, q, n, Vpn(addr));
    assert s'.freeAddress / PAGE_SIZE == p + q + n;
  }

  lemma LowEnd(p: nat, n: nat)
    requires p + n <= VPNS / 2
    ensures p * PAGE_SIZE % PAGE_SIZE == 0 && (p * PAGE_SIZE + n * PAGE_SIZE) % ADDRESSES == (p + n) * PAGE_SIZE
  {
    assert p * PAGE_SIZE + n * PAGE_SIZE == (p + n) * PAGE_SIZE;
  }

  lemma PassedIsPaid(flat: FlatMap, flat': FlatMap, p: nat, q: nat, n: nat, v: nat)
    requires p + q + n <= VPNS / 2 && Interval(p, p + q) <= Above(flat, p) && (n > 0 ==> v == p + q)
    requires forall w :: w in flat' <==> w in flat || Hits(v, n, w)
    ensures |Above(flat', p + q + n)| + q <= |Above(flat, p)|
  {
    hide Interval;
    var rest, passed := Above(flat', p + q + n), Interval(p, p + q);
    forall w | w in rest ensures w in Above(flat, p) - passed {
      HitBelow(v, n, w);
    }
    IntervalCard(p, p + q);
    CardMonotone(rest, Above(flat, p) - passed);
  }

  lemma HitBelow(v: nat, n: nat, w: nat)
    requires n > 0 ==> v + n <= VPNS / 2
    ensures Hits(v, n, w) ==> w < v + n
  {
    if Hits(v, n, w) {
      var k: nat :| k < n && After(v, k) == w;
      LowAfter(v, k);
    }
  }

  lemma OtherCall(s: View, s': View, budget: nat)
    requires Bounded(s, budget) && s'.freeAddress == s.freeAddress && forall w :: w in s'.flat ==> w in s.flat
    ensures Bounded(s', budget)
  {
    CardMonotone(Above(s'.flat, s.freeAddress / PAGE_SIZE), Above(s.flat, s.freeAddress / PAGE_SIZE));
  }

  /** The region that a call chose, if it searched for one. */
  datatype Region = Region(start: nat, pages: nat)

  predicate Searches(call: Call, r: Outcome) { (call.AllocCall? || call.MapCall?) && call.virtAddr == 0 && r.Done? }

  function RegionOf(call: Call, r: Outcome): Region
    requires Searches(call, r)
  {
    Region(r.addr, SizeInPages(call.length))
  }

  /** The address right after a region. */
  function End(region: Region): nat { region.start + region.pages * PAGE_SIZE }

  /** Every call stays within its budget, and a search within the budget passes its region. */
  lemma CallInBudget(s: View, call: Call, r: Outcome, s': View, budget: nat)
    requires Words(call) && Next(s, call, r, s') && Bounded(s, budget) && budget + Cost(call) <= VPNS / 2
    ensures Bounded(s', budget + Cost(call)) && s.freeAddress <= s'.freeAddress
    ensures Searches(call, r) ==>
      var region := RegionOf(call, r);
      s.freeAddress <= region.start && End(region) == s'.freeAddress <= VPNS / 2 * PAGE_SIZE
  {
    hide Bounded, SizeInPages, PageCount, Hits;
    if r.Failed? {
      MoreBudget(s, budget, Cost(call));
    } else if call.AllocCall? || call.MapCall? {
      if call.virtAddr == 0 {
        SearchedAddress(s, call.length, r.addr, s', budget);
      } else {
        GivenAddress(s, call.virtAddr, call.length, r.addr, s', budget);
      }
    } else {
      OtherCall(s, s', budget);
    }
  }

  lemma MoreBudget(s: View, budget: nat, more: nat)
    requires Bounded(s, budget)
    ensures Bounded(s, budget + more)
  {
  }

  // ---------- Regions over a life ----------

  /** The pages that the calls of a life can take, and those below the first region, fit into the lower half. */
  predicate InBudget(calls: seq<Call>) { FIRST_REGION / PAGE_SIZE + Total(calls) <= VPNS / 2 }

  lemma {:induction false} LifeBounded(views: seq<View>, calls: seq<Call>, rs: seq<Outcome>, i: nat)
    requires Life(views, calls, rs) && InBudget(calls) && i <= |calls|
    ensures Bounded(views[i], FIRST_REGION / PAGE_SIZE + Total(calls[..i]))
  {
    hide Bounded, Next;
    if i == 0 {
      StartBounded(views[0]);
    } else {
      LifeBounded(views, calls, rs, i - 1);
      TotalNext(calls, i - 1);
      TotalPrefix(calls, i);
      CallInBudget(views[i - 1], calls[i - 1], rs[i - 1], views[i], FIRST_REGION / PAGE_SIZE + Total(calls[..i - 1]));
    }
  }

  lemma StartBounded(s: View)
    requires s.freeAddress == FIRST_REGION && forall w :: w in s.flat ==> w >= VPNS / 2
    ensures Bounded(s, FIRST_REGION / PAGE_SIZE)
  {
    assert Above(s.flat, FIRST_REGION / PAGE_SIZE) == {};
  }

  lemma LifeCall(views: seq<View>, calls: seq<Call>, rs: seq<Outcome>, i: nat)
    requires Life(views, calls, rs) && InBudget(calls) && i < |calls|
    ensures views[i].freeAddress <= views[i + 1].freeAddress
    ensures Searches(calls[i], rs[i]) ==>
      var region := RegionOf(calls[i], rs[i]);
      views[i].freeAddress <= region.start && End(region) == views[i + 1].freeAddress <= VPNS / 2 * PAGE_SIZE
  {
    hide Bounded, Next;
    LifeBounded(views, calls, rs, i);
    TotalNext(calls, i);
    TotalPrefix(calls, i + 1);
    CallInBudget(views[i], calls[i], rs[i], views[i + 1], FIRST_REGION / PAGE_SIZE + Total(calls[..i]));
  }

  /** Within the budget, no call of a life can fail to find a region. */
  lemma LifeFinds(views: seq<View>, calls: seq<Call>, rs: seq<Outcome>, i: nat, n: nat) returns (a: nat)
    requires Life(views, calls, rs) && i <= |calls| && n > 0
    requires FIRST_REGION / PAGE_SIZE + Total(calls) + n <= VPNS / 2
    ensures SearchEnds(views[i].flat, views[i].freeAddress, n, Found(a))
  {
    assert i < |views|;
    hide Next, SearchEnds, Life, Above, Bounded, Total;
    LifeBounded(views, calls, rs, i);
    TotalPrefix(calls, i);
    a := BoundedFinds(views[i], FIRST_REGION / PAGE_SIZE + Total(calls[..i]), n);
  }

  lemma BoundedFinds(s: View, budget: nat, n: nat) returns (a: nat)
    requires Bounded(s, budget) && n > 0 && budget + n <= VPNS / 2
    ensures SearchEnds(s.flat, s.freeAddress, n, Found(a))
  {
    hide SearchEnds, Above;
    var p := s.freeAddress / PAGE_SIZE;
    assert s.freeAddress == p * PAGE_SIZE;
    a := SearchFinds(s.flat, p, n);
  }

  lemma {:induction false} SearchMovesUp(views: seq<View>, calls: seq<Call>, rs: seq<Outcome>, i: nat, j: nat)
    requires Life(views, calls, rs) && InBudget(calls) && i <= j <= |calls|
    ensures views[i].freeAddress <= views[j].freeAddress
    decreases j - i
  {
    hide Next;
    if i < j {
      SearchMovesUp(views, calls, rs, i, j - 1);
      LifeCall(views, calls, rs, j - 1);
    }
  }

  /** Within the budget, the regions chosen over the life of a space lie in the lower half, one after the other. */
  lemma RegionsDisjoint(views: seq<View>, calls: seq<Call>, rs: seq<Outcome>, i: nat, j: nat)
    requires Life(views, calls, rs) && InBudget(calls) && i < j < |calls|
    requires Searches(calls[i], rs[i]) && Searches(calls[j], rs[j])
    ensures var a, b := RegionOf(calls[i], rs[i]), RegionOf(calls[j], rs[j]);
            FIRST_REGION <= a.start && End(a) <= b.start && End(b) <= VPNS / 2 * PAGE_SIZE
  {
    assert views[0].freeAddress == FIRST_REGION;
    hide Next, Life;
    SearchMovesUp(views, calls, rs, 0, i);
    LifeCall(views, calls, rs, i);
    SearchMovesUp(views, calls, rs, i + 1, j);
    LifeCall(views, calls, rs, j);
  }

  // ---------- Beyond the budget ----------

  /** With nothing mapped, a search ends where it starts. */
  lemma FirstProbe(start: nat, n: nat)
    requires start < SEARCH_LIMIT && n > 0
    ensures SearchEnds(map[], start, n, Found(start))
  {
    ProbeStart(start, n);
    var flat: FlatMap := map[];
    assert !AllMapped(flat, Vpn(start), n) by { assert After(Vpn(start), 0) !in flat; }
    assert BusyUpTo(flat, start, n, 0) && StopsAt(flat, start, n, 0, start);
  }

  /** The n pages from v, and no others. */
  function JustPages(v: nat, n: nat): FlatMap { map w | w in HitSet(v, n) :: ZERO }

  lemma FirstTake(start: nat, length: nat)
    requires start < SEARCH_LIMIT && start % PAGE_SIZE == 0 && length < ADDRESSES && SizeInPages(length) > 0
    ensures var n := SizeInPages(length);
            Takes(View(start, map[]), 0, length, start,
                  View((start + n * PAGE_SIZE) % ADDRESSES, JustPages(Vpn(start), n)))
  {
    hide SizeInPages, PageCount, Vpn, SearchEnds, Hits, HitSet;
    var n := SizeInPages(length);
    AlignedCount(start, length);
    FirstProbe(start, n);
    forall w: nat ensures w in JustPages(Vpn(start), n) <==> Hits(Vpn(start), n, w) { InHitSet(Vpn(start), n, w); }
  }

  const REST: nat := ADDRESSES - FIRST_REGION
  const MORE: nat := FIRST_REGION + PAGE_SIZE

  lemma RestPages()
    ensures SizeInPages(REST) == PERIOD - 0x400 && PageCount(FIRST_REGION, REST) == PERIOD - 0x400
    ensures SizeInPages(MORE) == 0x401
  {
  }

  lemma UnmapTaken(virtAddr: nat, length: nat, v: nat, n: nat)
    requires v == Vpn(virtAddr) && n == PageCount(virtAddr, length)
    ensures forall w :: w in JustPages(v, n) ==> Hits(Vpn(virtAddr), PageCount(virtAddr, length), w)
    ensures AllMapped(JustPages(v, n), Vpn(virtAddr), PageCount(virtAddr, length))
  {
    hide PageCount, Vpn, HitSet, After;
    forall w | w in JustPages(v, n) ensures Hits(v, n, w) { InHitSet(v, n, w); }
    forall k: nat | k < n ensures After(v, k) in JustPages(v, n) {
      assert Hits(v, n, After(v, k));
      InHitSet(v, n, After(v, k));
    }
  }

  /** Without the budget regions do overlap: one that reaches the end of the address space wraps freeAddress to 0, and
      the next search, once the pages are unmapped, starts over from there. */
  lemma WrapOverlaps(prot: Prot) returns (views: seq<View>, calls: seq<Call>, rs: seq<Outcome>)
    requires prot.read
    ensures Life(views, calls, rs) && |calls| == 3 && Searches(calls[0], rs[0]) && Searches(calls[2], rs[2])
    ensures var a, b := RegionOf(calls[0], rs[0]), RegionOf(calls[2], rs[2]); b.start < a.start < End(b) < End(a)
    ensures !InBudget(calls)
  {
    hide Takes, Vpn, SizeInPages, PageCount, HitSet, Hits, JustPages;
    RestPages();
    FirstTake(FIRST_REGION, REST);
    UnmapTaken(FIRST_REGION, REST, Vpn(FIRST_REGION), PERIOD - 0x400);
    FirstTake(0, MORE);
    calls := [MapCall(0, PAGE_SIZE, REST, prot), UnmapCall(FIRST_REGION, REST), MapCall(0, PAGE_SIZE, MORE, prot)];
    rs := [Done(FIRST_REGION), Done(0), Done(0)];
    views := [View(FIRST_REGION, map[]), View(0, JustPages(Vpn(FIRST_REGION), PERIOD - 0x400)),
              View(0, map[]), View(MORE, JustPages(Vpn(0), 0x401))];
    TotalNext(calls, 0);
    TotalPrefix(calls, 1);
  }

  // ---------- How close the budget is ----------

  /** The first page of the first region, even. */
  const FIRST: nat := 0x400

  /** Everything is mapped but two pages, those of the first region. */
  function AllButTwo(): FlatMap { map w | w in Interval(0, VPNS) && w != FIRST && w != FIRST + 1 :: ZERO }

  function AllPages(): FlatMap { map w | w in Interval(0, VPNS) :: ZERO }

  function UpperPages(): FlatMap { map w | w in Interval(VPNS / 2, VPNS) :: ZERO }

  /** So many turns of 2^36 pages make the 64-bit address space. */
  const LAPS: nat := 0x1_0000

  /** The page of the j-th alias of the first region: each is one turn further on, and the last is the region again. */
  function Alias(j: nat): (a: nat)
    requires j <= LAPS
    ensures a < PERIOD
  {
    if j == LAPS then FIRST else FIRST + j * VPNS
  }

  /** Where the search goes on after j of them were found. */
  function AfterAlias(j: nat): (start: nat)
    requires j <= LAPS + 1
    ensures start < ADDRESSES
  {
    if j == 0 then FIRST_REGION else (Alias(j - 1) + 2) * PAGE_SIZE
  }

  lemma AliasIsFirst(j: nat)
    requires j <= LAPS
    ensures Vpn(Alias(j) * PAGE_SIZE) == FIRST && Alias(j) * PAGE_SIZE < SEARCH_LIMIT
    ensures (Alias(j) * PAGE_SIZE + 2 * PAGE_SIZE) % ADDRESSES == AfterAlias(j + 1)
  {
    if j < LAPS { Wrap(FIRST, j); }
  }

  /** A pair of pages at an even page is mapped, unless it is the first region. */
  lemma EvenPair(p: nat)
    requires p % 2 == 0 && p % VPNS != FIRST && p < PERIOD
    ensures Busy(AllButTwo(), p * PAGE_SIZE, 2)
  {
    PageVpn(p);
    hide Vpn, After, AllButTwo;
    PairMapped(p % VPNS);
  }

  lemma PageVpn(p: nat)
    requires p % 2 == 0 && p < PERIOD
    ensures Vpn(p * PAGE_SIZE) == p % VPNS && p % VPNS % 2 == 0 && p * PAGE_SIZE < SEARCH_LIMIT
  {
    PageOfStart(p);
    EvenModTurn(p);
  }

  lemma PageOfStart(p: nat)
    ensures p * PAGE_SIZE / PAGE_SIZE == p
  {
  }

  lemma EvenModTurn(p: nat)
    requires p % 2 == 0
    ensures p % VPNS % 2 == 0
  {
    assert p % VPNS == p - VPNS * (p / VPNS);
  }

  lemma PairMapped(q: nat)
    requires q % 2 == 0 && q != FIRST && q < VPNS
    ensures AllMapped(AllButTwo(), q, 2)
  {
    hide Interval, After;
    forall k: nat | k < 2 ensures After(q, k) in AllButTwo() { LowAfterAny(q, k); }
  }

  lemma FirstPairIsFree(a: nat)
    requires Vpn(a) == FIRST
    ensures !AllMapped(AllButTwo(), Vpn(a), 2)
  {
    hide Interval;
    AfterZero(FIRST, 0);
    assert After(FIRST, 0) !in AllButTwo();
  }

  /** The page that the search looks at in turn i after an alias. */
  function TurnPage(j: nat, i: nat): nat
    requires j < LAPS && i < VPNS / 2
  {
    var n := Alias(j) + 2 + 2 * i;
    if n < PERIOD then n else n - PERIOD
  }

  lemma ProbeOfTurn(j: nat, i: nat)
    requires j < LAPS && i < VPNS / 2
    ensures TurnPage(j, i) < PERIOD && Probe(AfterAlias(j + 1), 2, i) == TurnPage(j, i) * PAGE_SIZE
  {
    var n := Alias(j) + 2 + 2 * i;
    assert AfterAlias(j + 1) + i * (2 * PAGE_SIZE) == n * PAGE_SIZE;
    assert n * PAGE_SIZE < 2 * ADDRESSES;
  }

  lemma PageOfTurn(j: nat, i: nat)
    requires j < LAPS && i < VPNS / 2
    ensures TurnPage(j, i) % 2 == 0
    ensures if i < VPNS / 2 - 1 then TurnPage(j, i) % VPNS != FIRST else TurnPage(j, i) == Alias(j + 1)
  {
    TurnIsEven(j, i);
    if i < VPNS / 2 - 1 { TurnIsElsewhere(j, i); } else { LastTurnIs(j); }
  }

  lemma TurnIsEven(j: nat, i: nat)
    requires j < LAPS && i < VPNS / 2
    ensures TurnPage(j, i) % 2 == 0
  {
    var m := FIRST / 2 + j * (VPNS / 2) + 1 + i;
    assert Alias(j) + 2 + 2 * i == 2 * m;
    assert TurnPage(j, i) == 2 * m || TurnPage(j, i) == 2 * (m - PERIOD / 2);
  }

  lemma LastTurnIs(j: nat)
    requires j < LAPS
    ensures TurnPage(j, VPNS / 2 - 1) == Alias(j + 1)
  {
    assert Alias(j) + 2 + 2 * (VPNS / 2 - 1) == FIRST + (j + 1) * VPNS;
  }

  lemma TurnIsElsewhere(j: nat, i: nat)
    requires j < LAPS && i < VPNS / 2 - 1
    ensures TurnPage(j, i) % VPNS != FIRST
  {
    var r := FIRST + 2 + 2 * i;
    var n := r + j * VPNS;
    assert n == Alias(j) + 2 + 2 * i;
    var laps := if n < PERIOD then j else j - LAPS;
    ModTurns(r, laps, TurnPage(j, i));
  }

  lemma ModTurns(r: nat, q: int, p: nat)
    requires r < 2 * VPNS && r != FIRST && r != FIRST + VPNS && p == r + q * VPNS
    ensures p % VPNS != FIRST
  {
    var d := p / VPNS - q;
    assert r == p % VPNS + d * VPNS;
  }

  /** The search after an alias ends at the next one. */
  lemma FindsNextAlias(j: nat)
    requires j <= LAPS
    ensures SearchEnds(AllButTwo(), AfterAlias(j), 2, Found(Alias(j) * PAGE_SIZE))
  {
    hide AllButTwo, Probe, Vpn, AllMapped, AfterAlias, Alias, Busy, TurnPage;
    AliasIsFirst(j);
    FirstPairIsFree(Alias(j) * PAGE_SIZE);
    var k := if j == 0 then 0 else VPNS / 2 - 1;
    if j == 0 {
      StartsAtFirst();
    } else {
      ProbeOfTurn(j - 1, k);
      PageOfTurn(j - 1, k);
      forall i: nat | i < k ensures Busy(AllButTwo(), Probe(AfterAlias(j), 2, i), 2) {
        ProbeOfTurn(j - 1, i);
        PageOfTurn(j - 1, i);
        EvenPair(TurnPage(j - 1, i));
      }
    }
    assert BusyUpTo(AllButTwo(), AfterAlias(j), 2, k);
    assert StopsAt(AllButTwo(), AfterAlias(j), 2, k, Alias(j) * PAGE_SIZE);
  }

  lemma StartsAtFirst()
    ensures Alias(0) * PAGE_SIZE == AfterAlias(0) == Probe(AfterAlias(0), 2, 0) == FIRST_REGION
  {
    ProbeStart(FIRST_REGION, 2);
  }

  const PAIR: nat := 2 * PAGE_SIZE

  lemma PairPages(j: nat)
    requires j <= LAPS
    ensures SizeInPages(PAIR) == 2 && PageCount(Alias(j) * PAGE_SIZE, PAIR) == 2
  {
    AlignedCount(Alias(j) * PAGE_SIZE, PAIR);
  }

  lemma PairHits(w: nat)
    ensures Hits(FIRST, 2, w) <==> w == FIRST || w == FIRST + 1
    ensures w in AllPages() <==> w in AllButTwo() || Hits(FIRST, 2, w)
    ensures w in AllButTwo() <==> w in AllPages() && !Hits(FIRST, 2, w)
  {
    hide Interval;
    assert After(FIRST, 0) == FIRST && After(FIRST, 1) == FIRST + 1;
  }

  lemma PairIsMapped()
    ensures AllMapped(AllPages(), FIRST, 2)
  {
    forall k: nat | k < 2 ensures After(FIRST, k) in AllPages() { LowAfterAny(FIRST, k); }
  }

  /** A search finds alias j, and the pair of pages is mapped; unmapping it leaves two pages free again. */
  lemma LapCalls(j: nat, prot: Prot)
    requires j <= LAPS && prot.read
    ensures var found, a := View(AfterAlias(j + 1), AllPages()), Alias(j) * PAGE_SIZE;
            && Next(View(AfterAlias(j), AllButTwo()), MapCall(0, PAGE_SIZE, PAIR, prot), Done(a), found)
            && Next(found, UnmapCall(a, PAIR), Done(0), View(AfterAlias(j + 1), AllButTwo()))
  {
    hide AllButTwo, AllPages, AfterAlias, Alias, Vpn, SizeInPages, PageCount, SearchEnds, Hits;
    AliasIsFirst(j);
    PairPages(j);
    FindsNextAlias(j);
    PairIsMapped();
    forall w ensures w in AllPages() <==> w in AllButTwo() || Hits(FIRST, 2, w) { PairHits(w); }
    forall w ensures w in AllButTwo() <==> w in AllPages() && !Hits(FIRST, 2, w) { PairHits(w); }
  }

  lemma OneMoreCall(views: seq<View>, calls: seq<Call>, rs: seq<Outcome>, call: Call, r: Outcome, s: View)
    requires Life(views, calls, rs) && Words(call) && Next(views[|calls|], call, r, s)
    ensures Life(views + [s], calls + [call], rs + [r]) && Total(calls + [call]) == Total(calls) + Cost(call)
  {
    hide Next, Cost;
    assert (calls + [call])[..|calls|] == calls;
    var views', calls', rs' := views + [s], calls + [call], rs + [r];
    forall i | 0 <= i < |calls'| ensures Words(calls'[i]) && Next(views'[i], calls'[i], rs'[i], views'[i + 1]) {
      if i < |calls| { assert Next(views[i], calls[i], rs[i], views[i + 1]); }
    }
  }

  /** The first calls map the lower half, but for two pages; an address of 1 stands for page 0. */
  const BELOW: nat := FIRST_REGION - 1
  const ABOVE: nat := VPNS / 2 * PAGE_SIZE - FIRST_REGION - PAIR

  lemma SetupPages()
    ensures PageCount(1, BELOW) == FIRST && Vpn(1) == 0 && AlignDown(1) == 0
    ensures PageCount(FIRST_REGION + PAIR, ABOVE) == VPNS / 2 - FIRST - 2 && Vpn(FIRST_REGION + PAIR) == FIRST + 2
    ensures AlignDown(FIRST_REGION + PAIR) == FIRST_REGION + PAIR
  {
  }

  lemma HitsStretch(v: nat, n: nat, w: nat)
    requires v + n <= VPNS
    ensures Hits(v, n, w) <==> v <= w < v + n
  {
    if v <= w < v + n { LowAfterAny(v, w - v); assert After(v, w - v) == w; }
    if Hits(v, n, w) {
      var k: nat :| k < n && After(v, k) == w;
      LowAfterAny(v, k);
    }
  }

  lemma LowAfterAny(p: nat, k: nat)
    requires p + k < VPNS
    ensures After(p, k) == p + k
  {
  }

  function WithLow(): FlatMap { map w | w in Interval(0, VPNS) && (w < FIRST || w >= VPNS / 2) :: ZERO }

  lemma Setup(prot: Prot) returns (views: seq<View>, calls: seq<Call>, rs: seq<Outcome>)
    requires prot.read
    ensures Life(views, calls, rs) && |calls| == 2 && Total(calls) == VPNS / 2 - 2
    ensures views[2] == View(AfterAlias(0), AllButTwo())
  {
    hide Next, Total, UpperPages, WithLow, AllButTwo, Life;
    var s0, s1 := View(FIRST_REGION, UpperPages()), View(FIRST_REGION, WithLow());
    var s2 := View(AfterAlias(0), AllButTwo());
    var call0, call1 := MapCall(1, PAGE_SIZE, BELOW, prot), MapCall(FIRST_REGION + PAIR, PAGE_SIZE, ABOVE, prot);
    SetupPages();
    Newborn(s0);
    SetupLow(s0, s1, call0);
    OneMoreCall([s0], [], [], call0, Done(0), s1);
    SetupRest(s1, s2, call1);
    views, calls, rs := [s0] + [s1], [] + [call0], [] + [Done(0)];
    OneMoreCall(views, calls, rs, call1, Done(FIRST_REGION + PAIR), s2);
    views, calls, rs := views + [s2], calls + [call1], rs + [Done(FIRST_REGION + PAIR)];
  }

  lemma Newborn(s: View)
    requires s == View(FIRST_REGION, UpperPages())
    ensures Life([s], [], []) && Total([]) == 0
  {
    hide Interval;
  }

  lemma FirstUnmapped(flat: FlatMap, v: nat, n: nat)
    requires v < VPNS && n > 0 && v !in flat
    ensures !AllMapped(flat, v, n)
  {
    AfterZero(v, 0);
    assert After(v, 0) !in flat;
  }

  lemma SetupLow(s: View, s': View, call: Call)
    requires s == View(FIRST_REGION, UpperPages()) && s' == View(FIRST_REGION, WithLow())
    requires call.MapCall? && call.virtAddr == 1 && call.physAddr != 0 && call.length == BELOW && call.prot.read
    ensures Next(s, call, Done(0), s')
  {
    hide Vpn, PageCount, Hits, Interval;
    SetupPages();
    forall w: nat ensures Hits(0, FIRST, w) <==> w < FIRST { HitsStretch(0, FIRST, w); }
    FirstUnmapped(UpperPages(), 0, FIRST);
  }

  lemma SetupRest(s: View, s': View, call: Call)
    requires s == View(FIRST_REGION, WithLow()) && s' == View(AfterAlias(0), AllButTwo())
    requires call.MapCall? && call.virtAddr == FIRST_REGION + PAIR && call.physAddr != 0 && call.length == ABOVE
    requires call.prot.read
    ensures Next(s, call, Done(FIRST_REGION + PAIR), s')
  {
    hide Vpn, PageCount, Hits, Interval;
    SetupPages();
    var v, n := FIRST + 2, VPNS / 2 - FIRST - 2;
    forall w: nat ensures Hits(v, n, w) <==> v <= w < v + n { HitsStretch(v, n, w); }
    FirstUnmapped(WithLow(), v, n);
  }

  /** After the first calls, and n laps of one search and one unmapping each. */
  ghost predicate Lapped(views: seq<View>, calls: seq<Call>, rs: seq<Outcome>, n: nat)
    requires n <= LAPS
  {
    && Life(views, calls, rs) && |calls| == 2 + 2 * n && Total(calls) == VPNS / 2 - 2 + 2 * n
    && views[|calls|] == View(AfterAlias(n), AllButTwo())
    && (n > 0 ==> Searches(calls[2], rs[2]) && RegionOf(calls[2], rs[2]) == Region(FIRST_REGION, 2))
  }

  lemma {:induction false} Laps(n: nat, prot: Prot) returns (views: seq<View>, calls: seq<Call>, rs: seq<Outcome>)
    requires n <= LAPS && prot.read
    ensures Lapped(views, calls, rs, n)
    decreases n
  {
    hide AllButTwo, AllPages, Life, Next, Total, SizeInPages;
    if n == 0 {
      views, calls, rs := Setup(prot);
    } else {
      views, calls, rs := Laps(n - 1, prot);
      LapCalls(n - 1, prot);
      PairPages(n - 1);
      AliasIsFirst(n - 1);
      hide Alias, AfterAlias;
      StartsAtFirst();
      var a := Alias(n - 1) * PAGE_SIZE;
      var search, undo := MapCall(0, PAGE_SIZE, PAIR, prot), UnmapCall(a, PAIR);
      var found, back := View(AfterAlias(n), AllPages()), View(AfterAlias(n), AllButTwo());
      LifeLength(views, calls, rs);
      OneMoreCall(views, calls, rs, search, Done(a), found);
      OneMoreCall(views + [found], calls + [search], rs + [Done(a)], undo, Done(0), back);
      views, calls, rs := views + [found] + [back], calls + [search] + [undo], rs + [Done(a)] + [Done(0)];
    }
  }

  lemma LifeLength(views: seq<View>, calls: seq<Call>, rs: seq<Outcome>)
    requires Life(views, calls, rs)
    ensures |views| == |calls| + 1 && |rs| == |calls|
  {
  }

  /** The bound is nearly tight: with 2^17 pages more than the lower half has, a life whose first and last searches
      choose the same region.  In between the search goes through the aliases of two free pages. */
  lemma NearlyTight(prot: Prot) returns (views: seq<View>, calls: seq<Call>, rs: seq<Outcome>, i: nat, j: nat)
    requires prot.read
    ensures Life(views, calls, rs) && i < j < |calls| && Searches(calls[i], rs[i]) && Searches(calls[j], rs[j])
    ensures RegionOf(calls[i], rs[i]) == RegionOf(calls[j], rs[j]) == Region(FIRST_REGION, 2)
    ensures Total(calls) == VPNS / 2 + 0x2_0000
  {
    views, calls, rs := Laps(LAPS, prot);
    LapCalls(LAPS, prot);
    PairPages(LAPS);
    hide AllButTwo, AllPages, Life, Next, Total, SizeInPages;
    LifeLength(views, calls, rs);
    i, j := 2, |calls|;
    var search, r, s := MapCall(0, PAGE_SIZE, PAIR, prot), Done(FIRST_REGION), View(AfterAlias(LAPS + 1), AllPages());
    OneMoreCall(views, calls, rs, search, r, s);
    views, calls, rs := views + [s], calls + [search], rs + [r];
  }
}
