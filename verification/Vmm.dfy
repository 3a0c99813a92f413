/**
 The virtual-memory calls of a process: allocate, map, unmap and protect ranges of its address space.
 Lengths and addresses are 64-bit and wrap, as in the source.
 */
module Vmm {
  import opened Options
  import opened Paging
  import opened FlatRanges
  import opened PageTable
  import opened PageTree
  import opened AddressSpace

  /** Entries of the root below this one may lead to the n pages from v: the lower half if all of them lie there. */
  ghost function Tops(v: nat, n: nat): (hi: nat)
    ensures RangeUnder(v, n, hi)
  {
    TopsUnder(v, n);
    if RangeUnder(v, n, HALF) then HALF else ENTRIES
  }

  lemma TopsUnder(v: nat, n: nat)
    ensures RangeUnder(v, n, ENTRIES)
  {
  }

  // ---------- Page counts ----------

  function SizeInPages(length: nat): nat { (length + PAGE_SIZE - 1) % ADDRESSES / PAGE_SIZE }

  function AlignDown(addr: nat): nat { addr / PAGE_SIZE * PAGE_SIZE }

  /** The number of pages that a call works on, after the region was aligned. */
  function PageCount(addr: nat, length: nat): nat { SizeInPages((length + addr % PAGE_SIZE) % ADDRESSES) }

  function BytePage(addr: nat, j: nat): nat { Vpn(addr + j) }

  /** Some byte of [addr, addr + length) lies in page w. */
  ghost predicate Touches(addr: nat, length: nat, w: nat) {
    exists j: nat :: j < length && BytePage(addr, j) == w
  }

  ghost predicate CountsTouchedPages(addr: nat, length: nat) {
    forall w: nat :: w < VPNS ==> (Hits(Vpn(addr), PageCount(addr, length), w) <==> Touches(addr, length, w))
  }

  /** The length arithmetic stays below 2^64. */
  predicate Fits(addr: nat, length: nat) { length + addr % PAGE_SIZE + PAGE_SIZE - 1 < ADDRESSES }

  lemma PageOfByte(addr: nat, j: nat)
    ensures BytePage(addr, j) == After(Vpn(addr), (addr % PAGE_SIZE + j) / PAGE_SIZE)
  {
    var n, k := addr / PAGE_SIZE, (addr % PAGE_SIZE + j) / PAGE_SIZE;
    assert addr + j == n * PAGE_SIZE + (addr % PAGE_SIZE + j);
    assert (addr + j) / PAGE_SIZE == n + k;
    ModAdd(n, k);
  }

  /** With fitting lengths the count covers exactly the touched pages, except for an empty range at an unaligned
      address. */
  lemma CountedAreTouched(addr: nat, length: nat)
    requires addr < ADDRESSES && length < ADDRESSES && Fits(addr, length) && (length > 0 || addr % PAGE_SIZE == 0)
    ensures CountsTouchedPages(addr, length)
  {
    var off, n := addr % PAGE_SIZE, PageCount(addr, length);
    CountWhenFits(addr, length);
    forall w: nat | w < VPNS ensures Hits(Vpn(addr), n, w) <==> Touches(addr, length, w) {
      if Touches(addr, length, w) {
        var j: nat :| j < length && BytePage(addr, j) == w;
        PageOfByte(addr, j);
        ByteInCount(off, length, j);
      }
      if Hits(Vpn(addr), n, w) {
        var k: nat :| k < n && After(Vpn(addr), k) == w;
        var j := FirstByte(off, length, k);
        PageOfByte(addr, j);
      }
    }
  }

  lemma CountWhenFits(addr: nat, length: nat)
    requires Fits(addr, length)
    ensures PageCount(addr, length) == (length + addr % PAGE_SIZE + PAGE_SIZE - 1) / PAGE_SIZE
  {
  }

  lemma ByteInCount(off: nat, length: nat, j: nat)
    requires j < length
    ensures (off + j) / PAGE_SIZE < (length + off + PAGE_SIZE - 1) / PAGE_SIZE
  {
  }

  lemma FirstByte(off: nat, length: nat, k: nat) returns (j: nat)
    requires off < PAGE_SIZE && k < (length + off + PAGE_SIZE - 1) / PAGE_SIZE && (length > 0 || off == 0)
    ensures j < length && (off + j) / PAGE_SIZE == k
  {
    j := if k == 0 then 0 else k * PAGE_SIZE - off;
  }

  /** When the arithmetic overflows, at most one page is counted although every page is touched. */
  lemma OverflowMisses(addr: nat, length: nat)
    requires addr < ADDRESSES && length < ADDRESSES && !Fits(addr, length)
    ensures !CountsTouchedPages(addr, length)
  {
    var v := Vpn(addr);
    var w := After(v, 1);
    assert PageCount(addr, length) <= 1 by { CountWhenOverflows(addr, length); }
    assert length >= 2 * PAGE_SIZE;
    assert BytePage(addr, PAGE_SIZE) == w by { PageOfByte(addr, PAGE_SIZE); }
    assert Touches(addr, length, w);
    AfterZero(v, 0);
    if Hits(v, PageCount(addr, length), w) {
      assert After(v, 0) == After(v, 1);
      AfterInjective(v, 0, 1);
    }
  }

  lemma CountWhenOverflows(addr: nat, length: nat)
    requires length < ADDRESSES && !Fits(addr, length)
    ensures PageCount(addr, length) <= 1
  {
    var total := length + addr % PAGE_SIZE;
    assert total < 2 * ADDRESSES;
  }

  /** A call works on exactly the pages its range touches if and only if this holds of its arguments. */
  lemma CountsTouchedPagesIff(addr: nat, length: nat)
    requires addr < ADDRESSES && length < ADDRESSES
    ensures CountsTouchedPages(addr, length) <==> Fits(addr, length) && (length > 0 || addr % PAGE_SIZE == 0)
  {
    if !Fits(addr, length) {
      OverflowMisses(addr, length);
    } else if length > 0 || addr % PAGE_SIZE == 0 {
      CountedAreTouched(addr, length);
    } else {
      CountWhenFits(addr, length);
      AfterZero(Vpn(addr), 0);
      assert PageCount(addr, length) == 1;
      assert Hits(Vpn(addr), 1, Vpn(addr));
      assert !Touches(addr, length, Vpn(addr));
    }
  }

  // ---------- Ownership across mapping ----------

  /** Mapping that adds no owned page keeps ownership. */
  lemma KeptOwnership(mem: Mem, free: set<nat>, root: nat, hi: nat, mem': Mem, free': set<nat>)
    requires TreeOk(mem, free, root) && OwnershipOk(mem, root, free) && OnlyTree(mem, free, mem', free', root, hi)
    requires forall w ::
      Owns(mem', root, w) ==> Owns(mem, root, w) && Flat(mem', root)[w].frame == Flat(mem, root)[w].frame
    ensures OwnershipOk(mem', root, free')
  {
    hide IsTable, Flat, WellFormed, TableUnder;
  }

  /** Mapping one page to a frame f just taken from the allocator keeps ownership. */
  lemma TakenOwnership(mem: Mem, free: set<nat>, root: nat, hi: nat, f: nat, mem': Mem, free': set<nat>, v: nat,
                       e: Entry)
    requires TreeOk(mem, free, root) && OwnershipOk(mem, root, free) && f in free && e.frame == f
    requires OnlyTree(mem, free - {f}, mem', free', root, hi) && Flat(mem', root) == Flat(mem, root)[v := e]
    ensures OwnershipOk(mem', root, free')
  {
    hide IsTable, Flat, WellFormed, TableUnder;
    forall w | Owns(mem', root, w) && w != v
      ensures Owns(mem, root, w) && Flat(mem', root)[w].frame == Flat(mem, root)[w].frame != f
    {
    }
  }

  lemma {:induction false} MapRangeOwned(flat: FlatMap, v: nat, f: Frame, n: nat, flags: Flags, w: nat)
    requires !Has(flags, OWNED) && w in MapRange(flat, v, f, n, flags) && MapRange(flat, v, f, n, flags)[w].Owned()
    ensures w in flat && flat[w] == MapRange(flat, v, f, n, flags)[w]
    decreases n
  {
    if n > 0 {
      OwnedAfterOr(flags);
      MapRangeOwned(flat[v := Entry(f, flags | PRESENT)], Later(v), AfterFrame(f, 1), n - 1, flags, w);
    }
  }

  lemma MappedOwnership(mem: Mem, free: set<nat>, root: nat, hi: nat, mem': Mem, free': set<nat>,
                        v: nat, f: Frame, n: nat, flags: Flags)
    requires TreeOk(mem, free, root) && OwnershipOk(mem, root, free) && OnlyTree(mem, free, mem', free', root, hi)
    requires !Has(flags, OWNED) && Flat(mem', root) == MapRange(Flat(mem, root), v, f, n, flags)
    ensures OwnershipOk(mem', root, free')
  {
    forall w: nat | Owns(mem', root, w)
      ensures Owns(mem, root, w) && Flat(mem', root)[w].frame == Flat(mem, root)[w].frame
    {
      MapRangeOwned(Flat(mem, root), v, f, n, flags, w);
    }
    KeptOwnership(mem, free, root, hi, mem', free');
  }

  // ---------- Calls ----------

  datatype Prot = Prot(read: bool, write: bool)

  datatype Errno = EINVAL | EACCES | EEXIST | EFAULT

  /** A finished call, the kernel panic when physical memory or the address space runs out, or a search without end. */
  datatype Outcome = Done(addr: nat) | Failed(errno: Errno) | Panic | Hang

  function ProtToFlags(prot: Prot): Option<Flags> {
    if !prot.read then None else Some((if prot.write then WRITE else 0) | USER)
  }

  /** The flags of an allocated page. */
  function AllocFlags(prot: Prot): Flags
    requires prot.read
  {
    ProtToFlags(prot).value | OWNED
  }

  lemma ProtFlags(prot: Prot)
    requires prot.read
    ensures var f := ProtToFlags(prot).value;
      Has(f, USER) && (Has(f, WRITE) <==> prot.write) && !Has(f, OWNED) && Has(f | OWNED, OWNED)
  {
  }

  // ---------- What a call leaves, page by page ----------

  /** Page w is a user page with the rights asked for, through all four levels of the tables, and of the other flags
      its entry has at most the ownership bit. */
  ghost predicate UserPage(mem: Mem, root: nat, w: nat, prot: Prot, owned: bool) {
    w < VPNS && w in Flat(mem, root) && var e := Flat(mem, root)[w];
    && (Grants(mem, root, w, WRITE) <==> prot.write) && Grants(mem, root, w, USER)
    && (e.Owned() <==> owned) && e.flags & !(WRITE | USER | OWNED) == PRESENT
  }

  predicate SameAt(flat: FlatMap, flat': FlatMap, w: nat) {
    (w in flat' <==> w in flat) && (w in flat ==> flat'[w] == flat[w])
  }

  /** The pages of the range keep frame and ownership and have the rights asked for; no other page changes. */
  ghost predicate Protected(flat: FlatMap, mem: Mem, root: nat, v: nat, n: nat, prot: Prot) {
    forall w: nat ::
      if Hits(v, n, w) then
        && w in flat && UserPage(mem, root, w, prot, flat[w].Owned()) && Flat(mem, root)[w].frame == flat[w].frame
      else SameAt(flat, Flat(mem, root), w)
  }

  /** The pages of the range own the frames taken, in order if none is visited twice; no other page changes. */
  ghost predicate Allocated(flat: FlatMap, mem: Mem, root: nat, v: nat, taken: seq<Frame>, prot: Prot) {
    && (forall w: nat ::
          if Hits(v, |taken|, w) then UserPage(mem, root, w, prot, true) && Flat(mem, root)[w].frame in taken
          else SameAt(flat, Flat(mem, root), w))
    && (|taken| <= VPNS ==> forall k: nat :: k < |taken| ==>
          After(v, k) in Flat(mem, root) && Flat(mem, root)[After(v, k)].frame == taken[k])
  }

  /** The pages of the range are mapped to the frames from f on, not owned; no other page changes. */
  ghost predicate MappedTo(flat: FlatMap, mem: Mem, root: nat, v: nat, f: Frame, n: nat, prot: Prot) {
    && (forall w: nat ::
          if Hits(v, n, w) then UserPage(mem, root, w, prot, false) else SameAt(flat, Flat(mem, root), w))
    && (n <= VPNS ==> forall k: nat :: k < n ==>
          After(v, k) in Flat(mem, root) && Flat(mem, root)[After(v, k)].frame == AfterFrame(f, k))
  }

  lemma FlagsGrant(flags: Flags, prot: Prot, kept: Flags)
    requires prot.read && flags == ProtToFlags(prot).value
    ensures var f := flags | PRESENT | (kept & OWNED);
            && (Has(f, WRITE) <==> prot.write) && Has(f, USER) && (Has(f, OWNED) <==> Has(kept, OWNED))
            && f & !(WRITE | USER | OWNED) == PRESENT
  {
  }

  lemma IsUserPage(mem: Mem, root: nat, w: nat, prot: Prot, kept: Flags)
    requires WellFormed(mem, root) && prot.read && w in Flat(mem, root)
    requires Flat(mem, root)[w].flags == ProtToFlags(prot).value | PRESENT | (kept & OWNED)
    ensures UserPage(mem, root, w, prot, Has(kept, OWNED))
  {
    FlagsGrant(ProtToFlags(prot).value, prot, kept);
    FlatBound(mem, root);
    EffectiveRights(mem, root, w);
    hide WellFormed, Flat, Grants, Has, ProtToFlags;
  }

  lemma OwnedUserPage(mem: Mem, root: nat, w: nat, prot: Prot)
    requires WellFormed(mem, root) && prot.read && w in Flat(mem, root)
    requires Flat(mem, root)[w].flags == AllocFlags(prot) | PRESENT
    ensures UserPage(mem, root, w, prot, true)
  {
    hide WellFormed, Flat, UserPage;
    IsUserPage(mem, root, w, prot, OWNED);
  }

  lemma ForeignUserPage(mem: Mem, root: nat, w: nat, prot: Prot)
    requires WellFormed(mem, root) && prot.read && w in Flat(mem, root)
    requires Flat(mem, root)[w].flags == ProtToFlags(prot).value | PRESENT
    ensures UserPage(mem, root, w, prot, false)
  {
    hide WellFormed, Flat, UserPage;
    IsUserPage(mem, root, w, prot, 0);
  }

  lemma ReflagProtects(flat: FlatMap, mem: Mem, root: nat, v: nat, n: nat, prot: Prot)
    requires WellFormed(mem, root) && prot.read && v < VPNS && AllMapped(flat, v, n)
    requires Flat(mem, root) == ReflagRange(flat, v, n, ProtToFlags(prot).value)
    ensures Protected(flat, mem, root, v, n, prot)
  {
    var flags := ProtToFlags(prot).value;
    hide WellFormed, Flat, UserPage, ReflagRange, ProtToFlags, After;
    forall w: nat
      ensures Hits(v, n, w) ==>
        && w in flat && UserPage(mem, root, w, prot, flat[w].Owned())
        && w in Flat(mem, root) && Flat(mem, root)[w].frame == flat[w].frame
      ensures !Hits(v, n, w) ==> SameAt(flat, Flat(mem, root), w)
    {
      ReflagRangeAt(flat, v, n, flags, w);
      if Hits(v, n, w) { IsUserPage(mem, root, w, prot, flat[w].flags); }
    }
  }

  lemma AllocatedPage(flat: FlatMap, mem: Mem, root: nat, v: nat, taken: seq<Frame>, prot: Prot, w: nat)
    requires WellFormed(mem, root) && prot.read && v < VPNS
    requires Flat(mem, root) == AllocRange(flat, v, taken, AllocFlags(prot)) && Hits(v, |taken|, w)
    ensures UserPage(mem, root, w, prot, true) && w in Flat(mem, root) && Flat(mem, root)[w].frame in taken
  {
    hide WellFormed, Flat, AllocRange, AllocFlags, ProtToFlags, Hits, UserPage;
    AllocRangeMapped(flat, v, taken, AllocFlags(prot), w);
    AllocRangeFrom(flat, v, taken, AllocFlags(prot), w);
    OwnedUserPage(mem, root, w, prot);
  }

  lemma OtherPage(flat: FlatMap, v: nat, taken: seq<Frame>, flags: Flags, w: nat)
    requires v < VPNS && !Hits(v, |taken|, w)
    ensures SameAt(flat, AllocRange(flat, v, taken, flags), w)
  {
    hide AllocRange, Hits;
    AllocRangeRemove(flat, v, taken, flags, w);
  }

  /** What the map that vmm_alloc leaves means, page by page. */
  lemma AllocAllocates(flat: FlatMap, mem: Mem, root: nat, v: nat, taken: seq<Frame>, prot: Prot)
    requires WellFormed(mem, root) && prot.read && v < VPNS
    requires Flat(mem, root) == AllocRange(flat, v, taken, AllocFlags(prot))
    ensures Allocated(flat, mem, root, v, taken, prot)
  {
    hide WellFormed, Flat, UserPage, AllocRange, AllocFlags, After, Hits, SameAt;
    forall w: nat
      ensures Hits(v, |taken|, w) ==>
        UserPage(mem, root, w, prot, true) && w in Flat(mem, root) && Flat(mem, root)[w].frame in taken
      ensures !Hits(v, |taken|, w) ==> SameAt(flat, Flat(mem, root), w)
    {
      if Hits(v, |taken|, w) {
        AllocatedPage(flat, mem, root, v, taken, prot, w);
      } else {
        OtherPage(flat, v, taken, AllocFlags(prot), w);
      }
    }
    if |taken| <= VPNS {
      forall k: nat | k < |taken|
        ensures After(v, k) in Flat(mem, root) && Flat(mem, root)[After(v, k)].frame == taken[k]
      {
        AllocRangeHit(flat, v, taken, AllocFlags(prot), k);
      }
    }
  }

  lemma MappedPage(flat: FlatMap, mem: Mem, root: nat, v: nat, f: Frame, n: nat, prot: Prot, w: nat)
    requires WellFormed(mem, root) && prot.read && v < VPNS
    requires Flat(mem, root) == MapRange(flat, v, f, n, ProtToFlags(prot).value)
    ensures if Hits(v, n, w) then UserPage(mem, root, w, prot, false) else SameAt(flat, Flat(mem, root), w)
  {
    var flags := ProtToFlags(prot).value;
    hide WellFormed, Flat, MapRange, ProtToFlags, Hits, UserPage;
    if Hits(v, n, w) {
      MapRangeFlags(flat, v, f, n, flags, w);
      ForeignUserPage(mem, root, w, prot);
    } else {
      MapRangeMiss(flat, v, f, n, flags, w);
    }
  }

  lemma MappedFrame(flat: FlatMap, v: nat, f: Frame, n: nat, flags: Flags, k: nat)
    requires v < VPNS && k < n <= VPNS
    ensures var r := MapRange(flat, v, f, n, flags);
            After(v, k) in r && r[After(v, k)].frame == AfterFrame(f, k)
  {
    hide MapRange, After, AfterFrame;
    forall j: nat | k < j < n ensures After(v, j) != After(v, k) {
      if After(v, j) == After(v, k) { AfterInjective(v, j, k); }
    }
    MapRangeHit(flat, v, f, n, flags, k);
  }

  /** And the one that vmm_map leaves. */
  lemma MapMaps(flat: FlatMap, mem: Mem, root: nat, v: nat, f: Frame, n: nat, prot: Prot)
    requires WellFormed(mem, root) && prot.read && v < VPNS
    requires Flat(mem, root) == MapRange(flat, v, f, n, ProtToFlags(prot).value)
    ensures MappedTo(flat, mem, root, v, f, n, prot)
  {
    var flags := ProtToFlags(prot).value;
    hide WellFormed, Flat, UserPage, MapRange, ProtToFlags, After, AfterFrame, Hits, SameAt;
    forall w: nat
      ensures Hits(v, n, w) ==> UserPage(mem, root, w, prot, false)
      ensures !Hits(v, n, w) ==> SameAt(flat, Flat(mem, root), w)
    {
      MappedPage(flat, mem, root, v, f, n, prot, w);
    }
    if n <= VPNS {
      forall k: nat | k < n
        ensures After(v, k) in Flat(mem, root) && Flat(mem, root)[After(v, k)].frame == AfterFrame(f, k)
      {
        MappedFrame(flat, v, f, n, flags, k);
      }
    }
  }

  // ---------- Searching for a free region ----------

  /** Where the search gives up: the last page of the address space. */
  const SEARCH_LIMIT: nat := ADDRESSES - PAGE_SIZE

  /** The address that the search looks at in its k-th turn. */
  function Probe(start: nat, n: nat, k: nat): nat { (start + k * (n * PAGE_SIZE)) % ADDRESSES }

  /** The search goes on at address a. */
  predicate Busy(flat: FlatMap, a: nat, n: nat) { a < SEARCH_LIMIT && AllMapped(flat, Vpn(a), n) }

  predicate BusyUpTo(flat: FlatMap, start: nat, n: nat, k: nat) {
    forall j: nat :: j < k ==> Busy(flat, Probe(start, n, j), n)
  }

  datatype Search = Found(addr: nat) | Filled | Endless

  /** How the search for n pages from start ends: at the first region that is not all mapped, at the last page of the
      address space, or never. */
  ghost predicate SearchEnds(flat: FlatMap, start: nat, n: nat, r: Search) {
    match r
    case Found(a) => exists k: nat :: BusyUpTo(flat, start, n, k) && StopsAt(flat, start, n, k, a)
    case Filled => exists k: nat :: BusyUpTo(flat, start, n, k) && Probe(start, n, k) >= SEARCH_LIMIT
    case Endless => forall k: nat :: Busy(flat, Probe(start, n, k), n)
  }

  predicate StopsAt(flat: FlatMap, start: nat, n: nat, k: nat, a: nat) {
    a == Probe(start, n, k) && a < SEARCH_LIMIT && !AllMapped(flat, Vpn(a), n)
  }

  /** The search has one outcome. */
  lemma SearchIsDetermined(flat: FlatMap, start: nat, n: nat, r: Search, r': Search)
    requires SearchEnds(flat, start, n, r) && SearchEnds(flat, start, n, r')
    ensures r == r'
  {
    hide AllMapped, Vpn, Probe;
    if !r.Endless? && !r'.Endless? {
      var k := LastTurn(flat, start, n, r);
      var k' := LastTurn(flat, start, n, r');
      assert k == k';
    } else if !r.Endless? {
      var k := LastTurn(flat, start, n, r);
    } else if !r'.Endless? {
      var k := LastTurn(flat, start, n, r');
    }
  }

  lemma LastTurn(flat: FlatMap, start: nat, n: nat, r: Search) returns (k: nat)
    requires SearchEnds(flat, start, n, r) && !r.Endless?
    ensures BusyUpTo(flat, start, n, k) && !Busy(flat, Probe(start, n, k), n)
    ensures if r.Found? then StopsAt(flat, start, n, k, r.addr) else Probe(start, n, k) >= SEARCH_LIMIT
  {
    if r.Found? {
      k :| BusyUpTo(flat, start, n, k) && StopsAt(flat, start, n, k, r.addr);
    } else {
      k :| BusyUpTo(flat, start, n, k) && Probe(start, n, k) >= SEARCH_LIMIT;
    }
  }

  lemma ProbeNext(start: nat, n: nat, k: nat)
    ensures Probe(start, n, k + 1) == (Probe(start, n, k) + n * PAGE_SIZE) % ADDRESSES
  {
    var step := n * PAGE_SIZE;
    assert (k + 1) * step == k * step + step;
    WordAdd(start + k * step, step);
  }

  lemma WordAdd(x: nat, y: nat)
    ensures (x % ADDRESSES + y) % ADDRESSES == (x + y) % ADDRESSES
  {
    var r, q := x % ADDRESSES + y, x / ADDRESSES;
    assert x + y == r + q * ADDRESSES;
    WordTurns(r, q);
  }

  lemma WordTurns(r: nat, q: nat)
    ensures (r + q * ADDRESSES) % ADDRESSES == r % ADDRESSES
  {
  }

  /** After this many turns the search is back where it was. */
  const PERIOD: nat := ADDRESSES / PAGE_SIZE

  lemma ProbePeriod(start: nat, n: nat, k: nat)
    ensures Probe(start, n, k) == Probe(start, n, k % PERIOD)
  {
    var q, r := k / PERIOD, k % PERIOD;
    ProbeTurns(start, n, q, r);
    assert k == q * PERIOD + r;
  }

  lemma ProbeTurns(start: nat, n: nat, q: nat, r: nat)
    ensures Probe(start, n, q * PERIOD + r) == Probe(start, n, r)
  {
    Regroup(q, r, n);
    WordTurns(start + r * (n * PAGE_SIZE), q * n);
  }

  lemma Regroup(q: nat, r: nat, n: nat)
    ensures (q * PERIOD + r) * (n * PAGE_SIZE) == r * (n * PAGE_SIZE) + (q * n) * ADDRESSES
  {
    var step := n * PAGE_SIZE;
    assert (q * PERIOD + r) * step == q * PERIOD * step + r * step;
    assert q * PERIOD * (n * PAGE_SIZE) == (q * n) * (PERIOD * PAGE_SIZE);
  }

  lemma BusyForEver(flat: FlatMap, start: nat, n: nat)
    requires BusyUpTo(flat, start, n, PERIOD)
    ensures SearchEnds(flat, start, n, Endless)
  {
    hide Busy, Probe;
    forall k: nat ensures Busy(flat, Probe(start, n, k), n) {
      ProbePeriod(start, n, k);
      assert Busy(flat, Probe(start, n, k % PERIOD), n);
    }
  }

  /** A search for no pages never ends.  It is what a length within a page of 2^64 asks for, and no other length. */
  lemma NoPagesSearch(flat: FlatMap, start: nat, length: nat)
    requires 0 < length < ADDRESSES && start < ADDRESSES
    ensures SizeInPages(length) == 0 <==> length > ADDRESSES - PAGE_SIZE
    ensures length > ADDRESSES - PAGE_SIZE && start < SEARCH_LIMIT ==>
      SearchEnds(flat, start, SizeInPages(length), Endless)
  {
    if length > ADDRESSES - PAGE_SIZE && start < SEARCH_LIMIT {
      assert SizeInPages(length) == 0;
      forall k: nat ensures Busy(flat, Probe(start, 0, k), 0) {
        assert Probe(start, 0, k) == start;
      }
    }
  }

  /** vmm_find_free_region.  The loop of the source has no bound; it is left here when it has come round. */
  method FindFreeRegion(space: Space, length: nat) returns (r: Search)
    requires space.Valid() && length < ADDRESSES
    modifies space`freeAddress
    ensures space.Valid()
    ensures SearchEnds(Flat(space.m.mem, space.pml), old(space.freeAddress), SizeInPages(length), r)
    ensures space.freeAddress ==
      if r.Found? then (r.addr + SizeInPages(length) * PAGE_SIZE) % ADDRESSES else old(space.freeAddress)
    ensures r.Found? ==> r.addr % PAGE_SIZE == 0 && r.addr < ADDRESSES
  {
    var n := SizeInPages(length);
    ghost var flat, start := Flat(space.m.mem, space.pml), space.freeAddress;
    hide SizeInPages, Vpn, AllMapped, Flat, TreeOk, OwnershipOk, Probe;
    ProbeStart(start, n);
    var addr: nat := space.freeAddress;
    for k := 0 to PERIOD
      invariant addr == Probe(start, n, k) && addr < ADDRESSES && addr % PAGE_SIZE == 0
      invariant space.freeAddress == start && BusyUpTo(flat, start, n, k)
    {
      if addr >= SEARCH_LIMIT { return Filled; }
      var mapped := space.m.IsMapped(space.pml, addr, n);
      AlignedStep(addr, n);
      if !mapped {
        space.freeAddress := (addr + n * PAGE_SIZE) % ADDRESSES;
        assert StopsAt(flat, start, n, k, addr);
        return Found(addr);
      }
      ProbeNext(start, n, k);
      addr := (addr + n * PAGE_SIZE) % ADDRESSES;
    }
    BusyForEver(flat, start, n);
    return Endless;
  }

  lemma ProbeStart(start: nat, n: nat)
    requires start < ADDRESSES
    ensures Probe(start, n, 0) == start
  {
  }

  lemma AlignedStep(a: nat, n: nat)
    requires a % PAGE_SIZE == 0
    ensures (a + n * PAGE_SIZE) % PAGE_SIZE == 0 && (a + n * PAGE_SIZE) % ADDRESSES % PAGE_SIZE == 0
  {
    var k := a / PAGE_SIZE + n;
    assert a + n * PAGE_SIZE == k * PAGE_SIZE;
    var q := k * PAGE_SIZE / ADDRESSES;
    assert k * PAGE_SIZE % ADDRESSES == (k - q * 0x10_0000_0000_0000) * PAGE_SIZE;
  }

  /** How a call moves freeAddress: not at all if it was given an address, else past the region that the search
      found. */
  ghost predicate Chosen(flat: FlatMap, start: nat, virtAddr: nat, length: nat, r: Search, base: nat, start': nat) {
    if virtAddr != 0 then r == Found(AlignDown(virtAddr)) && base == virtAddr && start' == start
    else
      && SearchEnds(flat, start, SizeInPages(length), r)
      && (r.Found? ==> base == r.addr && start' == (r.addr + SizeInPages(length) * PAGE_SIZE) % ADDRESSES)
      && (!r.Found? ==> start' == start)
  }

  /** The aligned start and page count of a call, after a region was searched for when no address was given. */
  method ChooseRegion(space: Space, virtAddr: nat, length: nat) returns (r: Search, n: nat, ghost base: nat)
    requires space.Valid() && virtAddr < ADDRESSES && length < ADDRESSES
    modifies space`freeAddress
    ensures space.Valid()
    ensures Chosen(Flat(space.m.mem, space.pml), old(space.freeAddress), virtAddr, length, r, base, space.freeAddress)
    ensures r.Found? ==>
      base < ADDRESSES && r.addr == AlignDown(base) < ADDRESSES
      && Vpn(r.addr) == Vpn(base) && n == PageCount(base, length)
    ensures virtAddr == 0 && r.Found? ==>
      !AllMapped(Flat(space.m.mem, space.pml), Vpn(base), n) && n == SizeInPages(length) && r.addr == base
  {
    var a := virtAddr;
    r := Found(a);
    if virtAddr == 0 {
      r := FindFreeRegion(space, length);
      if !r.Found? { return r, 0, 0; }
      a := r.addr;
      AlignedCount(a, length);
    }
    AlignedVpn(a);
    hide OwnershipOk, Flat, TreeOk, Vpn, AllMapped, PageCount, SizeInPages, AlignDown, BusyUpTo, Probe;
    r, n, base := Found(AlignDown(a)), PageCount(a, length), a;
  }

  /** vmm_unmap: all or nothing. */
  method Unmap(space: Space, virtAddr: nat, length: nat) returns (r: Outcome)
    requires space.Valid() && virtAddr < ADDRESSES && length < ADDRESSES
    modifies space.m
    ensures space.Valid()
    ensures var flat := old(Flat(space.m.mem, space.pml)); var v := Vpn(virtAddr); var n := PageCount(virtAddr, length);
            if AllMapped(flat, v, n) then
              && r == Done(0) && Flat(space.m.mem, space.pml) == UnmapRange(flat, v, n)
              && space.m.freed == old(space.m.freed) + OwnedInRange(flat, v, n)
              && (forall f :: f in space.m.free ==> f in old(space.m.free) || f in OwnedInRange(flat, v, n))
              && OnlyLeaves(old(space.m.mem), space.m.mem, space.m.free, space.pml, Tops(v, n))
            else r == Failed(EFAULT) && unchanged(space.m)
  {
    var a, n := AlignDown(virtAddr), PageCount(virtAddr, length);
    AlignedVpn(virtAddr);
    hide OwnershipOk, OnlyLeaves, Flat, Vpn, PageCount, AllMapped, Tops, RangeUnder;
    var mapped := space.m.IsMapped(space.pml, a, n);
    if !mapped { return Failed(EFAULT); }
    MappedHasTables(space.m.mem, space.pml, Vpn(virtAddr), n);
    space.m.Unmap(space.pml, Tops(Vpn(virtAddr), n), a, n);
    return Done(0);
  }

  /** vmm_protect: all or nothing. */
  method Protect(space: Space, virtAddr: nat, length: nat, prot: Prot) returns (r: Outcome)
    requires space.Valid() && virtAddr < ADDRESSES && length < ADDRESSES
    modifies space.m
    ensures space.Valid() && space.m.freed == old(space.m.freed) && space.m.free == old(space.m.free)
    ensures var flat := old(Flat(space.m.mem, space.pml)); var v := Vpn(virtAddr); var n := PageCount(virtAddr, length);
            if prot.read && AllMapped(flat, v, n) then
              && r == Done(0) && Protected(flat, space.m.mem, space.pml, v, n, prot)
              && Flat(space.m.mem, space.pml) == ReflagRange(flat, v, n, ProtToFlags(prot).value)
              && OnlyLeaves(old(space.m.mem), space.m.mem, space.m.free, space.pml, Tops(v, n))
            else r == Failed(if prot.read then EFAULT else EACCES) && unchanged(space.m)
  {
    var flags := ProtToFlags(prot);
    if flags.None? { return Failed(EACCES); }
    ProtFlags(prot);
    var a, n := AlignDown(virtAddr), PageCount(virtAddr, length);
    AlignedVpn(virtAddr);
    hide OwnershipOk, OnlyLeaves, Flat, Vpn, PageCount, Has, AllMapped, Tops, RangeUnder, Protected, WellFormed;
    var mapped := space.m.IsMapped(space.pml, a, n);
    if !mapped { return Failed(EFAULT); }
    MappedHasTables(space.m.mem, space.pml, Vpn(virtAddr), n);
    ghost var flat := Flat(space.m.mem, space.pml);
    space.m.ChangeFlags(space.pml, Tops(Vpn(virtAddr), n), a, n, flags.value);
    ReflagProtects(flat, space.m.mem, space.pml, Vpn(virtAddr), n, prot);
    return Done(0);
  }

  lemma AlignedVpn(a: nat)
    requires a < ADDRESSES
    ensures AlignDown(a) < ADDRESSES && Vpn(AlignDown(a)) == Vpn(a)
  {
  }

  lemma MappedHasTables(mem: Mem, root: nat, v: nat, n: nat)
    requires AllMapped(Flat(mem, root), v, n)
    ensures HasTables(mem, root, v, n)
  {
    forall k: nat | k < n ensures Walk(mem, root, TablePath(After(v, k))).Some? {
      assert After(v, k) in Flat(mem, root);
    }
  }

  /** The page loop of vmm_alloc: each page is mapped to a frame just taken. */
  method AllocPages(space: Space, ghost hi: nat, a: nat, n: nat, flags: Flags)
    returns (ok: bool, ghost taken: seq<Frame>)
    requires space.Valid() && a < ADDRESSES && RangeUnder(Vpn(a), n, hi)
    modifies space.m`mem, space.m`free
    ensures ok ==> space.Valid() && |taken| == n
    ensures ok ==> Flat(space.m.mem, space.pml) == AllocRange(old(Flat(space.m.mem, space.pml)), Vpn(a), taken, flags)
    ensures ok ==> Once(taken) && forall f :: f in taken ==> f in old(space.m.free)
    ensures ok ==> OnlyTree(old(space.m.mem), old(space.m.free), space.m.mem, space.m.free, space.pml, hi)
    ensures !ok ==> space.m.free == {}
  {
    hide OwnershipOk, Flat, OnlyTree, TreeOk, Once, Vpn, TopIndex;
    taken := [];
    OnceEmpty();
    OnlyTreeRefl(space.m.mem, space.m.free, space.pml, hi);
    for i := 0 to n
      invariant space.Valid() && |taken| == i && space.m.free <= old(space.m.free)
      invariant Flat(space.m.mem, space.pml) == AllocRange(old(Flat(space.m.mem, space.pml)), Vpn(a), taken, flags)
      invariant Once(taken) && forall f :: f in taken ==> f in old(space.m.free) && f !in space.m.free
      invariant OnlyTree(old(space.m.mem), old(space.m.free), space.m.mem, space.m.free, space.pml, hi)
    {
      ghost var f: nat;
      ghost var before, beforeFree := space.m.mem, space.m.free;
      PageAfter(a, i);
      ok, f := AllocPage(space, hi, (a + i * PAGE_SIZE) % ADDRESSES, flags);
      if !ok { return; }
      OnlyTreeTrans(old(space.m.mem), old(space.m.free), before, beforeFree, space.m.mem, space.m.free, space.pml, hi);
      AllocRangeSnoc(old(Flat(space.m.mem, space.pml)), Vpn(a), taken, f, flags);
      OnceConcat(taken, [f]) by { OnceSingle(f); }
      taken := taken + [f];
    }
    ok := true;
  }

  lemma OnceSingle(f: nat)
    ensures Once([f])
  {
  }

  lemma PageAfter(a: nat, i: nat)
    requires a < ADDRESSES
    ensures Vpn((a + i * PAGE_SIZE) % ADDRESSES) == After(Vpn(a), i)
  {
    var n := a / PAGE_SIZE + i;
    assert (a + i * PAGE_SIZE) / PAGE_SIZE == n;
    WordQuotient(a + i * PAGE_SIZE);
    ModVpns(n);
    ModAdd(a / PAGE_SIZE, i);
  }

  lemma WordQuotient(a: nat)
    ensures a % ADDRESSES / PAGE_SIZE == a / PAGE_SIZE % 0x10_0000_0000_0000
  {
  }

  method AllocPage(space: Space, ghost hi: nat, a: nat, flags: Flags) returns (ok: bool, ghost f: nat)
    requires space.Valid() && a < ADDRESSES && TopIndex(Vpn(a)) < hi
    modifies space.m`mem, space.m`free
    ensures !ok ==> space.m.free == {}
    ensures ok ==> space.Valid() && f in old(space.m.free) && f !in space.m.free && f < FRAMES
    ensures ok ==> space.m.free <= old(space.m.free)
    ensures ok ==>
      Flat(space.m.mem, space.pml) == old(Flat(space.m.mem, space.pml))[Vpn(a) := Entry(f, flags | PRESENT)]
    ensures ok ==> OnlyTree(old(space.m.mem), old(space.m.free), space.m.mem, space.m.free, space.pml, hi)
  {
    var m := space.m;
    var r := m.PmmAlloc();
    if r.None? { return false, 0; }
    f := r.value;
    var page: Frame := r.value;
    ghost var left := m.free;
    TreeFewerFree(m.mem, old(m.free), m.free, space.pml);
    CreateAtFrame(page, flags);
    RangeOne(Vpn(a), hi);
    hide OwnershipOk, Flat, WellFormed, Vpn, IsTable, TopIndex, OnlyTree, RangeUnder;
    ok := m.Map(space.pml, hi, a, page * PAGE_SIZE, 1, flags);
    if ok {
      MapOne(old(Flat(m.mem, space.pml)), Vpn(a), page, flags);
      OnlyTreeFree(old(m.mem), left, m.mem, m.free, old(m.free) - {f}, m.free, space.pml, hi);
      OnlyTreeFree(old(m.mem), left, m.mem, m.free, old(m.free), m.free, space.pml, hi);
      OnlyTreeFewer(old(m.mem), left, m.mem, m.free, space.pml, hi);
      TakenOwnership(old(m.mem), old(m.free), space.pml, hi, f, m.mem, m.free, Vpn(a), Entry(page, flags | PRESENT));
    }
  }

  lemma OnlyTreeFewer(m: Mem, free: set<nat>, m': Mem, free': set<nat>, root: nat, hi: nat)
    requires OnlyTree(m, free, m', free', root, hi)
    ensures free' <= free
  {
  }

  lemma RangeOne(v: nat, hi: nat)
    requires v < VPNS && TopIndex(v) < hi
    ensures RangeUnder(v, 1, hi)
  {
    AfterZero(v, 0);
  }

  lemma MapOne(flat: FlatMap, v: nat, f: Frame, flags: Flags)
    ensures MapRange(flat, v, f, 1, flags) == flat[v := Entry(f, flags | PRESENT)]
  {
    assert MapRange(flat[v := Entry(f, flags | PRESENT)], Later(v), AfterFrame(f, 1), 0, flags) == flat[v := Entry(f,
                    flags | PRESENT)];
  }

  /** vmm_alloc: maps every page of the range to a frame just taken, owned by the address space. */
  method Alloc(space: Space, virtAddr: nat, length: nat, prot: Prot) returns (r: Outcome, ghost taken: seq<Frame>)
    requires space.Valid() && virtAddr < ADDRESSES && length < ADDRESSES
    modifies space`freeAddress, space.m`mem, space.m`free
    ensures r.Failed? || r.Hang? ==> space.Valid() && unchanged(space) && unchanged(space.m)
    ensures r == Failed(EINVAL) <==> length == 0
    ensures r == Failed(EACCES) <==> length != 0 && !prot.read
    ensures r == Failed(EEXIST) <==>
      && length != 0 && prot.read && virtAddr != 0
      && AllMapped(old(Flat(space.m.mem, space.pml)), Vpn(virtAddr), PageCount(virtAddr, length))
    ensures r != Failed(EFAULT)
    ensures var flat, start, n := old(Flat(space.m.mem, space.pml)), old(space.freeAddress), SizeInPages(length);
            && (r == Hang <==> length != 0 && prot.read && virtAddr == 0 && SearchEnds(flat, start, n, Endless))
            && (length != 0 && prot.read && virtAddr == 0 && SearchEnds(flat, start, n, Filled) ==> r == Panic)
            && (r == Panic ==> space.m.free == {} || (virtAddr == 0 && SearchEnds(flat, start, n, Filled)))
    ensures r.Done? ==>
      var flat, base := old(Flat(space.m.mem, space.pml)), if virtAddr == 0 then r.addr else virtAddr;
      && space.Valid() && r.addr == AlignDown(base) && base < ADDRESSES && |taken| == PageCount(base, length)
      && Chosen(flat, old(space.freeAddress), virtAddr, length, Found(r.addr), base, space.freeAddress)
      && Flat(space.m.mem, space.pml) == AllocRange(flat, Vpn(base), taken, AllocFlags(prot))
      && Once(taken) && (forall f :: f in taken ==> f in old(space.m.free))
      && !AllMapped(flat, Vpn(base), |taken|)
      && OnlyTree(old(space.m.mem), old(space.m.free), space.m.mem, space.m.free, space.pml, Tops(Vpn(base), |taken|))
  {
    taken := [];
    if length == 0 { return Failed(EINVAL), taken; }
    var flags := ProtToFlags(prot);
    if flags.None? { return Failed(EACCES), taken; }
    var owned := flags.value | OWNED;
    assert owned == AllocFlags(prot);
    hide OwnershipOk, Flat, WellFormed, OnlyTree, Once, Vpn, AllMapped, PageCount, AlignDown, AllocRange, ProtToFlags;
    hide AllocFlags;
    hide SearchEnds, SizeInPages, Tops, RangeUnder;
    ghost var flat, start := Flat(space.m.mem, space.pml), space.freeAddress;
    var a, n, base := ChooseRegion(space, virtAddr, length);
    OneOutcome(flat, start, virtAddr, length, a, base, space.freeAddress);
    if a.Endless? { return Hang, taken; }
    if a.Filled? { return Panic, taken; }
    var mapped := space.m.IsMapped(space.pml, a.addr, n);
    if mapped { return Failed(EEXIST), taken; }
    var ok;
    ok, taken := AllocPages(space, Tops(Vpn(base), n), a.addr, n, owned);
    r := if ok then Done(a.addr) else Panic;
  }

  lemma OneOutcome(flat: FlatMap, start: nat, virtAddr: nat, length: nat, r: Search, base: nat, start': nat)
    requires Chosen(flat, start, virtAddr, length, r, base, start')
    ensures virtAddr == 0 ==> forall r' :: SearchEnds(flat, start, SizeInPages(length), r') <==> r' == r
    ensures virtAddr != 0 ==> r.Found?
  {
    hide SearchEnds;
    if virtAddr == 0 {
      forall r' | SearchEnds(flat, start, SizeInPages(length), r') ensures r' == r {
        SearchIsDetermined(flat, start, SizeInPages(length), r', r);
      }
    }
  }

  lemma AlignedCount(base: nat, length: nat)
    requires base % PAGE_SIZE == 0 && length < ADDRESSES
    ensures AlignDown(base) == base && PageCount(base, length) == SizeInPages(length)
  {
  }

  /** vmm_map: the range is mapped to consecutive frames that the address space does not own. */
  method MapPhysical(space: Space, virtAddr: nat, physAddr: nat, length: nat, prot: Prot) returns (r: Outcome)
    requires space.Valid() && virtAddr < ADDRESSES && physAddr < ADDRESSES && length < ADDRESSES
    modifies space`freeAddress, space.m`mem, space.m`free
    ensures r.Failed? || r.Hang? ==> space.Valid() && unchanged(space) && unchanged(space.m)
    ensures r == Failed(EFAULT) <==> physAddr == 0
    ensures r == Failed(EINVAL) <==> physAddr != 0 && length == 0
    ensures r == Failed(EACCES) <==> physAddr != 0 && length != 0 && !prot.read
    ensures r == Failed(EEXIST) <==>
      && physAddr != 0 && length != 0 && prot.read && virtAddr != 0
      && AllMapped(old(Flat(space.m.mem, space.pml)), Vpn(virtAddr), PageCount(virtAddr, length))
    ensures var flat, start, n := old(Flat(space.m.mem, space.pml)), old(space.freeAddress), SizeInPages(length);
            && (r == Hang <==>
                  physAddr != 0 && length != 0 && prot.read && virtAddr == 0 && SearchEnds(flat, start, n, Endless))
            && (physAddr != 0 && length != 0 && prot.read && virtAddr == 0 ==>
                  SearchEnds(flat, start, n, Filled) ==> r == Panic)
            && (r == Panic ==> space.m.free == {} || (virtAddr == 0 && SearchEnds(flat, start, n, Filled)))
    ensures r.Done? ==>
      var flat, base := old(Flat(space.m.mem, space.pml)), if virtAddr == 0 then r.addr else virtAddr;
      var n := PageCount(base, length);
      && space.Valid() && r.addr == AlignDown(base) && base < ADDRESSES
      && Chosen(flat, old(space.freeAddress), virtAddr, length, Found(r.addr), base, space.freeAddress)
      && Flat(space.m.mem, space.pml) == MapRange(flat, Vpn(base), FrameOf(physAddr), n, ProtToFlags(prot).value)
      && !AllMapped(flat, Vpn(base), n)
      && OnlyTree(old(space.m.mem), old(space.m.free), space.m.mem, space.m.free, space.pml, Tops(Vpn(base), n))
  {
    if physAddr == 0 { return Failed(EFAULT); }
    if length == 0 { return Failed(EINVAL); }
    var flags := ProtToFlags(prot);
    if flags.None? { return Failed(EACCES); }
    ProtFlags(prot);
    hide OwnershipOk, Flat, WellFormed, Vpn, AllMapped, PageCount, Has, FrameOf, OnlyTree, AlignDown, MapRange;
    hide ProtToFlags;
    hide SearchEnds, SizeInPages, Tops, RangeUnder;
    ghost var flat, start := Flat(space.m.mem, space.pml), space.freeAddress;
    var a, n, base := ChooseRegion(space, virtAddr, length);
    OneOutcome(flat, start, virtAddr, length, a, base, space.freeAddress);
    if a.Endless? { return Hang; }
    if a.Filled? { return Panic; }
    var mapped := space.m.IsMapped(space.pml, a.addr, n);
    if mapped { return Failed(EEXIST); }
    var ok := MapRegion(space, Tops(Vpn(base), n), a.addr, physAddr, n, flags.value);
    r := if ok then Done(a.addr) else Panic;
  }

  /** The call of pml_map in vmm_map. */
  method MapRegion(space: Space, ghost hi: nat, a: nat, physAddr: nat, n: nat, flags: Flags) returns (ok: bool)
    requires space.Valid() && a < ADDRESSES && physAddr < ADDRESSES && RangeUnder(Vpn(a), n, hi) && !Has(flags, OWNED)
    modifies space.m`mem, space.m`free
    ensures ok ==> space.Valid()
    ensures ok ==>
      Flat(space.m.mem, space.pml) == MapRange(old(Flat(space.m.mem, space.pml)), Vpn(a), FrameOf(physAddr), n, flags)
    ensures ok ==> OnlyTree(old(space.m.mem), old(space.m.free), space.m.mem, space.m.free, space.pml, hi)
    ensures !ok ==> space.m.free == {}
  {
    AlignedFrame(physAddr);
    hide OwnershipOk, Flat, TreeOk, Vpn, FrameOf, OnlyTree, AlignDown, MapRange, RangeUnder, Has;
    ok := space.m.Map(space.pml, hi, a, AlignDown(physAddr), n, flags);
    if ok {
      MappedOwnership(old(space.m.mem), old(space.m.free), space.pml, hi, space.m.mem, space.m.free,
                      Vpn(a), FrameOf(physAddr), n, flags);
    }
  }

  lemma AlignedFrame(a: nat)
    requires a < ADDRESSES
    ensures AlignDown(a) < ADDRESSES && FrameOf(AlignDown(a)) == FrameOf(a)
  {
  }

  // ---------- Allocating and unmapping again ----------

  /** vmm_alloc, then vmm_unmap of the same range.  The frames given back are exactly those taken if and only if the
      range is no longer than the address space; the pages are as before if and only if none of them was mapped. */
  method AllocThenUnmap(space: Space, virtAddr: nat, length: nat, prot: Prot)
    returns (r: Outcome, ghost base: nat, ghost taken: seq<Frame>)
    requires space.Valid() && virtAddr < ADDRESSES && length < ADDRESSES
    modifies space`freeAddress, space.m
    ensures r.Done? ==>
      space.Valid() && base == (if virtAddr == 0 then r.addr else virtAddr) && |taken| == PageCount(base, length)
    ensures r.Done? ==> (space.m.freed == old(space.m.freed) + taken <==> |taken| <= VPNS)
    ensures r.Done? ==>
      var flat := old(Flat(space.m.mem, space.pml));
      Flat(space.m.mem, space.pml) == flat <==> NoneMapped(flat, Vpn(base), |taken|)
  {
    base := 0;
    ghost var flat, freed := Flat(space.m.mem, space.pml), space.m.freed;
    FlatBound(space.m.mem, space.pml);
    hide Flat, OwnershipOk, TreeOk, Vpn, PageCount, AllocRange, AllMapped, SearchEnds, Chosen, OnlyTree, Tops;
    hide AllocFlags, NoneMapped, Once, ProtToFlags, SizeInPages, AlignDown;
    r, taken := Alloc(space, virtAddr, length, prot);
    if !r.Done? { return; }
    var a := if virtAddr == 0 then r.addr else virtAddr;
    base := a;
    UnmapAgain(space, a, length, prot, flat, taken);
  }

  /** The call of vmm_unmap, on pages that vmm_alloc has just mapped. */
  method UnmapAgain(space: Space, a: nat, length: nat, ghost prot: Prot, ghost flat: FlatMap, ghost taken: seq<Frame>)
    requires space.Valid() && a < ADDRESSES && length < ADDRESSES && prot.read && forall w :: w in flat ==> w < VPNS
    requires |taken| == PageCount(a, length)
    requires Flat(space.m.mem, space.pml) == AllocRange(flat, Vpn(a), taken, AllocFlags(prot))
    modifies space.m
    ensures space.Valid()
    ensures space.m.freed == old(space.m.freed) + taken <==> |taken| <= VPNS
    ensures Flat(space.m.mem, space.pml) == flat <==> NoneMapped(flat, Vpn(a), |taken|)
  {
    ghost var freed := space.m.freed;
    hide Flat, OwnershipOk, TreeOk, Vpn, PageCount, AllocRange, AllMapped;
    hide OwnedInRange, UnmapRange, OnlyLeaves, Tops, AllocFlags, NoneMapped;
    AllocAllMapped(flat, Vpn(a), taken, AllocFlags(prot));
    var r := Unmap(space, a, length);
    AllocUndone(flat, Vpn(a), taken, prot, freed);
  }

  lemma AllocUndone(flat: FlatMap, v: nat, taken: seq<Frame>, prot: Prot, freed: seq<nat>)
    requires v < VPNS && prot.read && forall w :: w in flat ==> w < VPNS
    ensures var r := AllocRange(flat, v, taken, AllocFlags(prot));
            && (freed + OwnedInRange(r, v, |taken|) == freed + taken <==> |taken| <= VPNS)
            && (UnmapRange(r, v, |taken|) == flat <==> NoneMapped(flat, v, |taken|))
  {
    AllocFlagsOwn(prot);
    hide AllocFlags, Has, AllocRange, OwnedInRange, UnmapRange, NoneMapped;
    AllocUnmapRoundTrip(flat, v, taken, AllocFlags(prot));
    FramesIff(flat, v, taken, AllocFlags(prot), freed);
  }

  lemma AllocFlagsOwn(prot: Prot)
    requires prot.read
    ensures Has(AllocFlags(prot), OWNED)
  {
  }

  lemma AllocAllMapped(flat: FlatMap, v: nat, s: seq<Frame>, flags: Flags)
    requires v < VPNS
    ensures AllMapped(AllocRange(flat, v, s, flags), v, |s|)
  {
    forall k: nat | k < |s| ensures After(v, k) in AllocRange(flat, v, s, flags) {
      assert Hits(v, |s|, After(v, k));
      AllocRangeMapped(flat, v, s, flags, After(v, k));
    }
  }

  lemma FramesIff(flat: FlatMap, v: nat, s: seq<Frame>, flags: Flags, freed: seq<nat>)
    requires v < VPNS && Has(flags, OWNED) && forall w :: w in flat ==> w < VPNS
    ensures freed + OwnedInRange(AllocRange(flat, v, s, flags), v, |s|) == freed + s <==> |s| <= VPNS
  {
    var r := AllocRange(flat, v, s, flags);
    if |s| <= VPNS {
      FramesComeBack(flat, v, s, flags);
    } else {
      forall w | w in r ensures w < VPNS { AllocRangeMapped(flat, v, s, flags, w); }
      BoundedCard(r.Keys, 0, VPNS);
      OwnedAtMost(r, v, |s|);
    }
  }

  // ---------- Mapping over owned pages ----------

  /** No page of the tree owns frame f, and it is not free: it is lost. */
  ghost predicate Lost(mem: Mem, root: nat, free: set<nat>, f: nat) {
    f !in free && forall u :: Owns(mem, root, u) ==> Flat(mem, root)[u].frame != f
  }

  /** vmm_alloc refuses only a range that is mapped as a whole.  An owned page in a range that is not loses its frame:
      it is not given back, and nothing owns it any more. */
  lemma AllocOverLoses(mem: Mem, free: set<nat>, root: nat, mem': Mem, free': set<nat>,
                       v: nat, taken: seq<Frame>, flags: Flags, w: nat)
    requires OwnershipOk(mem, root, free) && free' <= free && forall f :: f in taken ==> f in free
    requires v < VPNS && Flat(mem', root) == AllocRange(Flat(mem, root), v, taken, flags)
    requires Owns(mem, root, w) && Hits(v, |taken|, w)
    ensures Lost(mem', root, free', Flat(mem, root)[w].frame)
  {
    hide Flat, IsTable, AllocRange, Hits;
    var f := Flat(mem, root)[w].frame;
    forall u: nat | Owns(mem', root, u) ensures Flat(mem', root)[u].frame != f {
      AllocRangeFrom(Flat(mem, root), v, taken, flags, u);
      if !Hits(v, |taken|, u) { assert Owns(mem, root, u); }
    }
  }

  /** So does vmm_map. */
  lemma MapOverLoses(mem: Mem, free: set<nat>, root: nat, mem': Mem, free': set<nat>,
                     v: nat, f: Frame, n: nat, flags: Flags, w: nat)
    requires OwnershipOk(mem, root, free) && free' <= free && !Has(flags, OWNED)
    requires v < VPNS && Flat(mem', root) == MapRange(Flat(mem, root), v, f, n, flags)
    requires Owns(mem, root, w) && Hits(v, n, w)
    ensures Lost(mem', root, free', Flat(mem, root)[w].frame)
  {
    OwnedAfterOr(flags);
    hide Flat, IsTable, MapRange, Hits;
    MapRangeFlags(Flat(mem, root), v, f, n, flags, w);
    forall u: nat | Owns(mem', root, u) ensures Flat(mem', root)[u].frame != Flat(mem, root)[w].frame {
      MapRangeOwned(Flat(mem, root), v, f, n, flags, u);
      assert Owns(mem, root, u);
    }
  }
}
