/** Options shared by every model in the project. */
module Options {
  datatype Option<+T> = None | Some(value: T)
}

/** The 64-bit word that an entry is stored in. */
module EntryWord {
  /** page_entry_create on 64-bit words. */
  function WordCreate(physAddr: bv64, flags: bv64): bv64 {
    (((physAddr >> 12) & 0xFF_FFFF_FFFF) << 12) | (flags | 1)
  }

  const ADDRESS_BITS: bv64 := 0x000F_FFFF_FFFF_F000

  /** For all 64-bit flags: the low bits of a word are those of the flags with PRESENT set, and its address field
      holds the page-aligned physical address and whatever the flags have there.  With flags in the low twelve bits,
      then, the two fields do not disturb each other, and a word is an Entry. */
  lemma WordIsEntry(physAddr: bv64, flags: bv64)
    ensures WordCreate(physAddr, flags) & 0xFFF == (flags & 0xFFF) | 1
    ensures WordCreate(physAddr, flags) & ADDRESS_BITS == (physAddr | flags) & ADDRESS_BITS
    ensures flags & 0xFFF == flags ==> WordCreate(physAddr, flags) & ADDRESS_BITS == physAddr & ADDRESS_BITS
  {
    FlagField(physAddr, flags);
    AddressField(physAddr, flags);
    hide WordCreate;
    LowFlags(physAddr, flags);
  }

  lemma FlagField(physAddr: bv64, flags: bv64)
    ensures WordCreate(physAddr, flags) & 0xFFF == (flags & 0xFFF) | 1
  {
  }

  lemma AddressField(physAddr: bv64, flags: bv64)
    ensures WordCreate(physAddr, flags) & ADDRESS_BITS == (physAddr | flags) & ADDRESS_BITS
  {
  }

  lemma LowFlags(physAddr: bv64, flags: bv64)
    ensures flags & 0xFFF == flags ==> (physAddr | flags) & ADDRESS_BITS == physAddr & ADDRESS_BITS
  {
  }
}

/**
 Four-level page tables as values: the words of a table entry, the memory that holds tables, the
 walk from the root, and the flat map from virtual page numbers to leaf entries that the tree stands for.

 A page is named by its frame number.  The kernel reaches frame f through the alias
 HIGHER_HALF_BASE + f * PAGE_SIZE, a bijection, so a pointer to a table is the frame of that table.
 */
module Paging {
  import opened Options

  const PAGE_SIZE: nat := 0x1000
  const ENTRIES: nat := 512
  const ADDRESSES: nat := 0x1_0000_0000_0000_0000
  const VPNS: nat := 0x10_0000_0000
  const FRAMES: nat := 0x100_0000_0000
  const HIGHER_HALF_BASE: nat := 0xFFFF_8000_0000_0000

  // ---------- Entries ----------

  /** The low twelve bits of an entry. */
  type Flags = bv12

  const PRESENT: Flags := 0x001
  const WRITE: Flags := 0x002
  const USER: Flags := 0x004
  const GLOBAL: Flags := 0x100
  const OWNED: Flags := 0x200

  predicate Has(flags: Flags, bit: Flags) { flags & bit != 0 }

  type Frame = f: nat | f < FRAMES

  /** A 64-bit entry: a 40-bit frame number above twelve flag bits. */
  datatype Entry = Entry(frame: Frame, flags: Flags) {
    predicate Present() { Has(flags, PRESENT) }
    predicate Owned() { Has(flags, OWNED) }
  }

  const ZERO := Entry(0, 0)
  function ZeroPage(): (s: seq<Entry>)
    ensures |s| == ENTRIES && forall i :: 0 <= i < ENTRIES ==> s[i] == ZERO
  {
    seq(ENTRIES, i => ZERO)
  }

  function FrameOf(physAddr: nat): Frame { physAddr / PAGE_SIZE % FRAMES }

  /** The frame of a physical address is the page that holds it, for addresses of 52 bits. */
  lemma FrameHolds(physAddr: nat)
    requires physAddr < FRAMES * PAGE_SIZE
    ensures FrameOf(physAddr) * PAGE_SIZE <= physAddr < (FrameOf(physAddr) + 1) * PAGE_SIZE
  {
    assert physAddr / PAGE_SIZE < FRAMES;
  }

  function EntryCreate(physAddr: nat, flags: Flags): Entry {
    Entry(FrameOf(physAddr), flags | PRESENT)
  }

  lemma CreateAtFrame(f: Frame, flags: Flags)
    ensures EntryCreate(f * PAGE_SIZE, flags) == Entry(f, flags | PRESENT)
  {
  }

  // ---------- Virtual addresses ----------

  /** The table index that an address selects at a level, 4 being the root. */
  function Index(virtAddr: nat, level: nat): (i: nat)
    requires 1 <= level <= 4
    ensures i < ENTRIES
  {
    (if level == 4 then virtAddr / 0x80_0000_0000
     else if level == 3 then virtAddr / 0x4000_0000
     else if level == 2 then virtAddr / 0x20_0000
     else virtAddr / 0x1000) % ENTRIES
  }

  function Vpn(virtAddr: nat): (v: nat)
    ensures v < VPNS
  {
    virtAddr / PAGE_SIZE % VPNS
  }

  /** The path from the root to the last-level table of a virtual page. */
  function TablePath(v: nat): (p: seq<nat>)
    requires v < VPNS
    ensures IsPath(p)
  {
    [v / 0x800_0000, v / 0x4_0000 % ENTRIES, v / ENTRIES % ENTRIES]
  }

  function Slot(v: nat): nat { v % ENTRIES }

  lemma IndicesOfVpn(a: nat)
    ensures TablePath(Vpn(a)) == [Index(a, 4), Index(a, 3), Index(a, 2)]
    ensures Slot(Vpn(a)) == Index(a, 1)
  {
    var n := a / PAGE_SIZE;
    Shifts(a);
    RootIndex(n);
    ThirdIndex(n);
    SecondIndex(n);
    FirstIndex(n);
  }

  lemma Shifts(a: nat)
    ensures a / PAGE_SIZE / 0x800_0000 == a / 0x80_0000_0000
    ensures a / PAGE_SIZE / 0x4_0000 == a / 0x4000_0000
    ensures a / PAGE_SIZE / ENTRIES == a / 0x20_0000
  {
  }

  lemma RootIndex(n: nat)
    ensures n % VPNS / 0x800_0000 == n / 0x800_0000 % ENTRIES
  {
    var q, r := n / VPNS, n % VPNS;
    assert n == (q * ENTRIES + r / 0x800_0000) * 0x800_0000 + r % 0x800_0000;
    assert n / 0x800_0000 == q * ENTRIES + r / 0x800_0000;
  }

  lemma ThirdIndex(n: nat)
    ensures n % VPNS / 0x4_0000 % ENTRIES == n / 0x4_0000 % ENTRIES
  {
    MiddleBits(n);
    LowBits(n / 0x4_0000);
  }

  lemma MiddleBits(n: nat)
    ensures n % VPNS / 0x4_0000 == n / 0x4_0000 % 0x4_0000
  {
    var q, r := n / VPNS, n % VPNS;
    assert n == (q * 0x4_0000 + r / 0x4_0000) * 0x4_0000 + r % 0x4_0000;
    assert n / 0x4_0000 == q * 0x4_0000 + r / 0x4_0000;
  }

  lemma LowBits(n: nat)
    ensures n % 0x4_0000 % ENTRIES == n % ENTRIES
  {
  }

  lemma SecondIndex(n: nat)
    ensures n % VPNS / ENTRIES % ENTRIES == n / ENTRIES % ENTRIES
  {
    var q, r := n / VPNS, n % VPNS;
    var s, u := r / ENTRIES, r % ENTRIES;
    assert n == (q * 0x800_0000 + s) * ENTRIES + u;
    assert n / ENTRIES == q * 0x800_0000 + s;
    assert (q * 0x800_0000 + s) % ENTRIES == s % ENTRIES;
  }

  lemma FirstIndex(n: nat)
    ensures n % VPNS % ENTRIES == n % ENTRIES
  {
  }

  /** Two pages that share a last-level table and a slot are the same page. */
  lemma VpnDetermined(v: nat, w: nat)
    requires v < VPNS && w < VPNS && TablePath(v) == TablePath(w) && Slot(v) == Slot(w)
    ensures v == w
  {
    assert TablePath(v)[0] == TablePath(w)[0] && TablePath(v)[1] == TablePath(w)[1]
        && TablePath(v)[2] == TablePath(w)[2];
    FromIndices(v);
    FromIndices(w);
  }

  lemma FromIndices(v: nat)
    ensures v == v / 0x800_0000 * 0x800_0000 + v / 0x4_0000 % ENTRIES * 0x4_0000
          + v / ENTRIES % ENTRIES * ENTRIES + v % ENTRIES
  {
    assert v / ENTRIES / ENTRIES == v / 0x4_0000;
    assert v / 0x4_0000 / ENTRIES == v / 0x800_0000;
  }

  /** The address after the page at a, with 64-bit wrap-around. */
  function NextPage(a: nat): nat { (a + PAGE_SIZE) % ADDRESSES }

  lemma NextVpn(a: nat)
    requires a < ADDRESSES
    ensures NextPage(a) < ADDRESSES
    ensures Vpn(NextPage(a)) == (Vpn(a) + 1) % VPNS
    ensures FrameOf(NextPage(a)) == (FrameOf(a) + 1) % FRAMES
  {
    var n := a / PAGE_SIZE;
    NextQuotient(a);
    ModVpns(n + 1);
    ModFrames(n + 1);
    ModNext(n);
  }

  lemma NextQuotient(a: nat)
    requires a < ADDRESSES
    ensures NextPage(a) / PAGE_SIZE == (a / PAGE_SIZE + 1) % 0x10_0000_0000_0000
  {
  }

  lemma ModVpns(n: nat)
    ensures n % 0x10_0000_0000_0000 % VPNS == n % VPNS
  {
    var q, r := n / 0x10_0000_0000_0000, n % 0x10_0000_0000_0000;
    assert n == (q * 0x1_0000 + r / VPNS) * VPNS + r % VPNS;
  }

  lemma ModFrames(n: nat)
    ensures n % 0x10_0000_0000_0000 % FRAMES == n % FRAMES
  {
    var q, r := n / 0x10_0000_0000_0000, n % 0x10_0000_0000_0000;
    assert n == (q * 0x1000 + r / FRAMES) * FRAMES + r % FRAMES;
  }

  lemma ModNext(n: nat)
    ensures (n + 1) % VPNS == (n % VPNS + 1) % VPNS
    ensures (n + 1) % FRAMES == (n % FRAMES + 1) % FRAMES
  {
  }

  // ---------- Tables in memory ----------

  type Mem = map<nat, seq<Entry>>

  predicate IsPage(mem: Mem, f: nat) { f in mem && |mem[f]| == ENTRIES }

  predicate IsPath(p: seq<nat>) { |p| <= 3 && forall k :: 0 <= k < |p| ==> p[k] < ENTRIES }

  /** The frame of the table that the indices in p lead to, if every entry on the way is present. */
  function Walk(mem: Mem, root: nat, p: seq<nat>): Option<nat> {
    if p == [] then Some(root)
    else Follow(mem, Walk(mem, root, p[..|p|-1]), p[|p|-1])
  }

  function Follow(mem: Mem, t: Option<nat>, i: nat): Option<nat> {
    if t.Some? && t.value in mem && i < |mem[t.value]| && mem[t.value][i].Present()
    then Some(mem[t.value][i].frame) else None
  }

  lemma WalkThree(mem: Mem, root: nat, a: nat, b: nat, c: nat)
    ensures Walk(mem, root, [a, b, c]) == Follow(mem, Follow(mem, Follow(mem, Some(root), a), b), c)
  {
    assert [a, b, c][..2] == [a, b] && [a, b][..1] == [a] && [a][..0] == [];
    assert Walk(mem, root, [a]) == Follow(mem, Some(root), a);
    assert Walk(mem, root, [a, b]) == Follow(mem, Walk(mem, root, [a]), b);
  }

  lemma WalkRoot(mem: Mem, root: nat)
    ensures Walk(mem, root, []) == Some(root)
  {
  }

  ghost predicate IsTable(mem: Mem, root: nat, f: nat) {
    exists p :: IsPath(p) && Walk(mem, root, p) == Some(f)
  }

  /** Every table reached by the walk is a page. */
  ghost predicate TablesArePages(mem: Mem, root: nat) {
    forall p :: IsPath(p) && Walk(mem, root, p).Some? ==> IsPage(mem, Walk(mem, root, p).value)
  }

  /** No table is reached along two paths: tables are pairwise disjoint. */
  ghost predicate TablesDisjoint(mem: Mem, root: nat) {
    forall p, q ::
      IsPath(p) && IsPath(q) && Walk(mem, root, p).Some? && Walk(mem, root, p) == Walk(mem, root, q) ==> p == q
  }

  predicate CleanLeaves(page: seq<Entry>) {
    forall i :: 0 <= i < |page| ==> page[i].Present() || page[i] == ZERO
  }

  /** Entries above the leaves never take away a right, and the root never marks a table global. */
  predicate GrantsAll(page: seq<Entry>, isRoot: bool) {
    forall i :: 0 <= i < |page| && page[i].Present() ==>
      Has(page[i].flags, WRITE) && Has(page[i].flags, USER) && !(isRoot && Has(page[i].flags, GLOBAL))
  }

  ghost predicate ContentsOk(mem: Mem, root: nat) {
    forall p :: IsPath(p) && Walk(mem, root, p).Some? && Walk(mem, root, p).value in mem ==>
      if |p| == 3 then CleanLeaves(mem[Walk(mem, root, p).value]) else GrantsAll(mem[Walk(mem, root, p).value], p == [])
  }

  ghost predicate WellFormed(mem: Mem, root: nat) {
    TablesArePages(mem, root) && TablesDisjoint(mem, root) && ContentsOk(mem, root)
  }

  // ---------- The flat map ----------

  predicate Mapped(mem: Mem, root: nat, v: nat)
    requires v < VPNS
  {
    var t := Walk(mem, root, TablePath(v));
    t.Some? && IsPage(mem, t.value) && mem[t.value][Slot(v)].Present()
  }

  function Leaf(mem: Mem, root: nat, v: nat): Entry
    requires v < VPNS && Mapped(mem, root, v)
  {
    mem[Walk(mem, root, TablePath(v)).value][Slot(v)]
  }

  type FlatMap = map<nat, Entry>

  /** What the tree rooted at root stands for: a partial map from virtual page numbers to entries. */
  ghost function Flat(mem: Mem, root: nat): FlatMap {
    map v: nat | v < VPNS && Mapped(mem, root, v) :: Leaf(mem, root, v)
  }

  // ---------- Writing one entry ----------

  /** Storing into entry i of page t. */
  function Store(mem: Mem, t: nat, i: nat, e: Entry): Mem
    requires IsPage(mem, t) && i < ENTRIES
  {
    mem[t := mem[t][i := e]]
  }

  lemma WalkPrefix(mem: Mem, root: nat, q: seq<nat>, k: nat)
    requires k <= |q| && Walk(mem, root, q).Some?
    ensures Walk(mem, root, q[..k]).Some?
  {
    if k < |q| {
      assert q[..|q|-1][..k] == q[..k];
      WalkPrefix(mem, root, q[..|q|-1], k);
    } else {
      assert q[..k] == q;
    }
  }

  /** Writing a leaf entry moves no table. */
  lemma {:induction false} WalkAfterLeafStore(mem: Mem, root: nat, p: seq<nat>, i: nat, e: Entry, q: seq<nat>)
    requires TablesArePages(mem, root) && TablesDisjoint(mem, root)
    requires IsPath(p) && |p| == 3 && Walk(mem, root, p).Some? && i < ENTRIES && IsPath(q)
    ensures Walk(Store(mem, Walk(mem, root, p).value, i, e), root, q) == Walk(mem, root, q)
  {
    if q != [] {
      var prev := q[..|q|-1];
      WalkAfterLeafStore(mem, root, p, i, e, prev);
      assert |prev| < |p|;
      assert Walk(mem, root, prev) != Walk(mem, root, p);
    }
  }

  lemma OnePath(mem: Mem, root: nat, p: seq<nat>, q: seq<nat>)
    requires TablesDisjoint(mem, root) && IsPath(p) && IsPath(q) && Walk(mem, root, p).Some?
    requires Walk(mem, root, p) == Walk(mem, root, q)
    ensures p == q
  {
  }

  lemma WalkPage(mem: Mem, root: nat, p: seq<nat>)
    requires TablesArePages(mem, root) && IsPath(p) && Walk(mem, root, p).Some?
    ensures IsPage(mem, Walk(mem, root, p).value) && IsTable(mem, root, Walk(mem, root, p).value)
  {
  }

  lemma WalkSnoc(mem: Mem, root: nat, p: seq<nat>, i: nat)
    ensures Walk(mem, root, p + [i]) == Follow(mem, Walk(mem, root, p), i)
  {
    assert (p + [i])[..|p|] == p;
  }

  /** Hanging a fresh zeroed table under an absent entry adds exactly one table to the walk. */
  lemma {:induction false} WalkAfterGrow(mem: Mem, root: nat, p: seq<nat>, i: nat, c: Frame, flags: Flags, q: seq<nat>)
    requires TablesArePages(mem, root) && TablesDisjoint(mem, root)
    requires IsPath(p) && |p| < 3 && Walk(mem, root, p).Some? && i < ENTRIES && IsPath(q)
    requires IsPage(mem, Walk(mem, root, p).value) && !mem[Walk(mem, root, p).value][i].Present()
    requires !IsTable(mem, root, c) && Has(flags, PRESENT)
    ensures Walk(Grow(mem, Walk(mem, root, p).value, i, c, flags), root, q)
         == if q == p + [i] then Some(c) else Walk(mem, root, q)
  {
    hide TablesArePages, TablesDisjoint, IsTable, Grow, Walk;
    var t := Walk(mem, root, p).value;
    var mem' := Grow(mem, t, i, c, flags);
    WalkPage(mem, root, p);
    WalkRoot(mem, root);
    WalkRoot(mem', root);
    if q != [] {
      var prev, last := q[..|q|-1], q[|q|-1];
      assert q == prev + [last];
      WalkAfterGrow(mem, root, p, i, c, flags, prev);
      WalkSnoc(mem, root, prev, last);
      WalkSnoc(mem', root, prev, last);
      if prev == p + [i] {
        WalkSnoc(mem, root, p, i);
        FollowNew(mem, t, i, c, flags, last);
      } else if Walk(mem, root, prev).Some? {
        WalkPage(mem, root, prev);
        FollowOld(mem, t, i, c, flags, Walk(mem, root, prev).value, last);
        if Walk(mem, root, prev) == Some(t) { OnePath(mem, root, prev, p); }
      }
    }
  }

  lemma FollowNew(mem: Mem, t: nat, i: nat, c: Frame, flags: Flags, j: nat)
    requires IsPage(mem, t) && i < ENTRIES && t != c
    ensures Follow(Grow(mem, t, i, c, flags), Some(c), j) == None
  {
    var mem' := Grow(mem, t, i, c, flags);
    assert mem'[c] == ZeroPage();
    assert j < ENTRIES ==> mem'[c][j] == ZERO;
  }

  lemma FollowOld(mem: Mem, t: nat, i: nat, c: Frame, flags: Flags, u: nat, j: nat)
    requires IsPage(mem, t) && i < ENTRIES && u != c && Has(flags, PRESENT)
    ensures Follow(Grow(mem, t, i, c, flags), Some(u), j) == if u == t && j == i then Some(c)
      else Follow(mem, Some(u), j)
  {
  }

  function Grow(mem: Mem, t: nat, i: nat, c: Frame, flags: Flags): Mem
    requires IsPage(mem, t) && i < ENTRIES
  {
    mem[c := ZeroPage()][t := mem[t][i := Entry(c, flags)]]
  }

  // ---------- What one store does to the whole tree ----------

  ghost predicate SameWalks(mem: Mem, mem': Mem, root: nat) {
    forall p :: IsPath(p) ==> Walk(mem', root, p) == Walk(mem, root, p)
  }

  /** Writing a leaf entry keeps the tree well formed and is one update of the flat map. */
  lemma LeafStore(mem: Mem, root: nat, v: nat, e: Entry)
    requires WellFormed(mem, root) && v < VPNS && Walk(mem, root, TablePath(v)).Some?
    requires e.Present() || e == ZERO
    ensures var mem' := Store(mem, Walk(mem, root, TablePath(v)).value, Slot(v), e);
            && WellFormed(mem', root) && SameWalks(mem, mem', root)
            && Flat(mem', root) == (if e.Present() then Flat(mem, root)[v := e] else Flat(mem, root) - {v})
  {
    var mem' := Store(mem, Walk(mem, root, TablePath(v)).value, Slot(v), e);
    assert SameWalks(mem, mem', root) by {
      forall q | IsPath(q) ensures Walk(mem', root, q) == Walk(mem, root, q) {
        WalkAfterLeafStore(mem, root, TablePath(v), Slot(v), e, q);
      }
    }
    LeafStoreWellFormed(mem, mem', root, v, e);
    LeafStoreFlat(mem, mem', root, v, e);
  }

  lemma LeafStoreWellFormed(mem: Mem, mem': Mem, root: nat, v: nat, e: Entry)
    requires WellFormed(mem, root) && v < VPNS && Walk(mem, root, TablePath(v)).Some?
    requires e.Present() || e == ZERO
    requires mem' == Store(mem, Walk(mem, root, TablePath(v)).value, Slot(v), e) && SameWalks(mem, mem', root)
    ensures WellFormed(mem', root)
  {
    var t := Walk(mem, root, TablePath(v)).value;
    assert CleanLeaves(mem'[t]) by { assert CleanLeaves(mem[t]); }
    forall p | IsPath(p) && Walk(mem', root, p).Some?
      ensures var u := Walk(mem', root, p).value;
              IsPage(mem', u) && if |p| == 3 then CleanLeaves(mem'[u]) else GrantsAll(mem'[u], p == [])
    {
      var u := Walk(mem, root, p).value;
      assert u == t ==> p == TablePath(v);
    }
  }

  lemma LeafStoreFlat(mem: Mem, mem': Mem, root: nat, v: nat, e: Entry)
    requires TablesArePages(mem, root) && TablesDisjoint(mem, root) && v < VPNS && Walk(mem, root, TablePath(v)).Some?
    requires mem' == Store(mem, Walk(mem, root, TablePath(v)).value, Slot(v), e) && SameWalks(mem, mem', root)
    ensures Flat(mem', root) == (if e.Present() then Flat(mem, root)[v := e] else Flat(mem, root) - {v})
  {
    forall w: nat | w < VPNS && w != v ensures Same(mem, mem', root, w) {
      var t := Walk(mem, root, TablePath(v)).value;
      if Walk(mem, root, TablePath(w)) == Some(t) {
        assert TablePath(w) == TablePath(v);
        if Slot(w) == Slot(v) { VpnDetermined(v, w); }
      }
    }
    FlatChange(mem, mem', root, v);
  }

  /** Page w is mapped alike in both memories. */
  ghost predicate Same(mem: Mem, mem': Mem, root: nat, w: nat)
    requires w < VPNS
  {
    Mapped(mem', root, w) == Mapped(mem, root, w)
    && (Mapped(mem, root, w) ==> Leaf(mem', root, w) == Leaf(mem, root, w))
  }

  lemma FlatChange(mem: Mem, mem': Mem, root: nat, v: nat)
    requires v < VPNS && forall w: nat :: w < VPNS && w != v ==> Same(mem, mem', root, w)
    ensures Flat(mem', root) ==
      if Mapped(mem', root, v) then Flat(mem, root)[v := Leaf(mem', root, v)] else Flat(mem, root) - {v}
  {
    hide Mapped, Leaf;
    forall w: nat | w < VPNS && w != v
      ensures w in Flat(mem', root) <==> w in Flat(mem, root)
      ensures w in Flat(mem, root) ==> Flat(mem', root)[w] == Flat(mem, root)[w]
    {
      assert Same(mem, mem', root, w);
    }
  }

  lemma FlatSame(mem: Mem, mem': Mem, root: nat)
    requires forall w: nat :: w < VPNS ==> Same(mem, mem', root, w)
    ensures Flat(mem', root) == Flat(mem, root)
  {
    forall w: nat | w < VPNS
      ensures w in Flat(mem', root) <==> w in Flat(mem, root)
      ensures w in Flat(mem, root) ==> Flat(mem', root)[w] == Flat(mem, root)[w]
    {
      assert Same(mem, mem', root, w);
    }
  }

  /** The walks of mem' are those of mem and one more, to table c at path pc. */
  ghost predicate OneMoreWalk(mem: Mem, mem': Mem, root: nat, pc: seq<nat>, c: Frame) {
    forall q :: IsPath(q) ==> Walk(mem', root, q) == if q == pc then Some(c) else Walk(mem, root, q)
  }

  /** An entry that may stand above the leaves. */
  predicate UpperFlags(flags: Flags, isRoot: bool) {
    Has(flags, PRESENT) && Has(flags, WRITE) && Has(flags, USER) && !(isRoot && Has(flags, GLOBAL))
  }

  /** Hanging a fresh table keeps the tree well formed and maps nothing. */
  lemma TreeGrow(mem: Mem, root: nat, p: seq<nat>, i: nat, c: Frame, flags: Flags)
    requires WellFormed(mem, root) && IsPath(p) && |p| < 3 && Walk(mem, root, p).Some? && i < ENTRIES
    requires !mem[Walk(mem, root, p).value][i].Present() && !IsTable(mem, root, c) && UpperFlags(flags, p == [])
    ensures var mem' := Grow(mem, Walk(mem, root, p).value, i, c, flags);
            WellFormed(mem', root) && Flat(mem', root) == Flat(mem, root) && OneMoreWalk(mem, mem', root, p + [i], c)
  {
    var mem' := Grow(mem, Walk(mem, root, p).value, i, c, flags);
    assert OneMoreWalk(mem, mem', root, p + [i], c) by {
      forall q | IsPath(q) ensures Walk(mem', root, q) == if q == p + [i] then Some(c) else Walk(mem, root, q) {
        WalkAfterGrow(mem, root, p, i, c, flags, q);
      }
    }
    GrowWellFormed(mem, mem', root, p, i, c, flags);
    forall v: nat | v < VPNS ensures Same(mem, mem', root, v) {
      GrowMaps(mem, mem', root, p, i, c, flags, v);
    }
    FlatSame(mem, mem', root);
  }

  lemma GrowWellFormed(mem: Mem, mem': Mem, root: nat, p: seq<nat>, i: nat, c: Frame, flags: Flags)
    requires WellFormed(mem, root) && IsPath(p) && |p| < 3 && Walk(mem, root, p).Some? && i < ENTRIES
    requires !IsTable(mem, root, c) && UpperFlags(flags, p == [])
    requires mem' == Grow(mem, Walk(mem, root, p).value, i, c, flags) && OneMoreWalk(mem, mem', root, p + [i], c)
    ensures WellFormed(mem', root)
  {
    var t := Walk(mem, root, p).value;
    assert IsTable(mem, root, t);
    assert GrantsAll(mem'[t], p == []) by { assert GrantsAll(mem[t], p == []); }
    forall q | IsPath(q) && Walk(mem', root, q).Some?
      ensures var u := Walk(mem', root, q).value;
              IsPage(mem', u) && if |q| == 3 then CleanLeaves(mem'[u]) else GrantsAll(mem'[u], q == [])
    {
      if q != p + [i] {
        var u := Walk(mem, root, q).value;
        assert IsTable(mem, root, u);
        assert u == t ==> q == p;
      }
    }
    forall q, q' | IsPath(q) && IsPath(q') && Walk(mem', root, q).Some? && Walk(mem', root, q) == Walk(mem', root, q')
      ensures q == q' {
      assert q != p + [i] ==> IsTable(mem, root, Walk(mem', root, q).value);
      assert q' != p + [i] ==> IsTable(mem, root, Walk(mem', root, q').value);
    }
  }

  lemma GrowMaps(mem: Mem, mem': Mem, root: nat, p: seq<nat>, i: nat, c: Frame, flags: Flags, v: nat)
    requires TablesArePages(mem, root) && TablesDisjoint(mem, root) && IsPath(p) && |p| < 3 && Walk(mem, root, p).Some?
    requires i < ENTRIES
    requires !mem[Walk(mem, root, p).value][i].Present() && !IsTable(mem, root, c)
    requires mem' == Grow(mem, Walk(mem, root, p).value, i, c, flags) && OneMoreWalk(mem, mem', root, p + [i], c)
    requires v < VPNS
    ensures Same(mem, mem', root, v)
  {
    var q := TablePath(v);
    if q == p + [i] {
      assert (p + [i])[..|p + [i]|-1] == p;
      assert mem'[c] == ZeroPage();
    } else if Walk(mem, root, q).Some? {
      assert IsTable(mem, root, Walk(mem, root, q).value);
      assert q != p;
    }
  }

  /** A tree depends on nothing but its tables. */
  lemma {:induction false} WalkFrame(mem: Mem, mem': Mem, root: nat, q: seq<nat>)
    requires TablesArePages(mem, root) && IsPath(q)
    requires forall f :: IsTable(mem, root, f) ==> f in mem' && mem'[f] == mem[f]
    ensures Walk(mem', root, q) == Walk(mem, root, q)
  {
    if q != [] {
      WalkFrame(mem, mem', root, q[..|q|-1]);
      if Walk(mem, root, q[..|q|-1]).Some? {
        assert IsTable(mem, root, Walk(mem, root, q[..|q|-1]).value);
      }
    }
  }

  lemma TreeFrame(mem: Mem, mem': Mem, root: nat)
    requires WellFormed(mem, root)
    requires forall f :: IsTable(mem, root, f) ==> f in mem' && mem'[f] == mem[f]
    ensures WellFormed(mem', root) && Flat(mem', root) == Flat(mem, root) && SameWalks(mem, mem', root)
  {
    forall p | IsPath(p)
      ensures Walk(mem', root, p) == Walk(mem, root, p)
      ensures Walk(mem, root, p).Some? ==> var t := Walk(mem, root, p).value; t in mem' && t in mem && mem'[t] == mem[t]
    {
      WalkFrame(mem, mem', root, p);
      if Walk(mem, root, p).Some? { assert IsTable(mem, root, Walk(mem, root, p).value); }
    }
    forall v: nat | v < VPNS ensures Same(mem, mem', root, v) {
      hide WellFormed, TablesDisjoint;
    }
    FrameWellFormed(mem, mem', root);
    FlatSame(mem, mem', root);
  }

  lemma FrameWellFormed(mem: Mem, mem': Mem, root: nat)
    requires WellFormed(mem, root) && SameWalks(mem, mem', root)
    requires forall p :: IsPath(p) && Walk(mem, root, p).Some? ==> var t := Walk(mem, root, p).value;
      t in mem' && t in mem && mem'[t] == mem[t]
    ensures WellFormed(mem', root)
  {
    hide CleanLeaves, GrantsAll;
  }
}
