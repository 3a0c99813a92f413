/**
 The page-table operations over machine memory, as they walk and overwrite tables in place.
 Each is proved to be a range update of the flat map.
 */
module PageTable {
  import opened Options
  import opened Paging
  import opened FlatRanges

  /** The last-level tables of n pages from v are there. */
  ghost predicate HasTables(mem: Mem, root: nat, v: nat, n: nat) {
    forall k: nat :: k < n ==> Walk(mem, root, TablePath(After(v, k))).Some?
  }

  // ---------- Ownership ----------

  ghost predicate Owns(mem: Mem, root: nat, v: nat) {
    v in Flat(mem, root) && Flat(mem, root)[v].Owned()
  }

  /** Owned frames are pairwise distinct pages, never tables and never free. */
  ghost predicate OwnershipOk(mem: Mem, root: nat, free: set<nat>) {
    && (forall v :: Owns(mem, root, v) ==>
          var f := Flat(mem, root)[v].frame; IsPage(mem, f) && f !in free && !IsTable(mem, root, f))
    && (forall v, w :: Owns(mem, root, v) && Owns(mem, root, w) && v != w ==>
          Flat(mem, root)[v].frame != Flat(mem, root)[w].frame)
  }

  // ---------- A tree beside the allocator ----------

  ghost predicate FreePagesOk(mem: Mem, free: set<nat>) {
    forall f :: f in free ==> IsPage(mem, f) && f < FRAMES
  }

  /** The tree at root is well formed and none of its tables is free. */
  ghost predicate TreeOk(mem: Mem, free: set<nat>, root: nat) {
    FreePagesOk(mem, free) && WellFormed(mem, root) && forall f :: IsTable(mem, root, f) ==> f !in free
  }

  lemma TreeFewerFree(mem: Mem, free: set<nat>, free': set<nat>, root: nat)
    requires TreeOk(mem, free, root) && free' <= free
    ensures TreeOk(mem, free', root)
  {
  }

  lemma OwnershipFewerFree(mem: Mem, free: set<nat>, free': set<nat>, root: nat)
    requires OwnershipOk(mem, root, free) && free' <= free
    ensures OwnershipOk(mem, root, free')
  {
    hide Flat, IsTable;
  }

  // ---------- What an operation may change ----------

  /** The entry of the root that translation of page v starts with. */
  function TopIndex(v: nat): nat { v / 0x800_0000 }

  /** All n pages from v start with entries of the root below hi. */
  predicate RangeUnder(v: nat, n: nat, hi: nat) { forall k: nat :: k < n ==> TopIndex(After(v, k)) < hi }

  predicate Under(p: seq<nat>, hi: nat) { p == [] || p[0] < hi }

  /** A table reached through entries of the root below hi; the root is one. */
  ghost predicate TableUnder(mem: Mem, root: nat, hi: nat, f: nat) {
    exists p :: IsPath(p) && Under(p, hi) && Walk(mem, root, p) == Some(f)
  }

  /** A last-level table reached through entries of the root below hi. */
  ghost predicate LeafUnder(mem: Mem, root: nat, hi: nat, f: nat) {
    exists p :: IsPath(p) && |p| == 3 && p[0] < hi && Walk(mem, root, p) == Some(f)
  }

  predicate SameTops(m: Mem, m': Mem, root: nat, hi: nat) {
    IsPage(m, root) ==> IsPage(m', root) && forall i :: hi <= i < ENTRIES ==> m'[root][i] == m[root][i]
  }

  /** Of the root's entries only entry i may have changed, and only if it was not present. */
  predicate TopKept(m: Mem, m': Mem, root: nat, i: nat) {
    && IsPage(m, root) && IsPage(m', root)
    && forall j :: 0 <= j < ENTRIES && (j != i || m[root][j].Present()) ==> m'[root][j] == m[root][j]
  }

  /** One of the n pages from v starts with entry i of the root. */
  ghost predicate StartsWith(v: nat, n: nat, i: nat) { exists k: nat :: k < n && TopIndex(After(v, k)) == i }

  /** Of the root's entries only those may have changed that the n pages from v start with, and that were not present.
      */
  ghost predicate TopsKept(m: Mem, m': Mem, root: nat, v: nat, n: nat) {
    && IsPage(m, root) && IsPage(m', root)
    && forall j :: 0 <= j < ENTRIES && (!StartsWith(v, n, j) || m[root][j].Present()) ==> m'[root][j] == m[root][j]
  }

  lemma TopKeptTrans(a: Mem, b: Mem, c: Mem, root: nat, i: nat)
    requires TopKept(a, b, root, i) && TopKept(b, c, root, i)
    ensures TopKept(a, c, root, i)
  {
  }

  lemma TopsKeptRefl(m: Mem, free: set<nat>, root: nat, v: nat, n: nat)
    requires TreeOk(m, free, root)
    ensures TopsKept(m, m, root, v, n)
  {
    RootIsTable(m, free, root);
  }

  /** One more page of the range. */
  lemma TopsKeptNext(a: Mem, b: Mem, c: Mem, root: nat, v: nat, n: nat, k: nat)
    requires TopsKept(a, b, root, v, n) && k < n && TopKept(b, c, root, TopIndex(After(v, k)))
    ensures TopsKept(a, c, root, v, n)
  {
    assert StartsWith(v, n, TopIndex(After(v, k)));
  }

  /** Hanging a new table writes the root only in entry i, and only if the path starts there. */
  lemma GrowTop(mem: Mem, free: set<nat>, root: nat, p: seq<nat>, i: nat, c: Frame, flags: Flags, top: nat)
    requires TreeOk(mem, free, root) && IsPath(p) && Walk(mem, root, p).Some? && i < ENTRIES && c in free
    requires IsPage(mem, Walk(mem, root, p).value) && !mem[Walk(mem, root, p).value][i].Present()
    requires (p == [] ==> i == top)
    ensures TopKept(mem, Grow(mem, Walk(mem, root, p).value, i, c, flags), root, top)
  {
    RootIsTable(mem, free, root);
    WalkRoot(mem, root);
    if Walk(mem, root, p) == Some(root) { OnePathRoot(mem, root, p); }
  }

  lemma StoreTop(mem: Mem, free: set<nat>, root: nat, v: nat, e: Entry, top: nat)
    requires TreeOk(mem, free, root) && v < VPNS && Walk(mem, root, TablePath(v)).Some?
    requires IsPage(mem, Walk(mem, root, TablePath(v)).value)
    ensures TopKept(mem, Store(mem, Walk(mem, root, TablePath(v)).value, Slot(v), e), root, top)
  {
    RootIsTable(mem, free, root);
    if Walk(mem, root, TablePath(v)) == Some(root) { OnePathRoot(mem, root, TablePath(v)); }
  }

  /** From memory m to m', nothing changed but tables that the root at root reaches through entries below hi, and free
      pages taken for such tables. */
  ghost predicate OnlyTree(m: Mem, free: set<nat>, m': Mem, free': set<nat>, root: nat, hi: nat) {
    && free' <= free && SameTops(m, m', root, hi)
    && (forall f :: f in m && f !in free && !TableUnder(m, root, hi, f) ==> f in m' && m'[f] == m[f])
    && (forall f :: IsPage(m, f) ==> IsPage(m', f))
    && (forall f :: IsTable(m', root, f) ==> IsTable(m, root, f) || f in free)
    && (forall f :: TableUnder(m', root, hi, f) ==> TableUnder(m, root, hi, f) || f in free)
    && (forall f :: IsTable(m, root, f) ==> IsTable(m', root, f))
  }

  lemma OnlyTreeRefl(m: Mem, free: set<nat>, root: nat, hi: nat)
    ensures OnlyTree(m, free, m, free, root, hi)
  {
  }

  lemma OnlyTreeTrans(a: Mem, fa: set<nat>, b: Mem, fb: set<nat>, c: Mem, fc: set<nat>, root: nat, hi: nat)
    requires OnlyTree(a, fa, b, fb, root, hi) && OnlyTree(b, fb, c, fc, root, hi)
    ensures OnlyTree(a, fa, c, fc, root, hi)
  {
    hide IsTable, TableUnder;
  }

  /** More pages may have been free before, and fewer may be free afterwards. */
  lemma OnlyTreeFree(m: Mem, free: set<nat>, m': Mem, free': set<nat>, more: set<nat>, fewer: set<nat>, root: nat,
                     hi: nat)
    requires OnlyTree(m, free, m', free', root, hi) && free <= more && fewer <= free'
    ensures OnlyTree(m, more, m', fewer, root, hi)
  {
    hide IsTable, TableUnder;
  }

  /** Isolation: what is done to part of one tree leaves every tree without a table in that part as it was. */
  lemma OtherTreeUnchanged(m: Mem, free: set<nat>, m': Mem, free': set<nat>, root: nat, hi: nat, other: nat)
    requires OnlyTree(m, free, m', free', root, hi) && TreeOk(m, free, other)
    requires forall f :: IsTable(m, other, f) ==> !TableUnder(m, root, hi, f)
    ensures WellFormed(m', other) && Flat(m', other) == Flat(m, other) && SameWalks(m, m', other)
  {
    TreeIsPages(m, other);
    hide Walk, TableUnder;
    TreeFrame(m, m', other);
  }

  lemma GrowStep(mem: Mem, free: set<nat>, root: nat, hi: nat, p: seq<nat>, i: nat, c: Frame, flags: Flags)
    requires TreeOk(mem, free, root) && IsPath(p) && |p| < 3 && Walk(mem, root, p).Some? && i < ENTRIES
    requires Under(p + [i], hi)
    requires !mem[Walk(mem, root, p).value][i].Present() && UpperFlags(flags, p == []) && c in free
    ensures var m' := Grow(mem, Walk(mem, root, p).value, i, c, flags);
            && TreeOk(m', free - {c}, root) && OnlyTree(mem, free, m', free - {c}, root, hi)
            && Flat(m', root) == Flat(mem, root) && Walk(m', root, p + [i]) == Some(c)
  {
    var t := Walk(mem, root, p).value;
    assert IsTable(mem, root, t) && !IsTable(mem, root, c);
    assert TableUnder(mem, root, hi, t) by { assert p != [] ==> (p + [i])[0] == p[0]; }
    if t == root { OnePathRoot(mem, root, p); }
    TreeGrow(mem, root, p, i, c, flags);
    var m' := Grow(mem, t, i, c, flags);
    assert (p + [i])[..|p + [i]|-1] == p;
    GrowTables(mem, m', root, p + [i], c);
    GrowUnder(mem, m', root, p + [i], c, hi);
    GrowOnly(mem, free, root, hi, t, i, c, flags);
  }

  lemma OnePathRoot(mem: Mem, root: nat, p: seq<nat>)
    requires TablesDisjoint(mem, root) && IsPath(p) && Walk(mem, root, p) == Some(root)
    ensures p == []
  {
    WalkRoot(mem, root);
    OnePath(mem, root, p, []);
  }

  lemma GrowOnly(mem: Mem, free: set<nat>, root: nat, hi: nat, t: nat, i: nat, c: Frame, flags: Flags)
    requires TreeOk(mem, free, root) && IsTable(mem, root, t) && TableUnder(mem, root, hi, t) && IsPage(mem, t)
    requires i < ENTRIES && c in free && (t == root ==> i < hi)
    requires var m' := Grow(mem, t, i, c, flags);
             WellFormed(m', root) && forall f :: IsTable(m', root, f) <==> IsTable(mem, root, f) || f == c
    requires forall f :: TableUnder(Grow(mem, t, i, c, flags), root, hi, f) ==> TableUnder(mem, root, hi, f) || f == c
    ensures var m' := Grow(mem, t, i, c, flags);
      TreeOk(m', free - {c}, root) && OnlyTree(mem, free, m', free - {c}, root, hi)
  {
    RootIsTable(mem, free, root);
    hide IsTable, WellFormed, TableUnder;
  }

  lemma RootIsTable(mem: Mem, free: set<nat>, root: nat)
    requires TreeOk(mem, free, root)
    ensures IsPage(mem, root) && root !in free && IsTable(mem, root, root)
  {
    WalkRoot(mem, root);
    assert IsTable(mem, root, root);
  }

  /** A zeroed page is the root of a tree that maps nothing. */
  lemma ZeroTree(mem: Mem, free: set<nat>, root: nat)
    requires FreePagesOk(mem, free) && root in mem && mem[root] == ZeroPage() && root !in free
    ensures TreeOk(mem, free, root) && Flat(mem, root) == map[] && OwnershipOk(mem, root, free)
  {
    forall q | IsPath(q) ensures Walk(mem, root, q) == if q == [] then Some(root) else None { ZeroWalk(mem, root, q); }
  }

  lemma {:induction false} ZeroWalk(mem: Mem, root: nat, q: seq<nat>)
    requires root in mem && mem[root] == ZeroPage()
    ensures Walk(mem, root, q) == if q == [] then Some(root) else None
  {
    if q != [] { ZeroWalk(mem, root, q[..|q|-1]); }
  }

  lemma GrowUnder(mem: Mem, m': Mem, root: nat, pc: seq<nat>, c: Frame, hi: nat)
    requires OneMoreWalk(mem, m', root, pc, c)
    ensures forall f :: TableUnder(m', root, hi, f) ==> TableUnder(mem, root, hi, f) || f == c
  {
  }

  lemma GrowTables(mem: Mem, m': Mem, root: nat, pc: seq<nat>, c: Frame)
    requires OneMoreWalk(mem, m', root, pc, c) && IsPath(pc) && Walk(mem, root, pc) == None
    ensures forall f :: IsTable(m', root, f) <==> IsTable(mem, root, f) || f == c
  {
    forall f: nat | IsTable(mem, root, f) ensures IsTable(m', root, f) {
      var q :| IsPath(q) && Walk(mem, root, q) == Some(f);
      assert Walk(m', root, q) == Some(f);
    }
    assert Walk(m', root, pc) == Some(c);
  }

  lemma LeafStep(mem: Mem, free: set<nat>, root: nat, hi: nat, v: nat, e: Entry)
    requires TreeOk(mem, free, root) && v < VPNS && Walk(mem, root, TablePath(v)).Some? && (e.Present() || e == ZERO)
    requires TopIndex(v) < hi
    ensures var m' := Store(mem, Walk(mem, root, TablePath(v)).value, Slot(v), e);
            && TreeOk(m', free, root) && OnlyTree(mem, free, m', free, root, hi) && SameWalks(mem, m', root)
            && Flat(m', root) == (if e.Present() then Flat(mem, root)[v := e] else Flat(mem, root) - {v})
  {
    var t := Walk(mem, root, TablePath(v)).value;
    LeafStore(mem, root, v, e);
    TableStep(mem, free, root, hi, TablePath(v), mem[t][Slot(v) := e]);
  }

  /** Rewriting one last-level table so that no walk changes. */
  lemma TableStep(mem: Mem, free: set<nat>, root: nat, hi: nat, p: seq<nat>, page: seq<Entry>)
    requires TreeOk(mem, free, root) && IsPath(p) && |p| == 3 && p[0] < hi && Walk(mem, root, p).Some?
    requires |page| == ENTRIES
    requires var m' := mem[Walk(mem, root, p).value := page]; WellFormed(m', root) && SameWalks(mem, m', root)
    ensures var m' := mem[Walk(mem, root, p).value := page];
            TreeOk(m', free, root) && OnlyTree(mem, free, m', free, root, hi)
  {
    var t := Walk(mem, root, p).value;
    assert IsTable(mem, root, t) && TableUnder(mem, root, hi, t);
    assert t != root by { if t == root { OnePathRoot(mem, root, p); } }
    SameTables(mem, mem[t := page], root);
    SameUnder(mem, mem[t := page], root, hi);
    hide Walk, IsTable, TableUnder;
  }

  lemma SameUnder(mem: Mem, m': Mem, root: nat, hi: nat)
    requires SameWalks(mem, m', root)
    ensures forall f :: TableUnder(m', root, hi, f) ==> TableUnder(mem, root, hi, f)
    ensures forall f :: LeafUnder(m', root, hi, f) ==> LeafUnder(mem, root, hi, f)
  {
  }

  lemma SameTables(mem: Mem, m': Mem, root: nat)
    requires SameWalks(mem, m', root)
    ensures forall f :: IsTable(m', root, f) <==> IsTable(mem, root, f)
  {
    forall f: nat | IsTable(mem, root, f) ensures IsTable(m', root, f) {
      var q :| IsPath(q) && Walk(mem, root, q) == Some(f);
      assert Walk(m', root, q) == Some(f);
    }
  }

  /** The flags of a new entry above the leaves: writable and reachable from user mode, in the root not global. */
  function UpperEntryFlags(flags: Flags, isRoot: bool): Flags {
    if isRoot then (flags | WRITE | USER) & !GLOBAL else flags | WRITE | USER
  }

  lemma UpperFlagsOk(flags: Flags, isRoot: bool)
    ensures UpperFlags(UpperEntryFlags(flags, isRoot) | PRESENT, isRoot)
  {
  }

  /** From memory m to m', nothing changed but entries of last-level tables that the root at root reaches through
      entries below hi, and pages that are now free. */
  ghost predicate OnlyLeaves(m: Mem, m': Mem, free': set<nat>, root: nat, hi: nat) {
    && SameWalks(m, m', root)
    && (forall f :: f in m && f !in free' && !LeafUnder(m, root, hi, f) ==> f in m' && m'[f] == m[f])
    && (forall f :: IsPage(m, f) ==> IsPage(m', f))
  }

  lemma OnlyLeavesRefl(m: Mem, free: set<nat>, root: nat, hi: nat)
    ensures OnlyLeaves(m, m, free, root, hi)
  {
  }

  lemma OnlyLeavesTrans(a: Mem, b: Mem, fb: set<nat>, c: Mem, fc: set<nat>, root: nat, hi: nat)
    requires OnlyLeaves(a, b, fb, root, hi) && OnlyLeaves(b, c, fc, root, hi) && fb <= fc
    ensures OnlyLeaves(a, c, fc, root, hi)
  {
    SameUnder(a, b, root, hi);
    hide LeafUnder;
  }

  lemma LeavesKeepTables(m: Mem, m': Mem, free': set<nat>, root: nat, hi: nat, v: nat, n: nat)
    requires HasTables(m, root, v, n) && OnlyLeaves(m, m', free', root, hi)
    ensures HasTables(m', root, v, n)
  {
  }

  /** Giving back a page that is no table leaves the tree alone. */
  lemma FreeStep(mem: Mem, free: set<nat>, root: nat, mem': Mem, free': set<nat>, f: nat)
    requires TreeOk(mem, free, root) && !IsTable(mem, root, f) && free <= free' <= free + {f}
    requires FreePagesOk(mem', free') && mem'.Keys == mem.Keys
    requires forall t :: t in mem ==> (t !in free' ==> mem'[t] == mem[t])
    ensures TreeOk(mem', free', root) && Flat(mem', root) == Flat(mem, root) && SameWalks(mem, mem', root)
  {
    TreeIsPages(mem, root);
    TreeFrame(mem, mem', root);
    SameTables(mem, mem', root);
  }

  lemma TreeIsPages(mem: Mem, root: nat)
    requires TablesArePages(mem, root)
    ensures forall f :: IsTable(mem, root, f) ==> IsPage(mem, f)
  {
  }

  /** Clearing the leaf of v after its owned frame, if any, was given back. */
  lemma UnmapStep(mem: Mem, free: set<nat>, root: nat, mem': Mem, free': set<nat>, v: nat)
    requires TreeOk(mem, free, root) && OwnershipOk(mem, root, free) && v < VPNS && Walk(mem, root, TablePath(v)).Some?
    requires TreeOk(mem', free', root) && Flat(mem', root) == Flat(mem, root) && SameWalks(mem, mem', root)
    requires forall f :: IsPage(mem, f) ==> IsPage(mem', f)
    requires free' <= free + if Owns(mem, root, v) then {Flat(mem, root)[v].frame} else {}
    ensures var m' := Store(mem', Walk(mem, root, TablePath(v)).value, Slot(v), ZERO);
            TreeOk(m', free', root) && OwnershipOk(m', root, free') && SameWalks(mem, m', root)
            && Flat(m', root) == Flat(mem, root) - {v}
  {
    LeafStep(mem', free', root, ENTRIES, v, ZERO);
    var m' := Store(mem', Walk(mem, root, TablePath(v)).value, Slot(v), ZERO);
    SameTables(mem, m', root);
    ClearedOwnership(mem, free, root, m', free', v);
  }

  lemma ClearedOwnership(mem: Mem, free: set<nat>, root: nat, m': Mem, free': set<nat>, v: nat)
    requires OwnershipOk(mem, root, free) && Flat(m', root) == Flat(mem, root) - {v}
    requires forall f :: IsTable(m', root, f) <==> IsTable(mem, root, f)
    requires forall f :: IsPage(mem, f) ==> IsPage(m', f)
    requires free' <= free + if Owns(mem, root, v) then {Flat(mem, root)[v].frame} else {}
    ensures OwnershipOk(m', root, free')
  {
    hide IsTable, Flat;
    assert forall w :: Owns(m', root, w) ==> Owns(mem, root, w) && w != v;
  }

  /** New flags without the ownership bit leave ownership alone. */
  lemma ReflaggedOwnership(mem: Mem, free: set<nat>, root: nat, m': Mem, v: nat, flags: Flags)
    requires OwnershipOk(mem, root, free) && !Has(flags, OWNED)
    requires Flat(m', root) == Flat(mem, root)[v := Reflag(Lookup(Flat(mem, root), v), flags)]
    requires forall f :: IsTable(m', root, f) <==> IsTable(mem, root, f)
    requires forall f :: IsPage(mem, f) ==> IsPage(m', f)
    ensures OwnershipOk(m', root, free)
  {
    hide IsTable, Flat;
    ReflagOwned(Lookup(Flat(mem, root), v), flags);
    assert forall w :: Owns(m', root, w) ==> Owns(mem, root, w) && Flat(m', root)[w].frame == Flat(mem, root)[w].frame;
  }

  lemma ReflagStep(mem: Mem, free: set<nat>, root: nat, hi: nat, v: nat, flags: Flags)
    requires TreeOk(mem, free, root) && v < VPNS && Walk(mem, root, TablePath(v)).Some? && TopIndex(v) < hi
    ensures var t := Walk(mem, root, TablePath(v)).value;
            var m' := Store(mem, t, Slot(v), Reflag(mem[t][Slot(v)], flags));
            && TreeOk(m', free, root) && OnlyLeaves(mem, m', free, root, hi)
            && Flat(m', root) == Flat(mem, root)[v := Reflag(Lookup(Flat(mem, root), v), flags)]
            && (OwnershipOk(mem, root, free) && !Has(flags, OWNED) ==> OwnershipOk(m', root, free))
  {
    hide WellFormed, Flat, TablePath, Slot, OwnershipOk, IsTable, SameWalks, Has, Reflag;
    var t := Walk(mem, root, TablePath(v)).value;
    LeafPage(mem, root, v);
    EntryIsLookup(mem, root, v);
    ReflagOwned(mem[t][Slot(v)], flags);
    LeafStep(mem, free, root, ENTRIES, v, Reflag(mem[t][Slot(v)], flags));
    LeafIsTable(mem, root, hi, v);
    var m' := Store(mem, t, Slot(v), Reflag(mem[t][Slot(v)], flags));
    SameTables(mem, m', root);
    if OwnershipOk(mem, root, free) && !Has(flags, OWNED) {
      ReflaggedOwnership(mem, free, root, m', v, flags);
    }
  }

  lemma ReflagOwned(e: Entry, flags: Flags)
    ensures Reflag(e, flags).Present()
    ensures Reflag(e, flags).Owned() <==> e.Owned() || Has(flags, OWNED)
  {
  }

  /** The word in the leaf slot of v is what the flat map says, zero standing for unmapped. */
  lemma EntryIsLookup(mem: Mem, root: nat, v: nat)
    requires WellFormed(mem, root) && v < VPNS && Walk(mem, root, TablePath(v)).Some?
    ensures mem[Walk(mem, root, TablePath(v)).value][Slot(v)] == Lookup(Flat(mem, root), v)
  {
    assert CleanLeaves(mem[Walk(mem, root, TablePath(v)).value]);
  }

  lemma OwnedFrame(mem: Mem, free: set<nat>, root: nat, v: nat)
    requires OwnershipOk(mem, root, free)
    ensures Owns(mem, root, v) ==>
      var f := Flat(mem, root)[v].frame; IsPage(mem, f) && f !in free && !IsTable(mem, root, f)
    ensures Owns(mem, root, v) <==> Lookup(Flat(mem, root), v).Owned()
  {
    hide Flat, IsTable;
  }

  lemma OneOwned(flat: FlatMap, v: nat)
    ensures OwnedInRange(flat, v, 1) == if v in flat && flat[v].Owned() then [flat[v].frame] else []
  {
    assert OwnedInRange(flat - {v}, Later(v), 0) == [];
  }

  lemma UnmapFirst(flat: FlatMap, v: nat, n: nat)
    requires n > 0
    ensures UnmapRange(flat, v, n) == UnmapRange(flat - {v}, Later(v), n - 1)
    ensures OwnedInRange(flat, v, n) == OwnedInRange(flat, v, 1) + OwnedInRange(flat - {v}, Later(v), n - 1)
  {
    OneOwned(flat, v);
  }

  lemma UnmapNone(flat: FlatMap, v: nat)
    ensures UnmapRange(flat, v, 0) == flat && OwnedInRange(flat, v, 0) == []
  {
  }

  lemma NextIsLater(a: nat)
    requires a < ADDRESSES
    ensures NextPage(a) < ADDRESSES && Vpn(NextPage(a)) == Later(Vpn(a))
  {
    NextVpn(a);
  }

  lemma TopInRange(v: nat, n: nat, hi: nat, k: nat)
    requires RangeUnder(v, n, hi) && k < n
    ensures TopIndex(After(v, k)) < hi
  {
  }

  /** Mapping a range begins with its first page. */
  lemma MapRangeFirst(flat: FlatMap, v: nat, p: nat, n: nat, flags: Flags)
    requires v < ADDRESSES && p < ADDRESSES && n > 0
    ensures MapRange(flat, Vpn(v), FrameOf(p), n, flags)
         == MapRange(flat[Vpn(v) := EntryCreate(p, flags)], Vpn(NextPage(v)), FrameOf(NextPage(p)), n - 1, flags)
  {
    NextVpn(v);
    NextVpn(p);
  }

  lemma MapRangeNone(flat: FlatMap, v: nat, f: Frame, flags: Flags)
    ensures MapRange(flat, v, f, 0, flags) == flat
  {
  }

  lemma TablesAt(mem: Mem, root: nat, v: nat, n: nat, k: nat)
    requires HasTables(mem, root, v, n) && k < n
    ensures Walk(mem, root, TablePath(After(v, k))).Some?
  {
  }

  lemma LeafPage(mem: Mem, root: nat, v: nat)
    requires WellFormed(mem, root) && v < VPNS && Walk(mem, root, TablePath(v)).Some?
    ensures IsPage(mem, Walk(mem, root, TablePath(v)).value) && Slot(v) < ENTRIES
  {
  }

  lemma LeafIsTable(mem: Mem, root: nat, hi: nat, v: nat)
    requires v < VPNS && Walk(mem, root, TablePath(v)).Some? && TopIndex(v) < hi
    ensures LeafUnder(mem, root, hi, Walk(mem, root, TablePath(v)).value)
  {
  }

  lemma PresentAfterOr(flags: Flags)
    ensures Has(flags | PRESENT, PRESENT)
  {
  }

  // ---------- The machine ----------

  /** Frames below this one belong to the bitmap allocator, which pmm_alloc does not draw from. */
  const FIRST_STACK_FRAME: nat := 0x100

  /** Physical memory and the allocator's view of it. */
  class Machine {
    var mem: Mem
    /** The pages that pmm_alloc can still hand out. */
    var free: set<nat>
    /** Every page given to pmm_free, in order. */
    ghost var freed: seq<nat>

    ghost predicate Valid()
      reads this
    {
      FreePagesOk(mem, free)
    }

    ghost predicate Tree(root: nat)
      reads this
    {
      TreeOk(mem, free, root)
    }

    /** A free page with arbitrary contents; None, with no page left, is the end of the run.  The allocator may lose
        further pages on the way. */
    method PmmAlloc() returns (r: Option<nat>)
      modifies this`free
      ensures r.None? <==> old(free) == {}
      ensures r.None? ==> free == old(free)
      ensures r.Some? ==> r.value in old(free) && free <= old(free) - {r.value}
    {
      if free == {} { return None; }
      var f :| f in free;
      var rest: set<nat> :| rest <= free - {f};
      free := rest;
      return Some(f);
    }

    /** Gives a page back.  Free pages hold the allocator's own lists, so freeing may rewrite any of them. */
    method PmmFree(f: nat)
      requires Valid() && IsPage(mem, f) && f < FRAMES && f !in free
      modifies this
      ensures Valid() && freed == old(freed) + [f]
      ensures free == if f < FIRST_STACK_FRAME then old(free) else old(free) + {f}
      ensures mem.Keys == old(mem.Keys)
      ensures forall t :: t in mem ==> (t !in free ==> mem[t] == old(mem[t])) && |mem[t]| == |old(mem[t])|
    {
      freed := freed + [f];
      if f >= FIRST_STACK_FRAME {
        free := free + {f};
        ghost var before := mem;
        var after: Mem :| after.Keys == mem.Keys &&
          forall t :: t in mem ==> (t !in free ==> after[t] == mem[t]) && |after[t]| == |mem[t]|;
        mem := after;
      }
    }

    /** pml_new: a root that maps nothing. */
    method PmlNew() returns (r: Option<nat>)
      requires Valid()
      modifies this`mem, this`free
      ensures r.None? <==> old(free) == {}
      ensures r.None? ==> unchanged(this)
      ensures r.Some? ==>
        && r.value in old(free) && free <= old(free) - {r.value} && mem == old(mem)[r.value := ZeroPage()]
        && Tree(r.value) && OwnershipOk(mem, r.value, free) && Flat(mem, r.value) == map[]
    {
      r := PmmAlloc();
      if r.None? { return; }
      mem := mem[r.value := ZeroPage()];
      ZeroTree(mem, free, r.value);
    }

    /** The table under entry index of table, taken from the allocator if there is none. */
    method GetOrAllocate(ghost root: nat, ghost hi: nat, ghost top: nat, ghost p: seq<nat>,
                         table: nat, index: nat, flags: Flags)
      returns (r: Option<nat>)
      requires Tree(root) && IsPath(p) && |p| < 3 && Walk(mem, root, p) == Some(table) && index < ENTRIES
      requires UpperFlags(flags | PRESENT, p == []) && Under(p + [index], hi) && (p == [] ==> index == top)
      modifies this`mem, this`free
      ensures TopKept(old(mem), mem, root, top)
      ensures Tree(root) && OnlyTree(old(mem), old(free), mem, free, root, hi)
      ensures Flat(mem, root) == old(Flat(mem, root))
      ensures r.None? ==> free == {}
      ensures r.Some? ==> Walk(mem, root, p + [index]) == r
    {
      assert (p + [index])[..|p + [index]|-1] == p;
      var entry := mem[table][index];
      OnlyTreeRefl(mem, free, root, hi);
      RootIsTable(mem, free, root);
      if entry.Present() {
        return Some(entry.frame);
      }
      r := PmmAlloc();
      if r.None? { return; }
      var c := r.value;
      GrowStep(mem, old(free), root, hi, p, index, c, flags | PRESENT);
      GrowTop(mem, old(free), root, p, index, c, flags | PRESENT, top);
      CreateAtFrame(c, flags);
      assert c != table by { assert IsTable(mem, root, table); }
      mem := mem[c := ZeroPage()];
      mem := mem[table := mem[table][index := EntryCreate(c * PAGE_SIZE, flags)]];
      assert mem == Grow(old(mem), table, index, c, flags | PRESENT);
      TreeFewerFree(mem, old(free) - {c}, free, root);
      OnlyTreeFree(old(mem), old(free), mem, old(free) - {c}, old(free), free, root, hi);
    }

    /** The first d indices of page v. */
    ghost function PathTo(v: nat, d: nat): seq<nat>
      requires v < VPNS && d <= 3
    {
      TablePath(v)[..d]
    }

    /** One level further down on the way to the last-level table of page v, since memory m0 and free pages f0. */
    method Step(ghost m0: Mem, ghost f0: set<nat>, ghost root: nat, ghost hi: nat, ghost v: nat,
                d: nat, table: nat, index: nat, flags: Flags)
      returns (r: Option<nat>)
      requires Tree(root) && OnlyTree(m0, f0, mem, free, root, hi) && Flat(mem, root) == Flat(m0, root)
      requires v < VPNS && d < 3 && Walk(mem, root, PathTo(v, d)) == Some(table) && index == TablePath(v)[d]
      requires TopIndex(v) < hi && TopKept(m0, mem, root, TopIndex(v))
      modifies this`mem, this`free
      ensures Tree(root) && OnlyTree(m0, f0, mem, free, root, hi) && Flat(mem, root) == Flat(m0, root)
      ensures TopKept(m0, mem, root, TopIndex(v))
      ensures if r.Some? then Walk(mem, root, PathTo(v, d + 1)) == r else free == {}
    {
      hide OnlyTree, TreeOk, UpperFlags, UpperEntryFlags, Flat, Walk, TopKept;
      UpperFlagsOk(flags, d == 0);
      assert TablePath(v)[..d] + [index] == TablePath(v)[..d + 1];
      r := GetOrAllocate(root, hi, TopIndex(v), TablePath(v)[..d], table, index, UpperEntryFlags(flags, d == 0));
      OnlyTreeTrans(m0, f0, old(mem), old(free), mem, free, root, hi);
      TopKeptTrans(m0, old(mem), mem, root, TopIndex(v));
    }

    /** What the walk down to the last-level table starts with. */
    lemma WalkStart(m: Mem, root: nat, virtAddr: nat)
      requires IsPage(m, root)
      ensures var p := TablePath(Vpn(virtAddr));
              && |p| == 3 && p[0] == Index(virtAddr, 4) && p[1] == Index(virtAddr, 3) && p[2] == Index(virtAddr, 2)
              && PathTo(Vpn(virtAddr), 3) == p && Walk(m, root, PathTo(Vpn(virtAddr), 0)) == Some(root)
      ensures TopKept(m, m, root, TopIndex(Vpn(virtAddr)))
    {
      IndicesOfVpn(virtAddr);
      WalkRoot(m, root);
      assert TablePath(Vpn(virtAddr))[..0] == [];
    }

    /** The last-level table of an address, with the levels above it found or made. */
    method Descend(root: nat, ghost hi: nat, virtAddr: nat, flags: Flags) returns (r: Option<nat>)
      requires Tree(root) && TopIndex(Vpn(virtAddr)) < hi
      modifies this`mem, this`free
      ensures Tree(root) && OnlyTree(old(mem), old(free), mem, free, root, hi)
      ensures Flat(mem, root) == old(Flat(mem, root)) && TopKept(old(mem), mem, root, TopIndex(Vpn(virtAddr)))
      ensures if r.Some? then Walk(mem, root, TablePath(Vpn(virtAddr))) == r else free == {}
    {
      RootIsTable(mem, free, root);
      WalkStart(mem, root, virtAddr);
      hide OnlyTree, TreeOk, Flat, Index, Vpn, TablePath, PathTo, Walk, TopKept, TopIndex;
      ghost var v := Vpn(virtAddr);
      OnlyTreeRefl(mem, free, root, hi);
      r := Step(old(mem), old(free), root, hi, v, 0, root, Index(virtAddr, 4), flags);
      if r.None? { return; }
      r := Step(old(mem), old(free), root, hi, v, 1, r.value, Index(virtAddr, 3), flags);
      if r.None? { return; }
      r := Step(old(mem), old(free), root, hi, v, 2, r.value, Index(virtAddr, 2), flags);
    }

    /** One turn of the mapping loop: the levels found or made, then the leaf written. */
    method MapPage(root: nat, ghost hi: nat, virtAddr: nat, physAddr: nat, flags: Flags) returns (ok: bool)
      requires Tree(root) && TopIndex(Vpn(virtAddr)) < hi
      modifies this`mem, this`free
      ensures Tree(root) && OnlyTree(old(mem), old(free), mem, free, root, hi)
      ensures if ok then Flat(mem, root) == old(Flat(mem, root))[Vpn(virtAddr) := EntryCreate(physAddr, flags)]
        else free == {}
      ensures TopKept(old(mem), mem, root, TopIndex(Vpn(virtAddr)))
    {
      var level1 := Descend(root, hi, virtAddr, flags);
      if level1.None? { return false; }
      IndicesOfVpn(virtAddr);
      PresentAfterOr(flags);
      var entry := EntryCreate(physAddr, flags);
      LeafStep(mem, free, root, hi, Vpn(virtAddr), entry);
      StoreTop(mem, free, root, Vpn(virtAddr), entry, TopIndex(Vpn(virtAddr)));
      ghost var mem1 := mem;
      mem := Store(mem, level1.value, Index(virtAddr, 1), entry);
      OnlyTreeTrans(old(mem), old(free), mem1, free, mem, free, root, hi);
      TopKeptTrans(old(mem), mem1, mem, root, TopIndex(Vpn(virtAddr)));
      return true;
    }

    /** The same for the k-th of the n pages from v0, since memory m0 and free pages f0. */
    method MapTurn(ghost m0: Mem, ghost f0: set<nat>, ghost v0: nat, ghost n: nat, ghost k: nat,
                   root: nat, ghost hi: nat, virtAddr: nat, physAddr: nat, flags: Flags)
      returns (ok: bool)
      requires Tree(root) && OnlyTree(m0, f0, mem, free, root, hi) && TopsKept(m0, mem, root, v0, n)
      requires RangeUnder(v0, n, hi) && k < n && Vpn(virtAddr) == After(v0, k)
      modifies this`mem, this`free
      ensures Tree(root) && OnlyTree(m0, f0, mem, free, root, hi) && TopsKept(m0, mem, root, v0, n)
      ensures if ok then Flat(mem, root) == old(Flat(mem, root))[Vpn(virtAddr) := EntryCreate(physAddr, flags)]
        else free == {}
    {
      hide OnlyTree, TreeOk, Flat, TopIndex, Vpn, TopKept, TopsKept, After, RangeUnder, EntryCreate;
      TopInRange(v0, n, hi, k);
      ok := MapPage(root, hi, virtAddr, physAddr, flags);
      TopsKeptNext(m0, old(mem), mem, root, v0, n, k);
      OnlyTreeTrans(m0, f0, old(mem), old(free), mem, free, root, hi);
    }

    /** pml_map: a range update of the flat map; false is the panic "no more memory". */
    method Map(root: nat, ghost hi: nat, virtAddr: nat, physAddr: nat, pageAmount: nat, flags: Flags) returns (ok: bool)
      requires Tree(root) && virtAddr < ADDRESSES && physAddr < ADDRESSES && RangeUnder(Vpn(virtAddr), pageAmount, hi)
      modifies this`mem, this`free
      ensures Tree(root) && OnlyTree(old(mem), old(free), mem, free, root, hi)
      ensures TopsKept(old(mem), mem, root, Vpn(virtAddr), pageAmount)
      ensures !ok ==> free == {}
      ensures ok ==>
        Flat(mem, root) == MapRange(old(Flat(mem, root)), Vpn(virtAddr), FrameOf(physAddr), pageAmount, flags)
    {
      TopsKeptRefl(mem, free, root, Vpn(virtAddr), pageAmount);
      hide OnlyTree, TreeOk, Flat, TopIndex, Vpn, TopKept, TopsKept, FrameOf, NextPage;
      hide MapRange, After, AfterFrame, Later, RangeUnder, EntryCreate, WellFormed, IsTable, IsPage, Walk;
      AfterZero(Vpn(virtAddr), 0);
      var v: nat, p: nat := virtAddr, physAddr;
      OnlyTreeRefl(mem, free, root, hi);
      for i := 0 to pageAmount
        invariant Tree(root) && v < ADDRESSES && p < ADDRESSES && Vpn(v) == After(Vpn(virtAddr), i)
        invariant OnlyTree(old(mem), old(free), mem, free, root, hi)
        invariant TopsKept(old(mem), mem, root, Vpn(virtAddr), pageAmount)
        invariant MapRange(Flat(mem, root), Vpn(v), FrameOf(p), pageAmount - i, flags)
               == MapRange(old(Flat(mem, root)), Vpn(virtAddr), FrameOf(physAddr), pageAmount, flags)
      {
        MapRangeFirst(Flat(mem, root), v, p, pageAmount - i, flags);
        ok := MapTurn(old(mem), old(free), Vpn(virtAddr), pageAmount, i, root, hi, v, p, flags);
        if !ok { return; }
        NextIsLater(v);
        NextIsLater(p);
        AfterNext(Vpn(virtAddr), i);
        v, p := NextPage(v), NextPage(p);
      }
      MapRangeNone(Flat(mem, root), Vpn(v), FrameOf(p), flags);
      return true;
    }

    /** pml_mapped: every page of the range is in the flat map. */
    method IsMapped(root: nat, virtAddr: nat, pageAmount: nat) returns (b: bool)
      requires Tree(root) && virtAddr < ADDRESSES
      ensures b <==> AllMapped(Flat(mem, root), Vpn(virtAddr), pageAmount)
    {
      hide TreeOk, WellFormed, Flat, Vpn, NextPage;
      var a: nat := virtAddr;
      for i := 0 to pageAmount
        invariant a < ADDRESSES && Vpn(a) == After(Vpn(virtAddr), i)
        invariant AllMapped(Flat(mem, root), Vpn(virtAddr), i)
      {
        b := IsMappedPage(root, a);
        if !b { return; }
        NextVpn(a);
        AfterNext(Vpn(virtAddr), i);
        a := NextPage(a);
      }
      return true;
    }

    method IsMappedPage(root: nat, a: nat) returns (b: bool)
      requires Tree(root) && a < ADDRESSES
      ensures b <==> Vpn(a) in Flat(mem, root)
    {
      IndicesOfVpn(a);
      WalkThree(mem, root, Index(a, 4), Index(a, 3), Index(a, 2));
      var level3 := Follow(mem, Some(root), Index(a, 4));
      if level3.None? { return false; }
      var level2 := Follow(mem, level3, Index(a, 3));
      if level2.None? { return false; }
      var level1 := Follow(mem, level2, Index(a, 2));
      if level1.None? { return false; }
      return mem[level1.value][Index(a, 1)].Present();
    }

    /** The last-level table of an address whose upper levels are there. */
    method LeafTable(root: nat, a: nat) returns (t: nat)
      requires Tree(root) && Walk(mem, root, TablePath(Vpn(a))).Some?
      ensures Walk(mem, root, TablePath(Vpn(a))) == Some(t) && IsPage(mem, t)
    {
      IndicesOfVpn(a);
      WalkThree(mem, root, Index(a, 4), Index(a, 3), Index(a, 2));
      var level3 := Follow(mem, Some(root), Index(a, 4));
      var level2 := Follow(mem, level3, Index(a, 3));
      var level1 := Follow(mem, level2, Index(a, 2));
      return level1.value;
    }

    /** pml_phys_addr: the higher-half alias of the mapped byte. */
    method PhysAddr(root: nat, virtAddr: nat) returns (r: nat)
      requires Tree(root) && virtAddr < ADDRESSES && Walk(mem, root, TablePath(Vpn(virtAddr))).Some?
      ensures r == (HIGHER_HALF_BASE + Lookup(Flat(mem, root), Vpn(virtAddr)).frame * PAGE_SIZE
            + virtAddr % PAGE_SIZE) % ADDRESSES
    {
      hide WellFormed, Flat, Walk, Vpn, Index, TablePath, Slot;
      var t := LeafTable(root, virtAddr);
      IndicesOfVpn(virtAddr);
      EntryIsLookup(mem, root, Vpn(virtAddr));
      r := (mem[t][Index(virtAddr, 1)].frame * PAGE_SIZE + HIGHER_HALF_BASE + virtAddr % PAGE_SIZE) % ADDRESSES;
    }

    method UnmapPage(root: nat, ghost hi: nat, a: nat)
      requires Tree(root) && OwnershipOk(mem, root, free) && Walk(mem, root, TablePath(Vpn(a))).Some?
      requires TopIndex(Vpn(a)) < hi
      modifies this
      ensures Tree(root) && OwnershipOk(mem, root, free) && OnlyLeaves(old(mem), mem, free, root, hi)
      ensures Flat(mem, root) == old(Flat(mem, root)) - {Vpn(a)}
      ensures freed == old(freed) + OwnedInRange(old(Flat(mem, root)), Vpn(a), 1)
      ensures old(free) <= free
      ensures forall f :: f in free ==> f in old(free) || f in OwnedInRange(old(Flat(mem, root)), Vpn(a), 1)
    {
      hide WellFormed, Flat, Walk, Vpn, Index, TablePath;
      hide Slot, OwnershipOk, IsTable, SameWalks, Has, LeafUnder, TopIndex;
      ghost var v := Vpn(a);
      var t := LeafTable(root, a);
      IndicesOfVpn(a);
      EntryIsLookup(mem, root, v);
      var entry := mem[t][Index(a, 1)];
      OwnedFrame(mem, free, root, v);
      OneOwned(Flat(mem, root), v);
      if entry.Owned() {
        PmmFree(entry.frame);
        FreeStep(old(mem), old(free), root, mem, free, entry.frame);
      }
      UnmapStep(old(mem), old(free), root, mem, free, v);
      LeafIsTable(old(mem), root, hi, v);
      mem := Store(mem, t, Index(a, 1), ZERO);
    }

    /** pml_unmap: the range leaves the flat map, and its owned frames are given back in order. */
    method Unmap(root: nat, ghost hi: nat, virtAddr: nat, pageAmount: nat)
      requires Tree(root) && OwnershipOk(mem, root, free) && virtAddr < ADDRESSES
      requires HasTables(mem, root, Vpn(virtAddr), pageAmount) && RangeUnder(Vpn(virtAddr), pageAmount, hi)
      modifies this
      ensures Tree(root) && OwnershipOk(mem, root, free) && OnlyLeaves(old(mem), mem, free, root, hi)
      ensures Flat(mem, root) == UnmapRange(old(Flat(mem, root)), Vpn(virtAddr), pageAmount)
      ensures freed == old(freed) + OwnedInRange(old(Flat(mem, root)), Vpn(virtAddr), pageAmount)
      ensures old(free) <= free && forall f :: f in free ==>
        f in old(free) || f in OwnedInRange(old(Flat(mem, root)), Vpn(virtAddr), pageAmount)
    {
      hide TreeOk, OwnershipOk, OnlyLeaves, Flat, Walk, WellFormed, Vpn, NextPage, TablePath, Later, After;
      hide HasTables, UnmapRange, OwnedInRange, TopIndex;
      ghost var all := OwnedInRange(Flat(mem, root), Vpn(virtAddr), pageAmount);
      OnlyLeavesRefl(mem, free, root, hi);
      AfterZero(Vpn(virtAddr), 0);
      var a: nat := virtAddr;
      for i := 0 to pageAmount
        invariant Tree(root) && OwnershipOk(mem, root, free) && OnlyLeaves(old(mem), mem, free, root, hi)
        invariant old(free) <= free
        invariant forall f :: f in free ==> f in old(free) || f in all
        invariant a < ADDRESSES && Vpn(a) == After(Vpn(virtAddr), i) && HasTables(mem, root, Vpn(virtAddr), pageAmount)
        invariant UnmapRange(Flat(mem, root), Vpn(a), pageAmount - i)
            == UnmapRange(old(Flat(mem, root)), Vpn(virtAddr), pageAmount)
        invariant freed + OwnedInRange(Flat(mem, root), Vpn(a), pageAmount - i) == old(freed) + all
        invariant forall f :: f in OwnedInRange(Flat(mem, root), Vpn(a), pageAmount - i) ==> f in all
      {
        ghost var before, beforeFree, beforeFreed, flat, rest := mem, free, freed, Flat(mem, root), pageAmount - i;
        UnmapFirst(flat, Vpn(a), rest);
        TablesAt(mem, root, Vpn(virtAddr), pageAmount, i);
        UnmapPage(root, hi, a);
        OnlyLeavesTrans(old(mem), before, beforeFree, mem, free, root, hi);
        LeavesKeepTables(before, mem, free, root, hi, Vpn(virtAddr), pageAmount);
        NextIsLater(a);
        AfterNext(Vpn(virtAddr), i);
        a := NextPage(a);
      }
      UnmapNone(Flat(mem, root), Vpn(a));
    }

    method ReflagPage(root: nat, ghost hi: nat, a: nat, flags: Flags)
      requires Tree(root) && Walk(mem, root, TablePath(Vpn(a))).Some? && TopIndex(Vpn(a)) < hi
      modifies this`mem
      ensures Tree(root) && OnlyLeaves(old(mem), mem, free, root, hi)
      ensures Flat(mem, root) == old(Flat(mem, root))[Vpn(a) := Reflag(Lookup(old(Flat(mem, root)), Vpn(a)), flags)]
      ensures old(OwnershipOk(mem, root, free)) && !Has(flags, OWNED) ==> OwnershipOk(mem, root, free)
    {
      hide WellFormed, Flat, Walk, Vpn, Index, TablePath, Slot, OwnershipOk, IsTable, OnlyLeaves, Has;
      var t := LeafTable(root, a);
      IndicesOfVpn(a);
      var entry := mem[t][Index(a, 1)];
      var finalFlags := if entry.Owned() then flags | OWNED else flags;
      CreateAtFrame(entry.frame, finalFlags);
      ReflagStep(mem, free, root, hi, Vpn(a), flags);
      mem := Store(mem, t, Index(a, 1), EntryCreate(entry.frame * PAGE_SIZE, finalFlags));
    }

    /** pml_change_flags: each entry of the range keeps its frame and ownership and takes the new flags. */
    method ChangeFlags(root: nat, ghost hi: nat, virtAddr: nat, pageAmount: nat, flags: Flags)
      requires Tree(root) && virtAddr < ADDRESSES && HasTables(mem, root, Vpn(virtAddr), pageAmount)
      requires RangeUnder(Vpn(virtAddr), pageAmount, hi)
      modifies this`mem
      ensures Tree(root) && OnlyLeaves(old(mem), mem, free, root, hi)
      ensures Flat(mem, root) == ReflagRange(old(Flat(mem, root)), Vpn(virtAddr), pageAmount, flags)
      ensures old(OwnershipOk(mem, root, free)) && !Has(flags, OWNED) ==> OwnershipOk(mem, root, free)
    {
      hide TreeOk, OwnershipOk, OnlyLeaves, Flat, Walk, Has, Reflag, TopIndex;
      OnlyLeavesRefl(mem, free, root, hi);
      var a: nat := virtAddr;
      for i := 0 to pageAmount
        invariant Tree(root) && OnlyLeaves(old(mem), mem, free, root, hi)
        invariant a < ADDRESSES && Vpn(a) == After(Vpn(virtAddr), i) && HasTables(mem, root, Vpn(virtAddr), pageAmount)
        invariant ReflagRange(Flat(mem, root), Vpn(a), pageAmount - i, flags)
            == ReflagRange(old(Flat(mem, root)), Vpn(virtAddr), pageAmount, flags)
        invariant old(OwnershipOk(mem, root, free)) && !Has(flags, OWNED) ==> OwnershipOk(mem, root, free)
      {
        ghost var before := mem;
        ReflagPage(root, hi, a, flags);
        OnlyLeavesTrans(old(mem), before, free, mem, free, root, hi);
        LeavesKeepTables(before, mem, free, root, hi, Vpn(virtAddr), pageAmount);
        NextVpn(a);
        AfterNext(Vpn(virtAddr), i);
        a := NextPage(a);
      }
    }
  }
}
