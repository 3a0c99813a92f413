/**
 All address spaces of the machine together: the kernel's own tree, and any number of spaces that share its upper half.
 What is done to the lower half of one space reaches no other, and tearing one down leaves the others whole.
 */
module Spaces {
  import opened Options
  import opened Paging
  import opened FlatRanges
  import opened PageTable
  import opened PageTree
  import opened AddressSpace
  import opened Vmm

  // ---------- The invariant ----------

  ghost predicate OwnedBy(mem: Mem, root: nat, f: nat) {
    exists v: nat :: Owns(mem, root, v) && Flat(mem, root)[v].frame == f
  }

  /** A table of the kernel's tree, or a page that it owns. */
  ghost predicate KernelPage(mem: Mem, kernel: nat, f: nat) { IsTable(mem, kernel, f) || OwnedBy(mem, kernel, f) }

  /** The upper half of root r is a copy of the kernel's. */
  predicate SharesUpper(mem: Mem, kernel: nat, r: nat) {
    IsPage(mem, kernel) && IsPage(mem, r) && forall i :: HALF <= i < ENTRIES ==> mem[r][i] == mem[kernel][i]
  }

  ghost predicate TreeOwned(mem: Mem, free: set<nat>, root: nat) {
    TreeOk(mem, free, root) && OwnershipOk(mem, root, free)
  }

  ghost predicate SpaceOk(mem: Mem, free: set<nat>, kernel: nat, r: nat) {
    && TreeOwned(mem, free, r) && r < FRAMES && SharesUpper(mem, kernel, r)
    && forall f :: LowerHalfPage(mem, r, f) ==> !KernelPage(mem, kernel, f)
  }

  /** No page of the lower half of one space is a page of the lower half of another. */
  ghost predicate Apart(mem: Mem, r: nat, s: nat) {
    forall f :: LowerHalfPage(mem, r, f) ==> !LowerHalfPage(mem, s, f)
  }

  /** The kernel's tree, and spaces that share with it, and with each other, nothing but tables of its upper half. */
  ghost predicate World(mem: Mem, free: set<nat>, kernel: nat, roots: set<nat>) {
    && TreeOwned(mem, free, kernel) && (forall r :: r in roots ==> SpaceOk(mem, free, kernel, r))
    && forall r, s :: r in roots && s in roots && r != s ==> Apart(mem, r, s)
  }

  // ---------- What a space consists of ----------

  lemma {:induction false} UpperWalk(mem: Mem, kernel: nat, r: nat, q: seq<nat>)
    requires SharesUpper(mem, kernel, r) && IsPath(q) && q != [] && q[0] >= HALF
    ensures Walk(mem, r, q) == Walk(mem, kernel, q)
  {
    if |q| > 1 {
      UpperWalk(mem, kernel, r, q[..|q|-1]);
    } else {
      assert q[..0] == [];
      WalkRoot(mem, r);
      WalkRoot(mem, kernel);
    }
  }

  /** Every table of a space is one of its lower half, or a table of the kernel's tree. */
  lemma TableOfSpace(mem: Mem, kernel: nat, r: nat, f: nat)
    requires SharesUpper(mem, kernel, r) && IsTable(mem, r, f)
    ensures LowerHalfPage(mem, r, f) || KernelPage(mem, kernel, f)
  {
    var q :| IsPath(q) && Walk(mem, r, q) == Some(f);
    if q != [] && q[0] >= HALF {
      UpperWalk(mem, kernel, r, q);
    } else {
      assert TableUnder(mem, r, HALF, f);
    }
  }

  /** In the upper half a space maps what the kernel maps. */
  lemma UpperFlat(mem: Mem, kernel: nat, r: nat, v: nat)
    requires SharesUpper(mem, kernel, r) && VPNS / 2 <= v < VPNS
    ensures v in Flat(mem, r) <==> v in Flat(mem, kernel)
    ensures v in Flat(mem, r) ==> Flat(mem, r)[v] == Flat(mem, kernel)[v]
  {
    assert TablePath(v)[0] >= HALF;
    UpperWalk(mem, kernel, r, TablePath(v));
    hide Walk, TablePath;
  }

  /** Every page that a space owns is one of its lower half, or one that the kernel's tree owns. */
  lemma OwnedOfSpace(mem: Mem, kernel: nat, r: nat, f: nat)
    requires SharesUpper(mem, kernel, r) && OwnedBy(mem, r, f)
    ensures LowerHalfPage(mem, r, f) || KernelPage(mem, kernel, f)
  {
    hide Flat, SharesUpper, TableUnder, IsTable;
    var v: nat :| Owns(mem, r, v) && Flat(mem, r)[v].frame == f;
    FlatBound(mem, r);
    if v >= VPNS / 2 {
      UpperFlat(mem, kernel, r, v);
      assert Owns(mem, kernel, v);
    }
  }

  /** None of these pages is free. */
  lemma LowerNotFree(mem: Mem, free: set<nat>, r: nat, f: nat)
    requires TreeOwned(mem, free, r) && LowerHalfPage(mem, r, f)
    ensures f !in free
  {
    hide Flat, WellFormed;
    if TableUnder(mem, r, HALF, f) {
      UnderIsTable(mem, r, HALF, f);
    }
    hide TableUnder, IsTable;
  }

  lemma UnderIsTable(mem: Mem, r: nat, hi: nat, f: nat)
    requires TableUnder(mem, r, hi, f)
    ensures IsTable(mem, r, f)
  {
  }

  lemma KernelNotFree(mem: Mem, free: set<nat>, kernel: nat, f: nat)
    requires TreeOwned(mem, free, kernel) && KernelPage(mem, kernel, f)
    ensures f !in free
  {
    hide Flat, WellFormed, IsTable;
  }

  // ---------- Changes that spare the others ----------

  /** From m to m' only pages of the lower half of r, and free pages, changed or became free. */
  ghost predicate Spares(m: Mem, free: set<nat>, m': Mem, free': set<nat>, r: nat) {
    && FreePagesOk(m', free') && (forall f :: IsPage(m, f) ==> IsPage(m', f))
    && (forall f :: f in free' ==> f in free || LowerHalfPage(m, r, f))
    && (forall f :: f in m && f !in free && f !in free' && !LowerHalfPage(m, r, f) ==> f in m' && m'[f] == m[f])
  }

  /** A tree none of whose pages belongs to the lower half of r. */
  ghost predicate Beside(m: Mem, free: set<nat>, r: nat, s: nat) {
    && TreeOwned(m, free, s)
    && (forall f :: IsTable(m, s, f) ==> !LowerHalfPage(m, r, f))
    && (forall f :: OwnedBy(m, s, f) ==> !LowerHalfPage(m, r, f))
  }

  lemma WorldBeside(m: Mem, free: set<nat>, kernel: nat, roots: set<nat>, r: nat, s: nat)
    requires World(m, free, kernel, roots) && r in roots && (s == kernel || (s in roots && s != r))
    ensures Beside(m, free, r, s)
  {
    hide IsTable, OwnedBy, LowerHalfPage, TreeOwned;
    assert SpaceOk(m, free, kernel, r);
    if s == kernel {
    } else {
      assert SpaceOk(m, free, kernel, s) && Apart(m, r, s);
      forall f | IsTable(m, s, f) ensures !LowerHalfPage(m, r, f) { TableOfSpace(m, kernel, s, f); }
      forall f | OwnedBy(m, s, f) ensures !LowerHalfPage(m, r, f) { OwnedOfSpace(m, kernel, s, f); }
    }
  }

  /** Such a tree stays as it is. */
  lemma BesideKept(m: Mem, free: set<nat>, m': Mem, free': set<nat>, r: nat, s: nat)
    requires Beside(m, free, r, s) && Spares(m, free, m', free', r)
    ensures TreeOwned(m', free', s) && Flat(m', s) == Flat(m, s) && SameWalks(m, m', s)
    ensures s in m && s in m' && m'[s] == m[s]
  {
    RootIsTable(m, free, s);
    TreeIsPages(m, s);
    hide LowerHalfPage, Flat, WellFormed;
    forall f | IsTable(m, s, f) ensures f in m' && m'[f] == m[f] && f !in free' {
    }
    hide IsTable;
    TreeFrame(m, m', s);
    SameTables(m, m', s);
    forall v: nat | Owns(m, s, v) ensures Flat(m, s)[v].frame !in free' {
      assert OwnedBy(m, s, Flat(m, s)[v].frame);
    }
    SameOwnership(m, free, m', free', s);
  }

  lemma SameLower(m: Mem, m': Mem, s: nat, f: nat)
    requires Flat(m', s) == Flat(m, s) && SameWalks(m, m', s)
    ensures LowerHalfPage(m', s, f) <==> LowerHalfPage(m, s, f)
  {
    hide Flat;
    assert TableUnder(m', s, HALF, f) <==> TableUnder(m, s, HALF, f);
    assert forall v :: Owns(m', s, v) <==> Owns(m, s, v);
  }

  lemma SameKernel(m: Mem, m': Mem, kernel: nat, f: nat)
    requires Flat(m', kernel) == Flat(m, kernel) && SameWalks(m, m', kernel)
    ensures KernelPage(m', kernel, f) <==> KernelPage(m, kernel, f)
  {
    SameTables(m, m', kernel);
    hide Flat, IsTable;
    assert forall v :: Owns(m', kernel, v) <==> Owns(m, kernel, v);
  }

  /** s looks the same before and after. */
  ghost predicate Untouched(m: Mem, m': Mem, s: nat) {
    && Flat(m', s) == Flat(m, s) && s in m && s in m' && m'[s] == m[s]
    && forall f :: LowerHalfPage(m', s, f) <==> LowerHalfPage(m, s, f)
  }

  lemma SpaceUntouched(m: Mem, free: set<nat>, m': Mem, free': set<nat>, kernel: nat, roots: set<nat>, r: nat, s: nat)
    requires World(m, free, kernel, roots) && r in roots && s in roots && s != r && Spares(m, free, m', free', r)
    ensures SpaceOk(m', free', kernel, s) && Untouched(m, m', s)
  {
    hide LowerHalfPage, KernelPage, Flat, TreeOwned, Spares, Beside, SameWalks;
    WorldBeside(m, free, kernel, roots, r, s);
    BesideKept(m, free, m', free', r, s);
    WorldBeside(m, free, kernel, roots, r, kernel);
    BesideKept(m, free, m', free', r, kernel);
    assert SpaceOk(m, free, kernel, s);
    forall f ensures (LowerHalfPage(m', s, f) <==> LowerHalfPage(m, s, f)) { SameLower(m, m', s, f); }
    forall f ensures (KernelPage(m', kernel, f) <==> KernelPage(m, kernel, f)) { SameKernel(m, m', kernel, f); }
    SparedPages(m, free, m', free', r, s);
  }

  lemma SparedPages(m: Mem, free: set<nat>, m': Mem, free': set<nat>, r: nat, s: nat)
    requires Spares(m, free, m', free', r)
    ensures IsPage(m, s) ==> IsPage(m', s)
  {
  }

  /** Whatever becomes of the lower half of r, the kernel and the other spaces stay as they are. */
  lemma OthersKept(m: Mem, free: set<nat>, m': Mem, free': set<nat>, kernel: nat, roots: set<nat>, r: nat)
    requires World(m, free, kernel, roots) && r in roots && Spares(m, free, m', free', r)
    ensures World(m', free', kernel, roots - {r})
    ensures Flat(m', kernel) == Flat(m, kernel) && forall s :: s in roots && s != r ==> Untouched(m, m', s)
  {
    hide LowerHalfPage, KernelPage, Flat, TreeOwned, Spares, Beside, SameWalks, SpaceOk;
    WorldBeside(m, free, kernel, roots, r, kernel);
    BesideKept(m, free, m', free', r, kernel);
    forall s | s in roots && s != r ensures SpaceOk(m', free', kernel, s) && Untouched(m, m', s) {
      SpaceUntouched(m, free, m', free', kernel, roots, r, s);
    }
    forall s, t | s in roots - {r} && t in roots - {r} && s != t ensures Apart(m', s, t) {
      assert Apart(m, s, t);
      assert Untouched(m, m', s) && Untouched(m, m', t);
    }
  }

  /** A change to the lower half of r that leaves it a space: its new pages were free. */
  ghost predicate LowerOnly(m: Mem, free: set<nat>, m': Mem, free': set<nat>, r: nat) {
    && Spares(m, free, m', free', r) && TreeOwned(m', free', r) && SameTops(m, m', r, HALF)
    && forall f :: LowerHalfPage(m', r, f) ==> LowerHalfPage(m, r, f) || f in free
  }

  lemma KernelKept(m: Mem, free: set<nat>, m': Mem, free': set<nat>, kernel: nat, roots: set<nat>, r: nat)
    requires World(m, free, kernel, roots) && r in roots && Spares(m, free, m', free', r)
    ensures kernel in m && kernel in m' && m'[kernel] == m[kernel]
    ensures forall f :: KernelPage(m', kernel, f) ==> KernelPage(m, kernel, f) && f !in free
  {
    hide LowerHalfPage, KernelPage, Flat, TreeOwned, Spares, Beside, SameWalks;
    WorldBeside(m, free, kernel, roots, r, kernel);
    BesideKept(m, free, m', free', r, kernel);
    forall f | KernelPage(m', kernel, f) ensures KernelPage(m, kernel, f) && f !in free {
      SameKernel(m, m', kernel, f);
      KernelNotFree(m, free, kernel, f);
    }
  }

  /** Every operation on the lower half of one space keeps all of them. */
  lemma WorldKept(m: Mem, free: set<nat>, m': Mem, free': set<nat>, kernel: nat, roots: set<nat>, r: nat)
    requires World(m, free, kernel, roots) && r in roots && LowerOnly(m, free, m', free', r)
    ensures World(m', free', kernel, roots)
    ensures Flat(m', kernel) == Flat(m, kernel) && forall s :: s in roots && s != r ==> Flat(m', s) == Flat(m, s)
  {
    hide LowerHalfPage, KernelPage, Flat, TreeOwned, Spares;
    assert SpaceOk(m, free, kernel, r);
    KernelKept(m, free, m', free', kernel, roots, r);
    SparedPages(m, free, m', free', r, kernel);
    assert SpaceOk(m', free', kernel, r);
    hide SpaceOk;
    OthersKept(m, free, m', free', kernel, roots, r);
    forall s | s in roots && s != r ensures Apart(m', r, s) && Apart(m', s, r) {
      ApartKept(m, free, m', free', kernel, roots, r, s);
    }
    forall s | s in roots ensures SpaceOk(m', free', kernel, s) {
      assert s != r ==> s in roots - {r};
    }
    forall s, t | s in roots && t in roots && s != t ensures Apart(m', s, t) {
      assert s != r && t != r ==> s in roots - {r} && t in roots - {r};
    }
  }

  lemma ApartKept(m: Mem, free: set<nat>, m': Mem, free': set<nat>, kernel: nat, roots: set<nat>, r: nat, s: nat)
    requires World(m, free, kernel, roots) && r in roots && s in roots && s != r && LowerOnly(m, free, m', free', r)
    requires Untouched(m, m', s)
    ensures Apart(m', r, s) && Apart(m', s, r)
  {
    hide LowerHalfPage, KernelPage, Flat, TreeOwned, Spares;
    assert Apart(m, r, s) && SpaceOk(m, free, kernel, s);
    hide World;
    forall f | LowerHalfPage(m', r, f) ensures !LowerHalfPage(m', s, f) {
      if LowerHalfPage(m, s, f) { LowerNotFree(m, free, s, f); }
    }
  }

  // ---------- The calls are such changes ----------

  /** Mapping in the lower half: every owned page was owned before or was free. */
  lemma MappingIsLower(m: Mem, free: set<nat>, m': Mem, free': set<nat>, r: nat)
    requires TreeOwned(m', free', r) && OnlyTree(m, free, m', free', r, HALF)
    requires forall w :: Owns(m', r, w) ==>
      (Owns(m, r, w) && Flat(m', r)[w].frame == Flat(m, r)[w].frame) || Flat(m', r)[w].frame in free
    ensures LowerOnly(m, free, m', free', r)
  {
    hide Flat, WellFormed, IsTable, TableUnder, OwnershipOk;
    forall f | f in m && f !in free && !LowerHalfPage(m, r, f) ensures !TableUnder(m, r, HALF, f) {
    }
    forall f | LowerHalfPage(m', r, f) ensures LowerHalfPage(m, r, f) || f in free {
    }
  }

  /** Changing leaves in the lower half: every owned page was owned before, and what became free was owned there. */
  lemma LeavesAreLower(m: Mem, free: set<nat>, m': Mem, free': set<nat>, r: nat)
    requires TreeOk(m, free, r) && TreeOwned(m', free', r) && OnlyLeaves(m, m', free', r, HALF)
    requires forall w :: Owns(m', r, w) ==> Owns(m, r, w) && Flat(m', r)[w].frame == Flat(m, r)[w].frame
    requires forall f :: f in free' ==> f in free || LowerHalfPage(m, r, f)
    ensures LowerOnly(m, free, m', free', r)
  {
    hide Flat, WellFormed, IsTable, TableUnder, LeafUnder, OwnershipOk, SameWalks;
    forall f | LeafUnder(m, r, HALF, f) ensures LowerHalfPage(m, r, f) && f != r { LeafIsLower(m, r, f); }
    SameUnder(m, m', r, HALF);
    RootIsTable(m, free, r);
    RootIsTable(m', free', r);
    forall f | LowerHalfPage(m', r, f) ensures LowerHalfPage(m, r, f) {
    }
  }

  lemma LeafIsLower(m: Mem, r: nat, f: nat)
    requires WellFormed(m, r) && LeafUnder(m, r, HALF, f)
    ensures LowerHalfPage(m, r, f) && f != r
  {
    var p :| IsPath(p) && |p| == 3 && p[0] < HALF && Walk(m, r, p) == Some(f);
    assert TableUnder(m, r, HALF, f);
    if f == r { OnePathRoot(m, r, p); }
  }

  /** What unmapping a range gives back was owned at a page of the range. */
  lemma {:induction false} OwnedInRangeFrom(flat: FlatMap, v: nat, n: nat, f: nat) returns (w: nat)
    requires v < VPNS && f in OwnedInRange(flat, v, n)
    ensures Hits(v, n, w) && w in flat && flat[w].Owned() && flat[w].frame == f
    decreases n
  {
    if v in flat && flat[v].Owned() && flat[v].frame == f {
      w := v;
    } else {
      w := OwnedInRangeFrom(flat - {v}, Later(v), n - 1, f);
    }
    HitsNext(v, n, w);
  }

  lemma LowerRangeHits(v: nat, n: nat, w: nat)
    requires RangeUnder(v, n, HALF) && Hits(v, n, w)
    ensures w < VPNS / 2
  {
    var k: nat :| k < n && After(v, k) == w;
    assert TopIndex(w) < HALF;
  }

  lemma AllocIsLower(m: Mem, free: set<nat>, m': Mem, free': set<nat>, r: nat, v: nat, taken: seq<Frame>, flags: Flags)
    requires TreeOwned(m', free', r) && OnlyTree(m, free, m', free', r, HALF)
    requires v < VPNS
    requires Flat(m', r) == AllocRange(Flat(m, r), v, taken, flags) && forall f :: f in taken ==> f in free
    ensures LowerOnly(m, free, m', free', r)
  {
    hide Flat, OnlyTree, TreeOwned, LowerOnly, AllocRange;
    forall w | Owns(m', r, w)
      ensures (Owns(m, r, w) && Flat(m', r)[w].frame == Flat(m, r)[w].frame) || Flat(m', r)[w].frame in free
    {
      AllocRangeFrom(Flat(m, r), v, taken, flags, w);
    }
    MappingIsLower(m, free, m', free', r);
  }

  lemma MapIsLower(m: Mem, free: set<nat>, m': Mem, free': set<nat>, r: nat, v: nat, f: Frame, n: nat, flags: Flags)
    requires TreeOwned(m', free', r) && OnlyTree(m, free, m', free', r, HALF)
    requires Flat(m', r) == MapRange(Flat(m, r), v, f, n, flags) && !Has(flags, OWNED)
    ensures LowerOnly(m, free, m', free', r)
  {
    hide Flat, OnlyTree, TreeOwned, LowerOnly, MapRange, Has;
    forall w | Owns(m', r, w) ensures Owns(m, r, w) && Flat(m', r)[w].frame == Flat(m, r)[w].frame {
      MapRangeOwned(Flat(m, r), v, f, n, flags, w);
    }
    MappingIsLower(m, free, m', free', r);
  }

  lemma UnmapIsLower(m: Mem, free: set<nat>, m': Mem, free': set<nat>, r: nat, v: nat, n: nat)
    requires TreeOk(m, free, r) && TreeOwned(m', free', r) && OnlyLeaves(m, m', free', r, HALF)
    requires v < VPNS && RangeUnder(v, n, HALF) && Flat(m', r) == UnmapRange(Flat(m, r), v, n)
    requires forall f :: f in free' ==> f in free || f in OwnedInRange(Flat(m, r), v, n)
    ensures LowerOnly(m, free, m', free', r)
  {
    hide Flat, OnlyLeaves, TreeOwned, TreeOk, LowerOnly, UnmapRange, OwnedInRange, RangeUnder, TableUnder;
    forall w: nat | Owns(m', r, w) ensures Owns(m, r, w) && Flat(m', r)[w].frame == Flat(m, r)[w].frame {
      UnmapRangeAt(Flat(m, r), v, n, w);
    }
    forall f | f in free' ensures f in free || LowerHalfPage(m, r, f) {
      if f !in free {
        var w := OwnedInRangeFrom(Flat(m, r), v, n, f);
        LowerRangeHits(v, n, w);
        assert Owns(m, r, w);
      }
    }
    LeavesAreLower(m, free, m', free', r);
  }

  lemma ProtectIsLower(m: Mem, free: set<nat>, m': Mem, r: nat, v: nat, n: nat, flags: Flags)
    requires TreeOk(m, free, r) && TreeOwned(m', free, r) && OnlyLeaves(m, m', free, r, HALF)
    requires v < VPNS && Flat(m', r) == ReflagRange(Flat(m, r), v, n, flags) && AllMapped(Flat(m, r), v, n)
    requires !Has(flags, OWNED)
    ensures LowerOnly(m, free, m', free, r)
  {
    hide Flat, OnlyLeaves, TreeOwned, TreeOk, LowerOnly, ReflagRange, Has;
    forall w: nat | Owns(m', r, w) ensures Owns(m, r, w) && Flat(m', r)[w].frame == Flat(m, r)[w].frame {
      ReflagRangeBy(Flat(m, r), v, n, flags, w);
      if Hits(v, n, w) { ReflagOwned(Lookup(Flat(m, r), w), flags); }
    }
    LeavesAreLower(m, free, m', free, r);
  }

  // ---------- Creating a space ----------

  lemma NewLower(m: Mem, kernel: nat, m': Mem, r: nat, f: nat)
    requires KeepsOnly(m, kernel, m', r, HALF, ENTRIES) && LowerHalfPage(m', r, f)
    requires forall v :: v in Flat(m', r) ==> v >= VPNS / 2
    ensures f == r
  {
    forall p | IsPath(p) && Under(p, HALF) ensures Walk(m', r, p) == if p == [] then Some(r) else None {
      if p == [] { WalkRoot(m', r); } else { ZeroEntryWalk(m', r, p); }
    }
    hide Flat, Walk;
  }

  lemma {:induction false} ZeroEntryWalk(m: Mem, r: nat, p: seq<nat>)
    requires IsPage(m, r) && IsPath(p) && p != [] && m[r][p[0]] == ZERO
    ensures Walk(m, r, p) == None
  {
    if |p| > 1 {
      ZeroEntryWalk(m, r, p[..|p|-1]);
    } else {
      assert p[..0] == [];
      WalkRoot(m, r);
    }
  }

  /** A new space joins the others: its root was free, and it has no other page in its lower half. */
  lemma WorldGrows(m: Mem, free: set<nat>, m': Mem, free': set<nat>, kernel: nat, roots: set<nat>, r: nat)
    requires World(m, free, kernel, roots) && r in free && free' <= free - {r} && r < FRAMES
    requires KeepsOnly(m, kernel, m', r, HALF, ENTRIES) && TreeOwned(m', free', r) && TreeOwned(m', free', kernel)
    requires forall v :: v in Flat(m', r) ==> v >= VPNS / 2
    ensures World(m', free', kernel, roots + {r})
    ensures Flat(m', kernel) == Flat(m, kernel) && forall s :: s in roots ==> Flat(m', s) == Flat(m, s)
  {
    hide TreeOwned, Flat, LowerHalfPage, KernelPage, SpaceOk;
    AwayKept(m, free, m', free', kernel, r);
    RootNotFree(m, free, kernel);
    forall s | s in roots
      ensures SpaceOk(m', free', kernel, s) && Flat(m', s) == Flat(m, s) && Apart(m', r, s) && Apart(m', s, r)
    {
      OldSpace(m, free, m', free', kernel, r, s);
    }
    NewSpaceOk(m, free, m', free', kernel, r);
    forall s, t | s in roots && t in roots && s != t ensures Apart(m', s, t) {
      assert Apart(m, s, t);
      assert SpaceOk(m, free, kernel, s) && SpaceOk(m, free, kernel, t);
      OldLower(m, free, m', free', kernel, r, s);
      OldLower(m, free, m', free', kernel, r, t);
    }
  }

  lemma RootNotFree(m: Mem, free: set<nat>, root: nat)
    requires TreeOwned(m, free, root)
    ensures IsPage(m, root) && root !in free
  {
    RootIsTable(m, free, root);
  }

  /** A tree whose pages are not free does not notice a change to a free page. */
  lemma AwayKept(m: Mem, free: set<nat>, m': Mem, free': set<nat>, s: nat, r: nat)
    requires TreeOwned(m, free, s) && r in free && free' <= free && r in m' && m' == m[r := m'[r]] && IsPage(m', r)
    ensures TreeOwned(m', free', s) && Flat(m', s) == Flat(m, s) && SameWalks(m, m', s)
  {
    TreeIsPages(m, s);
    hide Flat, WellFormed;
    assert forall f :: IsTable(m, s, f) ==> f in m' && m'[f] == m[f];
    hide IsTable;
    TreeFrame(m, m', s);
    SameTables(m, m', s);
    SameOwnership(m, free, m', free', s);
  }

  lemma OldLower(m: Mem, free: set<nat>, m': Mem, free': set<nat>, kernel: nat, r: nat, s: nat)
    requires SpaceOk(m, free, kernel, s) && r in free && free' <= free && IsPage(m', r) && m' == m[r := m'[r]]
    ensures forall f :: LowerHalfPage(m', s, f) <==> LowerHalfPage(m, s, f)
  {
    hide LowerHalfPage, Flat, TreeOwned;
    AwayKept(m, free, m', free', s, r);
    forall f ensures LowerHalfPage(m', s, f) <==> LowerHalfPage(m, s, f) { SameLower(m, m', s, f); }
  }

  lemma OldSpace(m: Mem, free: set<nat>, m': Mem, free': set<nat>, kernel: nat, r: nat, s: nat)
    requires TreeOwned(m, free, kernel) && SpaceOk(m, free, kernel, s) && r in free && free' <= free
    requires KeepsOnly(m, kernel, m', r, HALF, ENTRIES) && forall v :: v in Flat(m', r) ==> v >= VPNS / 2
    ensures SpaceOk(m', free', kernel, s) && Flat(m', s) == Flat(m, s) && Apart(m', r, s) && Apart(m', s, r)
  {
    hide LowerHalfPage, Flat, TreeOwned, KernelPage, SameWalks;
    AwayKept(m, free, m', free', s, r);
    AwayKept(m, free, m', free', kernel, r);
    OldLower(m, free, m', free', kernel, r, s);
    forall f ensures KernelPage(m', kernel, f) <==> KernelPage(m, kernel, f) { SameKernel(m, m', kernel, f); }
    RootNotFree(m, free, kernel);
    RootNotFree(m, free, s);
    forall f | LowerHalfPage(m', r, f) ensures !LowerHalfPage(m', s, f) {
      NewLower(m, kernel, m', r, f);
      if LowerHalfPage(m, s, f) { LowerNotFree(m, free, s, f); }
    }
  }

  lemma NewSpaceOk(m: Mem, free: set<nat>, m': Mem, free': set<nat>, kernel: nat, r: nat)
    requires TreeOwned(m, free, kernel) && r in free && free' <= free && r < FRAMES && TreeOwned(m', free', r)
    requires KeepsOnly(m, kernel, m', r, HALF, ENTRIES) && forall v :: v in Flat(m', r) ==> v >= VPNS / 2
    ensures SpaceOk(m', free', kernel, r)
  {
    hide LowerHalfPage, Flat, TreeOwned, KernelPage, SameWalks;
    AwayKept(m, free, m', free', kernel, r);
    RootNotFree(m, free, kernel);
    forall f | LowerHalfPage(m', r, f) ensures !KernelPage(m', kernel, f) {
      NewLower(m, kernel, m', r, f);
      SameKernel(m, m', kernel, f);
      if KernelPage(m, kernel, f) { KernelNotFree(m, free, kernel, f); }
    }
  }

  // ---------- The exception ----------

  /** Writing a leaf entry through one space changes what another maps if and only if the page lies in the upper half
      and the entry is not the one that is there: the tables of the upper half are everyone's. */
  lemma UpperStoreIsShared(mem: Mem, free: set<nat>, kernel: nat, roots: set<nat>, r: nat, s: nat, v: nat, e: Entry)
    requires World(mem, free, kernel, roots) && r in roots && (s == kernel || (s in roots && s != r)) && v < VPNS
    requires Walk(mem, r, TablePath(v)).Some? && IsPage(mem, Walk(mem, r, TablePath(v)).value)
    requires e.Present() || e == ZERO
    ensures var mem' := Store(mem, Walk(mem, r, TablePath(v)).value, Slot(v), e);
            && (v >= VPNS / 2 ==> Flat(mem', s) == if e.Present() then Flat(mem, s)[v := e] else Flat(mem, s) - {v})
            && (Flat(mem', s) == Flat(mem, s) <==> v < VPNS / 2 || e == Lookup(Flat(mem, s), v))
  {
    var t := Walk(mem, r, TablePath(v)).value;
    var mem' := Store(mem, t, Slot(v), e);
    assert TablePath(v)[0] == TopIndex(v);
    WorldTree(mem, free, kernel, roots, r, s);
    hide World, Beside, WellFormed, Flat, TreeOwned, SharesUpper, Walk, TablePath, Slot, LowerHalfPage;
    if v >= VPNS / 2 {
      UpperWalk(mem, kernel, r, TablePath(v));
      if s != kernel { UpperWalk(mem, kernel, s, TablePath(v)); }
      LeafStore(mem, s, v, e);
      StoreChanges(mem, s, v, e);
    } else {
      WorldBeside(mem, free, kernel, roots, r, s);
      LowerStoreSpares(mem, free, r, s, v, e);
    }
  }

  lemma WorldTree(mem: Mem, free: set<nat>, kernel: nat, roots: set<nat>, r: nat, s: nat)
    requires World(mem, free, kernel, roots) && r in roots && (s == kernel || s in roots)
    ensures WellFormed(mem, s) && SharesUpper(mem, kernel, r) && (s != kernel ==> SharesUpper(mem, kernel, s))
  {
    assert SpaceOk(mem, free, kernel, r) && (s != kernel ==> SpaceOk(mem, free, kernel, s));
  }

  lemma StoreChanges(mem: Mem, s: nat, v: nat, e: Entry)
    requires e.Present() || e == ZERO
    ensures (if e.Present() then Flat(mem, s)[v := e] else Flat(mem, s) - {v}) == Flat(mem, s) <==>
      e == Lookup(Flat(mem, s), v)
  {
    FlatPresent(mem, s);
    hide Flat;
  }

  lemma FlatPresent(mem: Mem, s: nat)
    ensures forall v :: v in Flat(mem, s) ==> Flat(mem, s)[v].Present()
  {
  }

  lemma LowerStoreSpares(mem: Mem, free: set<nat>, r: nat, s: nat, v: nat, e: Entry)
    requires Beside(mem, free, r, s) && v < VPNS / 2 && Walk(mem, r, TablePath(v)).Some?
    requires IsPage(mem, Walk(mem, r, TablePath(v)).value)
    ensures Flat(Store(mem, Walk(mem, r, TablePath(v)).value, Slot(v), e), s) == Flat(mem, s)
  {
    var t := Walk(mem, r, TablePath(v)).value;
    assert TablePath(v)[0] < HALF;
    assert TableUnder(mem, r, HALF, t);
    TreeIsPages(mem, s);
    hide Flat, WellFormed, Walk;
    TreeFrame(mem, Store(mem, t, Slot(v), e), s);
  }

  // ---------- Mapping in the kernel's tree ----------

  /** The kernel's tree changed by itself, and took free pages for tables; it owns nothing new. */
  ghost predicate KernelOp(m: Mem, free: set<nat>, m': Mem, free': set<nat>, kernel: nat) {
    && TreeOwned(m', free', kernel) && OnlyTree(m, free, m', free', kernel, ENTRIES)
    && forall f :: OwnedBy(m', kernel, f) ==> OwnedBy(m, kernel, f)
  }

  /** The upper half of the kernel's root is as it was. */
  predicate SameUpper(m: Mem, m': Mem, kernel: nat) {
    IsPage(m, kernel) && IsPage(m', kernel) && forall i :: HALF <= i < ENTRIES ==> m'[kernel][i] == m[kernel][i]
  }

  /** The tables that a walk in the lower half comes by are unchanged. */
  ghost predicate LowerTablesKept(m: Mem, m': Mem, s: nat) {
    forall t :: TableUnder(m, s, HALF, t) ==> IsPage(m, t) && t in m' && m'[t] == m[t]
  }

  lemma {:induction false} LowerWalkKept(m: Mem, m': Mem, s: nat, q: seq<nat>)
    requires LowerTablesKept(m, m', s) && IsPath(q) && Under(q, HALF)
    ensures Walk(m', s, q) == Walk(m, s, q)
  {
    if q != [] {
      var p := q[..|q|-1];
      assert Under(p, HALF) by { assert p != [] ==> p[0] == q[0]; }
      LowerWalkKept(m, m', s, p);
      if Walk(m, s, p).Some? { assert TableUnder(m, s, HALF, Walk(m, s, p).value); }
    }
  }

  /** Walks of a space: in the lower half as before, in the upper half as in the kernel's tree. */
  ghost predicate HalfAndHalf(m: Mem, m': Mem, kernel: nat, s: nat) {
    forall q :: IsPath(q) ==> Walk(m', s, q) == if Under(q, HALF) then Walk(m, s, q) else Walk(m', kernel, q)
  }

  lemma WalksAfter(m: Mem, m': Mem, kernel: nat, s: nat)
    requires LowerTablesKept(m, m', s) && SharesUpper(m', kernel, s)
    ensures HalfAndHalf(m, m', kernel, s)
  {
    forall q | IsPath(q) ensures Walk(m', s, q) == if Under(q, HALF) then Walk(m, s, q) else Walk(m', kernel, q) {
      if Under(q, HALF) { LowerWalkKept(m, m', s, q); } else { UpperWalk(m', kernel, s, q); }
    }
  }

  /** A page of the lower half of a space is none of the kernel's, before or after. */
  lemma LowerIsNotKernels(m: Mem, free: set<nat>, m': Mem, free': set<nat>, kernel: nat, s: nat, f: nat)
    requires KernelOp(m, free, m', free', kernel) && SpaceOk(m, free, kernel, s) && LowerHalfPage(m, s, f)
    ensures f !in free && f !in free' && !KernelPage(m, kernel, f) && !KernelPage(m', kernel, f)
    ensures f in m ==> f in m' && m'[f] == m[f]
  {
    LowerNotFree(m, free, s, f);
    if TableUnder(m, kernel, ENTRIES, f) { UnderIsTable(m, kernel, ENTRIES, f); }
    hide LowerHalfPage, TreeOwned, OwnedBy, IsTable, TableUnder;
  }

  lemma LowerTablesAfter(m: Mem, free: set<nat>, m': Mem, free': set<nat>, kernel: nat, s: nat)
    requires KernelOp(m, free, m', free', kernel) && SpaceOk(m, free, kernel, s)
    ensures LowerTablesKept(m, m', s) && s in m && s in m' && m'[s] == m[s]
  {
    RootNotFree(m, free, s);
    RootIsLower(m, s);
    TreeIsPages(m, s);
    hide KernelOp, WellFormed, OwnershipOk, Walk;
    forall t | TableUnder(m, s, HALF, t) || t == s ensures IsPage(m, t) && t in m' && m'[t] == m[t] {
      if t != s { UnderIsTable(m, s, HALF, t); }
      hide TableUnder, IsTable;
      LowerIsNotKernels(m, free, m', free', kernel, s, t);
    }
  }

  /** Where a table of a space is. */
  lemma TableAfter(m: Mem, m': Mem, kernel: nat, s: nat, q: seq<nat>)
    requires HalfAndHalf(m, m', kernel, s) && IsPath(q) && Walk(m', s, q).Some?
    ensures var f := Walk(m', s, q).value;
            if Under(q, HALF) then LowerHalfPage(m, s, f) && Walk(m, s, q) == Some(f)
            else KernelPage(m', kernel, f) && Walk(m', kernel, q) == Some(f)
  {
    var f := Walk(m', s, q).value;
    if Under(q, HALF) { assert TableUnder(m, s, HALF, f); } else { assert IsTable(m', kernel, f); }
  }

  lemma DisjointAfter(m: Mem, free: set<nat>, m': Mem, free': set<nat>, kernel: nat, s: nat)
    requires KernelOp(m, free, m', free', kernel) && SpaceOk(m, free, kernel, s) && HalfAndHalf(m, m', kernel, s)
    ensures TablesDisjoint(m', s)
  {
    assert TablesDisjoint(m, s) && TablesDisjoint(m', kernel);
    hide KernelOp, SpaceOk, Walk, LowerHalfPage, KernelPage, HalfAndHalf;
    forall p, q | IsPath(p) && IsPath(q) && Walk(m', s, p).Some? && Walk(m', s, p) == Walk(m', s, q) ensures p == q {
      TableAfter(m, m', kernel, s, p);
      TableAfter(m, m', kernel, s, q);
      if Under(p, HALF) { LowerIsNotKernels(m, free, m', free', kernel, s, Walk(m', s, p).value); }
      if Under(q, HALF) { LowerIsNotKernels(m, free, m', free', kernel, s, Walk(m', s, q).value); }
    }
  }

  lemma WellFormedAfter(m: Mem, free: set<nat>, m': Mem, free': set<nat>, kernel: nat, s: nat)
    requires KernelOp(m, free, m', free', kernel) && SpaceOk(m, free, kernel, s) && HalfAndHalf(m, m', kernel, s)
    requires LowerTablesKept(m, m', s)
    ensures TreeOk(m', free', s)
  {
    DisjointAfter(m, free, m', free', kernel, s);
    assert WellFormed(m, s) && WellFormed(m', kernel) && FreePagesOk(m', free');
    forall q | IsPath(q) && Walk(m', s, q).Some?
      ensures var f := Walk(m', s, q).value;
              && IsPage(m', f) && f !in free'
              && if |q| == 3 then CleanLeaves(m'[f]) else GrantsAll(m'[f], q == [])
    {
      TableAfter(m, m', kernel, s, q);
      hide LowerHalfPage, KernelPage, HalfAndHalf, CleanLeaves, GrantsAll;
      var f := Walk(m', s, q).value;
      if Under(q, HALF) {
        LowerIsNotKernels(m, free, m', free', kernel, s, f);
        assert TableUnder(m, s, HALF, f);
      } else {
        assert IsTable(m', kernel, f);
      }
    }
  }

  lemma FlatAfter(m: Mem, m': Mem, kernel: nat, s: nat, v: nat)
    requires HalfAndHalf(m, m', kernel, s) && LowerTablesKept(m, m', s) && v < VPNS / 2
    ensures v in Flat(m', s) <==> v in Flat(m, s)
    ensures v in Flat(m', s) ==> Flat(m', s)[v] == Flat(m, s)[v]
  {
    var q := TablePath(v);
    assert q[0] < HALF;
    assert Walk(m', s, q) == Walk(m, s, q);
    if Walk(m, s, q).Some? { assert TableUnder(m, s, HALF, Walk(m, s, q).value); }
    hide Walk, TablePath, HalfAndHalf;
  }

  /** What a space owns afterwards: in the lower half what it owned, in the upper half what the kernel's tree owned. */
  lemma OwnsAfter(m: Mem, free: set<nat>, m': Mem, free': set<nat>, kernel: nat, s: nat, v: nat)
    requires KernelOp(m, free, m', free', kernel) && SpaceOk(m, free, kernel, s) && HalfAndHalf(m, m', kernel, s)
    requires LowerTablesKept(m, m', s) && SharesUpper(m', kernel, s) && Owns(m', s, v)
    ensures var f := Flat(m', s)[v].frame;
            if v < VPNS / 2 then Owns(m, s, v) && Flat(m, s)[v].frame == f && LowerHalfPage(m, s, f)
            else Owns(m', kernel, v) && Flat(m', kernel)[v].frame == f && KernelPage(m, kernel, f)
  {
    hide KernelOp, SpaceOk, HalfAndHalf, LowerTablesKept, SharesUpper, Flat, TableUnder, IsTable;
    FlatBound(m', s);
    if v < VPNS / 2 {
      FlatAfter(m, m', kernel, s, v);
    } else {
      UpperFlat(m', kernel, s, v);
      KernelOwnsNothingNew(m, free, m', free', kernel, v);
    }
  }

  lemma KernelOwnsNothingNew(m: Mem, free: set<nat>, m': Mem, free': set<nat>, kernel: nat, v: nat)
    requires KernelOp(m, free, m', free', kernel) && Owns(m', kernel, v)
    ensures var f := Flat(m', kernel)[v].frame; KernelPage(m, kernel, f) && OwnedBy(m', kernel, f)
  {
    hide TreeOwned, OnlyTree, Flat;
    assert OwnedBy(m', kernel, Flat(m', kernel)[v].frame);
  }

  lemma TableIsEither(m: Mem, m': Mem, kernel: nat, s: nat, f: nat)
    requires HalfAndHalf(m, m', kernel, s) && IsTable(m', s, f)
    ensures TableUnder(m, s, HALF, f) || IsTable(m', kernel, f)
  {
    var q :| IsPath(q) && Walk(m', s, q) == Some(f);
    assert if Under(q, HALF) then Walk(m, s, q) == Some(f) else Walk(m', kernel, q) == Some(f);
  }

  lemma OwnedIsNoTable(m: Mem, free: set<nat>, m': Mem, free': set<nat>, kernel: nat, s: nat, v: nat)
    requires KernelOp(m, free, m', free', kernel) && SpaceOk(m, free, kernel, s) && HalfAndHalf(m, m', kernel, s)
    requires LowerTablesKept(m, m', s) && SharesUpper(m', kernel, s) && Owns(m', s, v)
    ensures var f := Flat(m', s)[v].frame; IsPage(m', f) && f !in free' && !IsTable(m', s, f)
  {
    OwnsAfter(m, free, m', free', kernel, s, v);
    var f := Flat(m', s)[v].frame;
    hide HalfAndHalf, LowerTablesKept, SharesUpper, Flat, WellFormed;
    if IsTable(m', s, f) {
      TableIsEither(m, m', kernel, s, f);
    }
    if v < VPNS / 2 {
      LowerIsNotKernels(m, free, m', free', kernel, s, f);
      OwnedFrame(m, free, s, v);
      if TableUnder(m, s, HALF, f) { UnderIsTable(m, s, HALF, f); }
    } else {
      OwnedFrame(m', free', kernel, v);
      hide IsTable;
      if TableUnder(m, s, HALF, f) { LowerIsNotKernels(m, free, m', free', kernel, s, f); }
    }
  }

  lemma OwnershipAfter(m: Mem, free: set<nat>, m': Mem, free': set<nat>, kernel: nat, s: nat)
    requires KernelOp(m, free, m', free', kernel) && SpaceOk(m, free, kernel, s) && HalfAndHalf(m, m', kernel, s)
    requires LowerTablesKept(m, m', s) && SharesUpper(m', kernel, s)
    ensures OwnershipOk(m', s, free')
  {
    assert OwnershipOk(m, s, free) && OwnershipOk(m', kernel, free') && TreeOk(m, free, s);
    assert forall f :: IsPage(m, f) ==> IsPage(m', f);
    hide KernelOp, SpaceOk, HalfAndHalf, LowerTablesKept, SharesUpper, Flat, TableUnder, IsTable, Owns, LowerHalfPage;
    hide WellFormed, KernelPage;
    forall v: nat | Owns(m', s, v)
      ensures v in Flat(m', s)
      ensures var f := Flat(m', s)[v].frame; IsPage(m', f) && f !in free' && !IsTable(m', s, f)
    {
      OwnsAfter(m, free, m', free', kernel, s, v);
      OwnedIsNoTable(m, free, m', free', kernel, s, v);
    }
    forall v: nat, w: nat | Owns(m', s, v) && Owns(m', s, w) && v != w
      ensures v in Flat(m', s) && w in Flat(m', s) && Flat(m', s)[v].frame != Flat(m', s)[w].frame
    {
      OwnsAfter(m, free, m', free', kernel, s, v);
      OwnsAfter(m, free, m', free', kernel, s, w);
      if v < VPNS / 2 { LowerIsNotKernels(m, free, m', free', kernel, s, Flat(m', s)[v].frame); }
      if w < VPNS / 2 { LowerIsNotKernels(m, free, m', free', kernel, s, Flat(m', s)[w].frame); }
    }
  }

  lemma LowerAfter(m: Mem, free: set<nat>, m': Mem, free': set<nat>, kernel: nat, s: nat, f: nat)
    requires KernelOp(m, free, m', free', kernel) && SpaceOk(m, free, kernel, s) && HalfAndHalf(m, m', kernel, s)
    requires LowerTablesKept(m, m', s) && SharesUpper(m', kernel, s)
    ensures LowerHalfPage(m', s, f) <==> LowerHalfPage(m, s, f)
  {
    assert TableUnder(m', s, HALF, f) <==> TableUnder(m, s, HALF, f);
    hide KernelOp, SpaceOk, HalfAndHalf, LowerTablesKept, SharesUpper, Flat, TableUnder;
    forall v: nat | v < VPNS / 2
      ensures Owns(m', s, v) <==> Owns(m, s, v)
      ensures Owns(m', s, v) ==> Flat(m', s)[v] == Flat(m, s)[v]
    {
      FlatAfter(m, m', kernel, s, v);
    }
  }

  /** Below the middle nothing changes; from there on the kernel's map is everyone's. */
  ghost predicate FollowsKernel(m: Mem, m': Mem, kernel: nat, s: nat) {
    && (forall v :: v < VPNS / 2 ==>
          (v in Flat(m', s) <==> v in Flat(m, s)) && (v in Flat(m, s) ==> Flat(m', s)[v] == Flat(m, s)[v]))
    && (forall v :: VPNS / 2 <= v < VPNS ==>
          (v in Flat(m', s) <==> v in Flat(m', kernel))
          && (v in Flat(m', kernel) ==> Flat(m', s)[v] == Flat(m', kernel)[v]))
  }

  lemma SpaceFollows(m: Mem, free: set<nat>, m': Mem, free': set<nat>, kernel: nat, s: nat)
    requires KernelOp(m, free, m', free', kernel) && SpaceOk(m, free, kernel, s) && SameUpper(m, m', kernel)
    ensures SpaceOk(m', free', kernel, s) && FollowsKernel(m, m', kernel, s)
    ensures forall f :: LowerHalfPage(m', s, f) <==> LowerHalfPage(m, s, f)
  {
    hide LowerHalfPage, KernelPage, Flat, TreeOwned, KernelOp, LowerTablesKept, HalfAndHalf;
    LowerTablesAfter(m, free, m', free', kernel, s);
    assert SharesUpper(m', kernel, s);
    hide SharesUpper, SameUpper;
    WalksAfter(m, m', kernel, s);
    WellFormedAfter(m, free, m', free', kernel, s);
    OwnershipAfter(m, free, m', free', kernel, s);
    BothOwned(m', free', s);
    forall f ensures LowerHalfPage(m', s, f) <==> LowerHalfPage(m, s, f) {
      LowerAfter(m, free, m', free', kernel, s, f);
    }
    forall f | LowerHalfPage(m', s, f) ensures !KernelPage(m', kernel, f) {
      LowerIsNotKernels(m, free, m', free', kernel, s, f);
    }
    forall v: nat | v < VPNS / 2
      ensures (v in Flat(m', s) <==> v in Flat(m, s)) && (v in Flat(m, s) ==> Flat(m', s)[v] == Flat(m, s)[v])
    {
      FlatAfter(m, m', kernel, s, v);
    }
    forall v: nat | VPNS / 2 <= v < VPNS
      ensures v in Flat(m', s) <==> v in Flat(m', kernel)
      ensures v in Flat(m', kernel) ==> Flat(m', s)[v] == Flat(m', kernel)[v]
    {
      UpperFlat(m', kernel, s, v);
    }
  }

  lemma BothOwned(m: Mem, free: set<nat>, s: nat)
    requires TreeOk(m, free, s) && OwnershipOk(m, s, free)
    ensures TreeOwned(m, free, s)
  {
  }

  /** As long as the upper half of its root stays, whatever the kernel maps in its own tree every space maps as well. */
  lemma KernelOpKeeps(m: Mem, free: set<nat>, m': Mem, free': set<nat>, kernel: nat, roots: set<nat>)
    requires World(m, free, kernel, roots) && KernelOp(m, free, m', free', kernel) && SameUpper(m, m', kernel)
    ensures World(m', free', kernel, roots) && forall s :: s in roots ==> FollowsKernel(m, m', kernel, s)
  {
    hide LowerHalfPage, FollowsKernel, SpaceOk, SameUpper;
    forall s | s in roots
      ensures SpaceOk(m', free', kernel, s) && FollowsKernel(m, m', kernel, s)
      ensures forall f :: LowerHalfPage(m', s, f) <==> LowerHalfPage(m, s, f)
    {
      SpaceFollows(m, free, m', free', kernel, s);
    }
    assert TreeOwned(m', free', kernel);
    hide KernelOp, TreeOwned;
    forall s, t | s in roots && t in roots && s != t ensures Apart(m', s, t) {
      assert Apart(m, s, t);
      SpaceFollows(m, free, m', free', kernel, s);
      SpaceFollows(m, free, m', free', kernel, t);
    }
  }

  /** Conversely a new entry in the upper half of the kernel's root is in no space that was there before. */
  lemma NewEntryIsMissed(m: Mem, free: set<nat>, m': Mem, free': set<nat>, kernel: nat, roots: set<nat>, s: nat, v: nat)
    requires World(m, free, kernel, roots) && KernelOp(m, free, m', free', kernel) && s in roots
    requires VPNS / 2 <= v && v in Flat(m', kernel) && !m[kernel][TopIndex(v)].Present()
    ensures v !in Flat(m', s) && !World(m', free', kernel, roots)
  {
    FlatBound(m', kernel);
    assert SpaceOk(m, free, kernel, s);
    LowerTablesAfter(m, free, m', free', kernel, s);
    assert SharesUpper(m, kernel, s);
    hide World, KernelOp, SpaceOk, LowerTablesKept, Flat;
    if v in Flat(m', s) { TopIsPresent(m', s, v); }
    if World(m', free', kernel, roots) {
      WorldTree(m', free', kernel, roots, s, s);
      UpperFlat(m', kernel, s, v);
    }
  }

  lemma TopIsPresent(m: Mem, root: nat, v: nat)
    requires v in Flat(m, root)
    ensures v < VPNS && root in m && TopIndex(v) < |m[root]| && m[root][TopIndex(v)].Present()
  {
    WalkPrefix(m, root, TablePath(v), 1);
    WalkRoot(m, root);
    var p := TablePath(v)[..1];
    assert p == [TopIndex(v)] && p[..0] == [];
    assert Walk(m, root, p) == Follow(m, Some(root), TopIndex(v));
  }

  /** Every entry in the upper half of the root that the n pages from v start with is there already. */
  ghost predicate TopsThere(m: Mem, kernel: nat, v: nat, n: nat)
    requires IsPage(m, kernel)
  {
    forall k: nat :: k < n && TopIndex(After(v, k)) >= HALF ==> m[kernel][TopIndex(After(v, k))].Present()
  }

  lemma MapIsKernelOp(m: Mem, free: set<nat>, m': Mem, free': set<nat>, kernel: nat, v: nat, f: Frame, n: nat,
                      flags: Flags)
    requires TreeOwned(m, free, kernel) && TreeOk(m', free', kernel) && OnlyTree(m, free, m', free', kernel, ENTRIES)
    requires Flat(m', kernel) == MapRange(Flat(m, kernel), v, f, n, flags) && !Has(flags, OWNED)
    ensures KernelOp(m, free, m', free', kernel)
  {
    MappedOwnership(m, free, kernel, ENTRIES, m', free', v, f, n, flags);
    hide TreeOk, OwnershipOk, OnlyTree, Flat, MapRange, Has;
    forall g: nat | OwnedBy(m', kernel, g) ensures OwnedBy(m, kernel, g) {
      var w: nat :| Owns(m', kernel, w) && Flat(m', kernel)[w].frame == g;
      MapRangeOwned(Flat(m, kernel), v, f, n, flags, w);
      assert Owns(m, kernel, w);
    }
  }

  lemma TopsThereKept(m: Mem, m': Mem, kernel: nat, v: nat, n: nat)
    requires IsPage(m, kernel) && TopsKept(m, m', kernel, v, n) && TopsThere(m, kernel, v, n)
    ensures SameUpper(m, m', kernel)
  {
    forall i | HALF <= i < ENTRIES ensures m'[kernel][i] == m[kernel][i] {
      if StartsWith(v, n, i) {
        var k: nat :| k < n && TopIndex(After(v, k)) == i;
      }
    }
  }

  /** The roots of the spaces are as they were. */
  ghost predicate SameRoots(m: Mem, m': Mem, roots: set<nat>) {
    forall s :: s in roots ==> s in m && s in m' && m'[s] == m[s]
  }

  lemma RootsKept(m: Mem, free: set<nat>, m': Mem, free': set<nat>, kernel: nat, roots: set<nat>)
    requires World(m, free, kernel, roots) && KernelOp(m, free, m', free', kernel)
    ensures SameRoots(m, m', roots)
  {
    hide KernelOp, SpaceOk;
    forall s | s in roots ensures s in m && s in m' && m'[s] == m[s] {
      LowerTablesAfter(m, free, m', free', kernel, s);
    }
  }

  /** The exact condition: with spaces there, mapping a range in the kernel's tree keeps them all if and only if it
      starts with no new entry in the upper half of the root. */
  lemma KernelMapKeepsIff(m: Mem, free: set<nat>, m': Mem, free': set<nat>, kernel: nat, roots: set<nat>,
                          v: nat, f: Frame, n: nat, flags: Flags)
    requires World(m, free, kernel, roots) && IsPage(m, kernel) && KernelOp(m, free, m', free', kernel) && v < VPNS
    requires Flat(m', kernel) == MapRange(Flat(m, kernel), v, f, n, flags) && TopsKept(m, m', kernel, v, n)
    ensures World(m', free', kernel, roots) <==> roots == {} || TopsThere(m, kernel, v, n)
    ensures TopsThere(m, kernel, v, n) ==> forall s :: s in roots ==> FollowsKernel(m, m', kernel, s)
  {
    hide SpaceOk, FollowsKernel, TopsThere, MapRange, Flat, TopsKept;
    if TopsThere(m, kernel, v, n) {
      TopsThereKept(m, m', kernel, v, n);
      hide KernelOp;
      KernelOpKeeps(m, free, m', free', kernel, roots);
    } else if roots == {} {
      assert TreeOwned(m', free', kernel);
    } else {
      hide KernelOp;
      NewTopBreaks(m, free, m', free', kernel, roots, v, f, n, flags);
    }
  }

  lemma NewTopBreaks(m: Mem, free: set<nat>, m': Mem, free': set<nat>, kernel: nat, roots: set<nat>,
                     v: nat, f: Frame, n: nat, flags: Flags)
    requires World(m, free, kernel, roots) && IsPage(m, kernel) && KernelOp(m, free, m', free', kernel) && v < VPNS
    requires Flat(m', kernel) == MapRange(Flat(m, kernel), v, f, n, flags) && roots != {} && !TopsThere(m, kernel, v, n)
    ensures !World(m', free', kernel, roots)
  {
    hide World, KernelOp, MapRange, Flat;
    var s :| s in roots;
    var k: nat :| k < n && TopIndex(After(v, k)) >= HALF && !m[kernel][TopIndex(After(v, k))].Present();
    var w := After(v, k);
    assert Hits(v, n, w);
    MapRangeMapped(Flat(m, kernel), v, f, n, flags, w);
    assert w >= VPNS / 2;
    NewEntryIsMissed(m, free, m', free', kernel, roots, s, w);
  }

  // ---------- The kernel ----------

  /** The kernel's tree, and the spaces that were created and not yet torn down. */
  class Kernel {
    const m: Machine
    var kernelPml: nat
    ghost var roots: set<nat>

    ghost predicate Valid()
      reads this, m
    {
      World(m.mem, m.free, kernelPml, roots)
    }

    /** The start of vmm_load_memory_map: the kernel's root is a zeroed page. */
    constructor (m: Machine, page: nat)
      requires m.Valid() && IsPage(m.mem, page) && page !in m.free && page < FRAMES
      modifies m`mem
      ensures Valid() && this.m == m && kernelPml == page && roots == {} && Flat(m.mem, kernelPml) == map[]
    {
      this.m, kernelPml, roots := m, page, {};
      new;
      m.mem := m.mem[page := ZeroPage()];
      ZeroTree(m.mem, m.free, page);
    }

    /** vmm_kernel_map: without an address the range goes to its higher-half alias.  Every space follows, if and only if
        the range starts with no new entry in the upper half of the root. */
    method KernelMap(virtAddr: nat, physAddr: nat, length: nat) returns (r: Option<nat>)
      requires Valid() && virtAddr < ADDRESSES && physAddr < ADDRESSES
      modifies m`mem, m`free
      ensures r.None? ==> m.free == {}
      ensures r.Some? ==> r.value == if virtAddr == 0 then (physAddr + HIGHER_HALF_BASE) % ADDRESSES else virtAddr
      ensures r.Some? ==>
        var v, f, n := Vpn(r.value), FrameOf(physAddr), SizeInPages(length);
        && Flat(m.mem, kernelPml) == MapRange(old(Flat(m.mem, kernelPml)), v, f, n, WRITE | GLOBAL)
        && IsPage(old(m.mem), kernelPml)
        && (Valid() <==> roots == {} || TopsThere(old(m.mem), kernelPml, v, n))
        && (TopsThere(old(m.mem), kernelPml, v, n) ==>
              forall s :: s in roots ==> FollowsKernel(old(m.mem), m.mem, kernelPml, s))
        && SameRoots(old(m.mem), m.mem, roots)
    {
      KernelIsPage();
      hide Flat, TreeOk, OwnershipOk, OnlyTree, Vpn, SizeInPages, SpaceOk, MapRange, TopsKept, KernelOp, FollowsKernel;
      hide IsPage, TopsThere, FrameOf, Has;
      var a, n := if virtAddr == 0 then (physAddr + HIGHER_HALF_BASE) % ADDRESSES else virtAddr, SizeInPages(length);
      TopsUnder(Vpn(a), n);
      var ok := m.Map(kernelPml, ENTRIES, a, physAddr, n, WRITE | GLOBAL);
      if !ok { return None; }
      KernelFlags();
      MapIsKernelOp(old(m.mem), old(m.free), m.mem, m.free, kernelPml, Vpn(a), FrameOf(physAddr), n, WRITE | GLOBAL);
      RootsKept(old(m.mem), old(m.free), m.mem, m.free, kernelPml, roots);
      KernelMapKeepsIff(old(m.mem), old(m.free), m.mem, m.free, kernelPml, roots,
                        Vpn(a), FrameOf(physAddr), n, WRITE | GLOBAL);
      return Some(a);
    }

    lemma KernelIsPage()
      requires Valid()
      ensures IsPage(m.mem, kernelPml)
    {
      RootNotFree(m.mem, m.free, kernelPml);
    }

    /** space_init. */
    method NewSpace(space: Space) returns (ok: bool)
      requires Valid() && space.m == m
      modifies this`roots, space, m`mem, m`free
      ensures Valid() && (ok <==> old(m.free) != {})
      ensures ok ==> space.Valid() && space.pml in old(m.free) && roots == old(roots) + {space.pml}
      ensures !ok ==> roots == old(roots) && unchanged(m)
      ensures Flat(m.mem, kernelPml) == old(Flat(m.mem, kernelPml))
      ensures forall s :: s in old(roots) ==> Flat(m.mem, s) == old(Flat(m.mem, s))
      ensures ok ==> SharesUpper(m.mem, kernelPml, space.pml) && m.mem[kernelPml] == old(m.mem)[kernelPml]
    {
      KernelIsPage();
      RootNotFree(m.mem, m.free, kernelPml);
      hide Flat, WellFormed, OwnershipOk, SpaceOk, IsTable, FreePagesOk;
      ok := space.Init(kernelPml);
      if ok {
        WorldGrows(old(m.mem), old(m.free), m.mem, m.free, kernelPml, roots, space.pml);
        roots := roots + {space.pml};
      }
    }

    /** space_cleanup. */
    method EndSpace(space: Space)
      requires Valid() && space.m == m && space.Valid() && space.pml in roots
      modifies this`roots, m
      ensures Valid() && roots == old(roots) - {space.pml}
      ensures Flat(m.mem, kernelPml) == old(Flat(m.mem, kernelPml))
      ensures forall s :: s in roots ==> Flat(m.mem, s) == old(Flat(m.mem, s))
    {
      hide Flat, TreeOk, OwnershipOk, LowerHalfPage, Once, World, IsPage, FreePagesOk;
      ghost var s := space.Cleanup();
      OthersKept(old(m.mem), old(m.free), m.mem, m.free, kernelPml, roots, space.pml);
      roots := roots - {space.pml};
    }

    /** vmm_alloc on a range of the lower half. */
    method VmmAlloc(space: Space, virtAddr: nat, length: nat, prot: Prot) returns (r: Outcome, ghost taken: seq<Frame>)
      requires Valid() && space.m == m && space.Valid() && space.pml in roots && virtAddr < ADDRESSES
      requires length < ADDRESSES
      modifies space`freeAddress, m`mem, m`free
      ensures r.Failed? || r.Hang? ==> unchanged(m)
      ensures r.Done? ==>
        var base := if virtAddr == 0 then r.addr else virtAddr;
        && prot.read && Flat(m.mem, space.pml) ==
             AllocRange(old(Flat(m.mem, space.pml)), Vpn(base), taken, AllocFlags(prot))
        && (RangeUnder(Vpn(base), PageCount(base, length), HALF) ==>
              && Valid() && space.Valid() && Flat(m.mem, kernelPml) == old(Flat(m.mem, kernelPml))
              && forall s :: s in roots && s != space.pml ==> Flat(m.mem, s) == old(Flat(m.mem, s)))
    {
      hide Flat, TreeOk, OwnershipOk, OnlyTree, World, AllocRange, Vpn, PageCount, SearchEnds, Chosen, AllMapped, Once;
      hide LowerOnly, RangeUnder;
      r, taken := Alloc(space, virtAddr, length, prot);
      if r.Done? {
        ghost var base := if virtAddr == 0 then r.addr else virtAddr;
        if RangeUnder(Vpn(base), PageCount(base, length), HALF) {
          AllocIsLower(old(m.mem), old(m.free), m.mem, m.free, space.pml, Vpn(base), taken,
                       AllocFlags(prot));
          WorldKept(old(m.mem), old(m.free), m.mem, m.free, kernelPml, roots, space.pml);
        }
      }
    }

    /** vmm_map on a range of the lower half. */
    method VmmMap(space: Space, virtAddr: nat, physAddr: nat, length: nat, prot: Prot) returns (r: Outcome)
      requires Valid() && space.m == m && space.Valid() && space.pml in roots
      requires virtAddr < ADDRESSES && physAddr < ADDRESSES && length < ADDRESSES
      modifies space`freeAddress, m`mem, m`free
      ensures r.Failed? || r.Hang? ==> unchanged(m)
      ensures r.Done? ==>
        var base := if virtAddr == 0 then r.addr else virtAddr; var n := PageCount(base, length);
        && prot.read && Flat(m.mem, space.pml) ==
             MapRange(old(Flat(m.mem, space.pml)), Vpn(base), FrameOf(physAddr), n, ProtToFlags(prot).value)
        && (RangeUnder(Vpn(base), n, HALF) ==>
              && Valid() && space.Valid() && Flat(m.mem, kernelPml) == old(Flat(m.mem, kernelPml))
              && forall s :: s in roots && s != space.pml ==> Flat(m.mem, s) == old(Flat(m.mem, s)))
    {
      if prot.read { ProtFlags(prot); }
      hide Flat, TreeOk, OwnershipOk, OnlyTree, World, MapRange;
      hide Vpn, PageCount, SearchEnds, Chosen, AllMapped, FrameOf, Has;
      hide LowerOnly, RangeUnder;
      r := MapPhysical(space, virtAddr, physAddr, length, prot);
      if r.Done? {
        ghost var base := if virtAddr == 0 then r.addr else virtAddr;
        if RangeUnder(Vpn(base), PageCount(base, length), HALF) {
          MapIsLower(old(m.mem), old(m.free), m.mem, m.free, space.pml,
                     Vpn(base), FrameOf(physAddr), PageCount(base, length), ProtToFlags(prot).value);
          WorldKept(old(m.mem), old(m.free), m.mem, m.free, kernelPml, roots, space.pml);
        }
      }
    }

    /** vmm_unmap on a range of the lower half. */
    method VmmUnmap(space: Space, virtAddr: nat, length: nat) returns (r: Outcome)
      requires Valid() && space.m == m && space.Valid() && space.pml in roots && virtAddr < ADDRESSES
      requires length < ADDRESSES
      modifies m
      ensures space.Valid() && (r.Failed? ==> unchanged(m))
      ensures RangeUnder(Vpn(virtAddr), PageCount(virtAddr, length), HALF) ==>
        && Valid() && Flat(m.mem, kernelPml) == old(Flat(m.mem, kernelPml))
        && forall s :: s in roots && s != space.pml ==> Flat(m.mem, s) == old(Flat(m.mem, s))
      ensures var flat := old(Flat(m.mem, space.pml)); var v, n := Vpn(virtAddr), PageCount(virtAddr, length);
              Flat(m.mem, space.pml) == if AllMapped(flat, v, n) then UnmapRange(flat, v, n) else flat
    {
      hide Flat, TreeOk, OwnershipOk, OnlyLeaves, World, UnmapRange;
      hide OwnedInRange, Vpn, PageCount, AllMapped, LowerOnly, RangeUnder;
      r := Unmap(space, virtAddr, length);
      if r.Done? && RangeUnder(Vpn(virtAddr), PageCount(virtAddr, length), HALF) {
        UnmapIsLower(old(m.mem), old(m.free), m.mem, m.free, space.pml, Vpn(virtAddr), PageCount(virtAddr, length));
        WorldKept(old(m.mem), old(m.free), m.mem, m.free, kernelPml, roots, space.pml);
      }
    }

    /** vmm_protect on a range of the lower half. */
    method VmmProtect(space: Space, virtAddr: nat, length: nat, prot: Prot) returns (r: Outcome)
      requires Valid() && space.m == m && space.Valid() && space.pml in roots && virtAddr < ADDRESSES
      requires length < ADDRESSES
      modifies m
      ensures space.Valid() && (r.Failed? ==> unchanged(m))
      ensures RangeUnder(Vpn(virtAddr), PageCount(virtAddr, length), HALF) ==>
        && Valid() && Flat(m.mem, kernelPml) == old(Flat(m.mem, kernelPml))
        && forall s :: s in roots && s != space.pml ==> Flat(m.mem, s) == old(Flat(m.mem, s))
      ensures var flat := old(Flat(m.mem, space.pml)); var v, n := Vpn(virtAddr), PageCount(virtAddr, length);
              Flat(m.mem, space.pml) ==
              if prot.read && AllMapped(flat, v, n) then ReflagRange(flat, v, n, ProtToFlags(prot).value) else flat
    {
      if prot.read { ProtFlags(prot); }
      hide Flat, TreeOk, OwnershipOk, OnlyLeaves, World, ReflagRange;
      hide Vpn, PageCount, AllMapped, Has, LowerOnly, RangeUnder;
      r := Protect(space, virtAddr, length, prot);
      if r.Done? && RangeUnder(Vpn(virtAddr), PageCount(virtAddr, length), HALF) {
        ProtectIsLower(old(m.mem), m.free, m.mem, space.pml, Vpn(virtAddr), PageCount(virtAddr, length),
                       ProtToFlags(prot).value);
        WorldKept(old(m.mem), m.free, m.mem, m.free, kernelPml, roots, space.pml);
      }
    }
  }

  lemma KernelFlags()
    ensures !Has(WRITE | GLOBAL, OWNED)
  {
  }

  /** A page whose entry in the upper half of the kernel's root is absent. */
  predicate Unopened(m: Mem, kernel: nat, w: nat)
    requires IsPage(m, kernel)
  {
    w < VPNS && TopIndex(w) >= HALF && !m[kernel][TopIndex(w)].Present()
  }

  /** Whatever the kernel maps under an absent entry of its root, none of the spaces that are there then sees; and from
      then on they do not share the upper half with it any more. */
  method MapAfterSpace(k: Kernel, virtAddr: nat, physAddr: nat, length: nat) returns (r: Option<nat>)
    requires k.Valid() && virtAddr < ADDRESSES && physAddr < ADDRESSES
    modifies k.m`mem, k.m`free
    ensures r.None? ==> k.m.free == {}
    ensures IsPage(old(k.m.mem), k.kernelPml)
    ensures r.Some? ==> forall w ::
      Hits(Vpn(r.value), SizeInPages(length), w) && Unopened(old(k.m.mem), k.kernelPml, w) ==>
        && w in Flat(k.m.mem, k.kernelPml) && (forall s :: s in k.roots ==> w !in Flat(k.m.mem, s))
        && (k.Valid() ==> k.roots == {})
  {
    hide World, Flat, TreeOk, OwnershipOk, Vpn, SizeInPages, SharesUpper, FollowsKernel, MapRange, TopIndex, Hits;
    k.KernelIsPage();
    ghost var m, kernel := k.m.mem, k.kernelPml;
    ghost var free := k.m.free;
    r := k.KernelMap(virtAddr, physAddr, length);
    if r.None? { return; }
    ghost var v, n, f := Vpn(r.value), SizeInPages(length), FrameOf(physAddr);
    forall w | Hits(v, n, w) && Unopened(m, kernel, w)
      ensures w in Flat(k.m.mem, kernel) && (forall s :: s in k.roots ==> w !in Flat(k.m.mem, s))
      ensures k.Valid() ==> k.roots == {}
    {
      MapRangeMapped(Flat(m, kernel), v, f, n, WRITE | GLOBAL, w);
      UnopenedTop(m, kernel, v, n, w);
      forall s | s in k.roots ensures w !in Flat(k.m.mem, s) {
        UnseenPage(m, free, k.m.mem, kernel, k.roots, s, w);
      }
    }
  }

  lemma UnopenedTop(m: Mem, kernel: nat, v: nat, n: nat, w: nat)
    requires IsPage(m, kernel) && Hits(v, n, w) && Unopened(m, kernel, w)
    ensures !TopsThere(m, kernel, v, n)
  {
    hide TopIndex, After;
    var k: nat :| k < n && After(v, k) == w;
  }

  lemma UnseenPage(m: Mem, free: set<nat>, m': Mem, kernel: nat, roots: set<nat>, s: nat, w: nat)
    requires World(m, free, kernel, roots) && s in roots && SameRoots(m, m', roots)
    requires IsPage(m, kernel) && Unopened(m, kernel, w)
    ensures w !in Flat(m', s)
  {
    hide TreeOk, OwnershipOk, Flat, SharesUpper;
    SharedEntry(m, kernel, s, TopIndex(w));
    if w in Flat(m', s) { TopIsPresent(m', s, w); }
  }

  lemma SharedEntry(m: Mem, kernel: nat, s: nat, i: nat)
    requires SharesUpper(m, kernel, s) && HALF <= i < ENTRIES
    ensures kernel in m && s in m && |m[kernel]| == |m[s]| == ENTRIES && m[s][i] == m[kernel][i]
  {
  }
}
