/**
 Address spaces: creating one that shares the kernel half, and tearing one down with the recursive free.
 */
module AddressSpace {
  import opened Options
  import opened Paging
  import opened FlatRanges
  import opened PageTable
  import opened PageTree

  // ---------- The recursive free ----------

  /** Pages that may be given back one after the other. */
  ghost predicate CanFree(mem: Mem, free: set<nat>, s: seq<nat>) {
    Once(s) && forall f :: f in s ==> IsPage(mem, f) && f < FRAMES && f !in free
  }

  /** From m to m' the pages in s were given back, and only free pages changed. */
  ghost predicate Released(m: Mem, free: set<nat>, m': Mem, free': set<nat>, s: seq<nat>) {
    && (forall f :: f in free' <==> f in free || (f in s && f >= FIRST_STACK_FRAME))
    && m'.Keys == m.Keys
    && forall f :: f in m ==> |m'[f]| == |m[f]| && (f !in free' ==> m'[f] == m[f])
  }

  lemma ReleasedTrans(a: Mem, fa: set<nat>, b: Mem, fb: set<nat>, c: Mem, fc: set<nat>, s: seq<nat>, t: seq<nat>)
    requires Released(a, fa, b, fb, s) && Released(b, fb, c, fc, t)
    ensures Released(a, fa, c, fc, s + t)
  {
  }

  /** After the pages in done are given back, the next ones still are what they were and can be given back. */
  lemma StillThere(m: Mem, free: set<nat>, m': Mem, free': set<nat>, done: seq<nat>, next: seq<nat>)
    requires Released(m, free, m', free', done) && CanFree(m, free, done + next)
    ensures CanFree(m', free', next) && forall f :: f in next ==> f in m' && m'[f] == m[f] && f !in free'
  {
    OnceParts(done, next);
    forall f | f in next ensures f in done + next && f !in done {
    }
  }

  /** pml_free_level: gives back exactly FreeList, in order, although each give-back may rewrite free pages. */
  method FreeLevel(m: Machine, table: nat, level: int)
    requires m.Valid() && level <= 4 && CanFree(m.mem, m.free, FreeList(m.mem, table, level))
    modifies m
    ensures m.Valid() && m.freed == old(m.freed) + FreeList(old(m.mem), table, level)
    ensures Released(old(m.mem), old(m.free), m.mem, m.free, FreeList(old(m.mem), table, level))
    decreases level + 1, 1
  {
    hide Released, CanFree, Once, FreeList, FreeFrom, FreeEntry, FreePagesOk, IsPage;
    if level < 0 {
      NoList(m.mem, m.free, table, level);
      return;
    }
    ghost var mem0, free0 := m.mem, m.free;
    StartList(mem0, free0, table, level);
    ghost var all := FreeFrom(mem0, table, level, 0);
    ghost var done: seq<nat> := [];
    for i := 0 to ENTRIES
      invariant m.Valid() && m.freed == old(m.freed) + done
      invariant all == done + FreeFrom(mem0, table, level, i)
      invariant Released(mem0, free0, m.mem, m.free, done)
    {
      SplitList(mem0, free0, table, level, i, all, done);
      FreeOne(m, table, level, i, mem0, free0, done);
      done := done + FreeEntry(mem0, table, level, i);
      assert m.freed == old(m.freed) + done;
    }
    EndList(mem0, free0, m.mem, m.free, table, level, all, done);
    ghost var before, beforeFree := m.mem, m.free;
    m.PmmFree(table);
    ReleasedOne(before, beforeFree, m.mem, m.free, table);
    ReleasedTrans(mem0, free0, before, beforeFree, m.mem, m.free, done, [table]);
  }

  /** One turn of the loop, after the pages in done were given back since memory mem0. */
  method FreeOne(m: Machine, table: nat, level: int, i: nat, ghost mem0: Mem, ghost free0: set<nat>,
                 ghost done: seq<nat>)
    requires m.Valid() && 0 <= level <= 4 && i < ENTRIES && IsPage(mem0, table)
    requires CanFree(mem0, free0, done + FreeEntry(mem0, table, level, i)) && CanFree(mem0, free0, done + [table])
    requires Released(mem0, free0, m.mem, m.free, done)
    modifies m
    ensures m.Valid() && m.freed == old(m.freed) + FreeEntry(mem0, table, level, i)
    ensures Released(mem0, free0, m.mem, m.free, done + FreeEntry(mem0, table, level, i))
    decreases level + 1, 0
  {
    hide Released, Once, FreePagesOk;
    ghost var part := FreeEntry(mem0, table, level, i);
    StillThere(mem0, free0, m.mem, m.free, done, part);
    StillThere(mem0, free0, m.mem, m.free, done, [table]);
    assert table in [table];
    var entry := m.mem[table][i];
    if Follows(entry, level) {
      ghost var before, beforeFree := m.mem, m.free;
      FreeListFrame(mem0, m.mem, entry.frame, level - 1);
      FreeLevel(m, entry.frame, level - 1);
      ReleasedTrans(mem0, free0, before, beforeFree, m.mem, m.free, done, part);
    } else {
      assert done + part == done;
    }
  }

  lemma NoList(mem: Mem, free: set<nat>, table: nat, level: int)
    requires level < 0
    ensures FreeList(mem, table, level) == [] && Released(mem, free, mem, free, [])
  {
  }

  lemma StartList(mem: Mem, free: set<nat>, table: nat, level: int)
    requires level >= 0 && CanFree(mem, free, FreeList(mem, table, level))
    ensures IsPage(mem, table) && FreeList(mem, table, level) == FreeFrom(mem, table, level, 0) + [table]
    ensures Released(mem, free, mem, free, [])
  {
    assert table in FreeList(mem, table, level);
  }

  lemma EndList(mem: Mem, free: set<nat>, m': Mem, free': set<nat>, table: nat, level: int, all: seq<nat>,
                done: seq<nat>)
    requires level >= 0 && IsPage(mem, table) && all == done + FreeFrom(mem, table, level, ENTRIES)
    requires CanFree(mem, free, all + [table]) && Released(mem, free, m', free', done)
    ensures all == done && IsPage(m', table) && table < FRAMES && table !in free'
  {
    assert all == done;
    StillThere(mem, free, m', free', done, [table]);
    assert table in [table];
  }

  lemma ReleasedOne(m: Mem, free: set<nat>, m': Mem, free': set<nat>, f: nat)
    requires free' == (if f < FIRST_STACK_FRAME then free else free + {f}) && m'.Keys == m.Keys
    requires forall t :: t in m ==> (t !in free' ==> m'[t] == m[t]) && |m'[t]| == |m[t]|
    ensures Released(m, free, m', free', [f])
  {
  }

  /** What is given back next is disjoint from what was given back already. */
  lemma SplitList(mem: Mem, free: set<nat>, table: nat, level: int, i: nat, all: seq<nat>, done: seq<nat>)
    requires level >= 0 && IsPage(mem, table) && i < ENTRIES
    requires all == done + FreeFrom(mem, table, level, i) && CanFree(mem, free, all + [table])
    ensures CanFree(mem, free, done + FreeEntry(mem, table, level, i)) && CanFree(mem, free, done + [table])
    ensures all == (done + FreeEntry(mem, table, level, i)) + FreeFrom(mem, table, level, i + 1)
  {
    var part, rest := FreeEntry(mem, table, level, i), FreeFrom(mem, table, level, i + 1);
    assert all + [table] == (done + part) + (rest + [table]);
    OnceParts(done + part, rest + [table]);
    OnceParts(done, part);
    OnceParts(all, [table]);
    OnceParts(done, part + rest);
    OnceConcat(done, [table]);
    assert forall f :: f in done + part ==> f in all + [table];
    assert forall f :: f in done + [table] ==> f in all + [table];
  }

  // ---------- Half a root ----------

  const HALF: nat := ENTRIES / 2

  /** Page r holds entries lo to hi of the root k, and zero elsewhere. */
  predicate KeepsOnly(mem: Mem, k: nat, mem': Mem, r: nat, lo: nat, hi: nat) {
    && IsPage(mem, k) && IsPage(mem', r) && mem' == mem[r := mem'[r]]
    && forall i :: 0 <= i < ENTRIES ==> mem'[r][i] == if lo <= i < hi then mem[k][i] else ZERO
  }

  predicate InHalf(p: seq<nat>, lo: nat, hi: nat) { p == [] || lo <= p[0] < hi }

  /** The walks from such a page are the kept ones of the root it was taken from. */
  lemma {:induction false} HalfWalk(mem: Mem, k: nat, mem': Mem, r: nat, lo: nat, hi: nat, q: seq<nat>)
    requires TablesArePages(mem, k) && TablesDisjoint(mem, k) && KeepsOnly(mem, k, mem', r, lo, hi)
    requires (r == k || !IsTable(mem, k, r)) && IsPath(q)
    ensures Walk(mem', r, q) == if q == [] then Some(r) else if InHalf(q, lo, hi) then Walk(mem, k, q) else None
  {
    if |q| > 1 {
      HalfWalk(mem, k, mem', r, lo, hi, q[..|q|-1]);
      assert q[..|q|-1][0] == q[0];
      if Walk(mem, k, q[..|q|-1]).Some? {
        var t := Walk(mem, k, q[..|q|-1]).value;
        assert IsTable(mem, k, t);
        assert t != k by { assert Walk(mem, k, []) == Some(k); }
      }
    } else if |q| == 1 {
      assert q[..0] == [];
      assert Walk(mem, k, q) == Follow(mem, Some(k), q[0]);
      assert Walk(mem', r, q) == Follow(mem', Some(r), q[0]);
    }
  }

  ghost predicate HalfWalks(mem: Mem, k: nat, mem': Mem, r: nat, lo: nat, hi: nat) {
    forall q :: IsPath(q) ==>
      Walk(mem', r, q) == if q == [] then Some(r) else if InHalf(q, lo, hi) then Walk(mem, k, q) else None
  }

  lemma HalfWellFormed(mem: Mem, k: nat, mem': Mem, r: nat, lo: nat, hi: nat)
    requires WellFormed(mem, k) && KeepsOnly(mem, k, mem', r, lo, hi) && (r == k || !IsTable(mem, k, r))
    ensures WellFormed(mem', r) && HalfWalks(mem, k, mem', r, lo, hi)
  {
    forall q | IsPath(q)
      ensures Walk(mem', r, q) == if q == [] then Some(r) else if InHalf(q, lo, hi) then Walk(mem, k, q) else None
    {
      HalfWalk(mem, k, mem', r, lo, hi, q);
    }
    assert Walk(mem, k, []) == Some(k);
    assert GrantsAll(mem[k], true);
    forall q | IsPath(q) && q != [] && Walk(mem', r, q).Some?
      ensures Walk(mem', r, q).value != r && Walk(mem', r, q) == Walk(mem, k, q)
    {
      assert IsTable(mem, k, Walk(mem, k, q).value);
    }
  }

  lemma HalfTable(mem: Mem, k: nat, mem': Mem, r: nat, q: seq<nat>)
    requires TablesArePages(mem, k) && TablesDisjoint(mem, k) && r in mem' && mem' == mem[r := mem'[r]]
    requires (r == k || !IsTable(mem, k, r)) && IsPath(q) && q != [] && Walk(mem, k, q).Some?
    ensures var t := Walk(mem, k, q).value; IsPage(mem', t) && IsPage(mem, t) && mem'[t] == mem[t]
  {
    WalkRoot(mem, k);
    assert IsTable(mem, k, Walk(mem, k, q).value);
  }

  /** The flat map of such a page is the kept part of the flat map of the root it was taken from. */
  lemma HalfFlat(mem: Mem, k: nat, mem': Mem, r: nat, lo: nat, hi: nat, v: nat)
    requires WellFormed(mem, k) && KeepsOnly(mem, k, mem', r, lo, hi) && HalfWalks(mem, k, mem', r, lo, hi)
    requires (r == k || !IsTable(mem, k, r)) && v < VPNS
    ensures v in Flat(mem', r) <==> v in Flat(mem, k) && lo <= v / 0x800_0000 < hi
    ensures v in Flat(mem', r) ==> Flat(mem', r)[v] == Flat(mem, k)[v]
  {
    var q := TablePath(v);
    assert q[0] == v / 0x800_0000;
    HalfMapped(mem, k, mem', r, lo, hi, v);
    hide Mapped, Leaf, HalfWalks, KeepsOnly, WellFormed, TablePath;
  }

  lemma HalfMapped(mem: Mem, k: nat, mem': Mem, r: nat, lo: nat, hi: nat, v: nat)
    requires WellFormed(mem, k) && KeepsOnly(mem, k, mem', r, lo, hi) && HalfWalks(mem, k, mem', r, lo, hi)
    requires (r == k || !IsTable(mem, k, r)) && v < VPNS
    ensures Mapped(mem', r, v) <==> Mapped(mem, k, v) && lo <= TablePath(v)[0] < hi
    ensures Mapped(mem', r, v) ==> Leaf(mem', r, v) == Leaf(mem, k, v)
  {
    var q := TablePath(v);
    assert Walk(mem', r, q) == if InHalf(q, lo, hi) then Walk(mem, k, q) else None;
    if Walk(mem, k, q).Some? { HalfTable(mem, k, mem', r, q); }
    hide HalfWalks, Walk, IsTable, TablePath;
  }

  // ---------- What teardown owes ----------

  /** A table reached through the lower half of the root (the root included), or a page owned there. */
  ghost predicate LowerHalfPage(mem: Mem, root: nat, f: nat) {
    || TableUnder(mem, root, HALF, f)
    || (exists v: nat :: v < VPNS / 2 && Owns(mem, root, v) && Flat(mem, root)[v].frame == f)
  }

  /** The list the recursive free walks once the upper half is cleared: each lower-half page once, and no other. */
  lemma CleanupList(mem: Mem, free: set<nat>, mem': Mem, root: nat)
    requires TreeOk(mem, free, root) && OwnershipOk(mem, root, free) && root < FRAMES
    requires KeepsOnly(mem, root, mem', root, 0, HALF)
    ensures CanFree(mem', free, FreeList(mem', root, 4))
    ensures forall f :: f in FreeList(mem', root, 4) <==> LowerHalfPage(mem, root, f)
  {
    hide Flat, WellFormed, KeepsOnly, HalfWalks, OwnershipOk, Once, FreeList, NodeAt, TreeOk, LowerHalfPage, NodesOk;
    assert WellFormed(mem, root) by { TreeWellFormed(mem, free, root); }
    HalfWellFormed(mem, root, mem', root, 0, HALF);
    HalfTables(mem, mem', root);
    HalfOwnership(mem, free, mem', root);
    NodesDistinct(mem', root, free);
    NodeRoot(mem', root);
    FreeListNodes(mem', root, []);
    forall f | f in FreeList(mem', root, 4)
      ensures LowerHalfPage(mem, root, f) && IsPage(mem', f) && f < FRAMES && f !in free
    {
      if f == root {
        NodeIsLower(mem, free, mem', root, []);
      } else {
        var q :| IsNodePath(q) && 0 < |q| && q[..0] == [] && q[0] >= 0 && NodeAt(mem', root, q) == Some(f);
        NodeIsLower(mem, free, mem', root, q);
      }
    }
    forall f: nat | LowerHalfPage(mem, root, f) ensures f in FreeList(mem', root, 4) {
      var q := LowerIsNode(mem, free, mem', root, f);
      NodeInFreeList(mem', root, [], q);
    }
  }

  lemma TreeWellFormed(mem: Mem, free: set<nat>, root: nat)
    requires TreeOk(mem, free, root)
    ensures WellFormed(mem, root)
  {
  }

  lemma HalfTables(mem: Mem, mem': Mem, root: nat)
    requires WellFormed(mem, root) && KeepsOnly(mem, root, mem', root, 0, HALF)
    requires HalfWalks(mem, root, mem', root, 0, HALF)
    ensures forall f :: IsTable(mem', root, f) ==> IsTable(mem, root, f)
  {
    forall f: nat | IsTable(mem', root, f) ensures IsTable(mem, root, f) {
      var q :| IsPath(q) && Walk(mem', root, q) == Some(f);
      assert Walk(mem, root, q) == Some(f);
    }
  }

  lemma HalfOwns(mem: Mem, mem': Mem, root: nat, v: nat)
    requires WellFormed(mem, root) && KeepsOnly(mem, root, mem', root, 0, HALF)
    requires HalfWalks(mem, root, mem', root, 0, HALF)
    ensures Owns(mem', root, v) <==> Owns(mem, root, v) && v < VPNS / 2
    ensures Owns(mem', root, v) ==> Flat(mem', root)[v] == Flat(mem, root)[v]
  {
    if v < VPNS {
      HalfFlat(mem, root, mem', root, 0, HALF, v);
      assert 0 <= v / 0x800_0000 < HALF <==> v < VPNS / 2;
    }
    FlatBound(mem, root);
    FlatBound(mem', root);
    hide Flat, WellFormed, KeepsOnly, HalfWalks, Has;
  }

  lemma HalfOwnership(mem: Mem, free: set<nat>, mem': Mem, root: nat)
    requires WellFormed(mem, root) && OwnershipOk(mem, root, free)
    requires KeepsOnly(mem, root, mem', root, 0, HALF) && HalfWalks(mem, root, mem', root, 0, HALF)
    requires forall f :: IsTable(mem', root, f) ==> IsTable(mem, root, f)
    ensures OwnershipOk(mem', root, free)
  {
    hide IsTable, Flat;
    forall v: nat ensures Owns(mem', root, v) ==> Owns(mem, root, v) && Flat(mem', root)[v] == Flat(mem, root)[v] {
      HalfOwns(mem, mem', root, v);
    }
  }

  lemma NodeIsLower(mem: Mem, free: set<nat>, mem': Mem, root: nat, q: seq<nat>)
    requires TreeOk(mem, free, root) && OwnershipOk(mem, root, free) && root < FRAMES
    requires KeepsOnly(mem, root, mem', root, 0, HALF) && HalfWalks(mem, root, mem', root, 0, HALF)
    requires WellFormed(mem', root)
    requires IsNodePath(q) && NodeAt(mem', root, q).Some?
    ensures var f := NodeAt(mem', root, q).value;
      LowerHalfPage(mem, root, f) && IsPage(mem', f) && f < FRAMES && f !in free
  {
    var f := NodeAt(mem', root, q).value;
    if |q| < 4 {
      assert Walk(mem, root, q) == Some(f) && Under(q, HALF);
      assert IsTable(mem, root, f);
      TableFrames(mem, root, q);
    } else {
      OwnedNode(mem', root, q);
      HalfOwns(mem, mem', root, VpnAt(q));
    }
  }

  lemma TableFrames(mem: Mem, root: nat, q: seq<nat>)
    requires root < FRAMES && Walk(mem, root, q).Some?
    ensures Walk(mem, root, q).value < FRAMES
  {
  }

  lemma LowerIsNode(mem: Mem, free: set<nat>, mem': Mem, root: nat, f: nat) returns (q: seq<nat>)
    requires TreeOk(mem, free, root) && LowerHalfPage(mem, root, f)
    requires KeepsOnly(mem, root, mem', root, 0, HALF) && HalfWalks(mem, root, mem', root, 0, HALF)
    requires WellFormed(mem', root)
    ensures IsNodePath(q) && NodeAt(mem', root, q) == Some(f)
  {
    hide TreeOk, Flat, KeepsOnly, TablesDisjoint, ContentsOk, VpnAt, PathAt;
    if TableUnder(mem, root, HALF, f) {
      q :| IsPath(q) && Under(q, HALF) && Walk(mem, root, q) == Some(f);
    } else {
      var v: nat :| v < VPNS / 2 && Owns(mem, root, v) && Flat(mem, root)[v].frame == f;
      TreeWellFormed(mem, free, root);
      HalfOwns(mem, mem', root, v);
      q := PathAt(v);
      PathOfVpn(v);
      OwnedNode(mem', root, q);
    }
  }

  // ---------- Spaces ----------

  /** Sharing the kernel half leaves the new tree beside the allocator, and nothing in it owned by it. */
  lemma SharedHalf(mem: Mem, free: set<nat>, kernel: nat, mem': Mem, r: nat)
    requires TreeOk(mem, free, kernel) && OwnershipOk(mem, kernel, free) && r in free
    requires KeepsOnly(mem, kernel, mem', r, HALF, ENTRIES)
    ensures TreeOk(mem', free - {r}, r) && TreeOk(mem', free - {r}, kernel) && Flat(mem', kernel) == Flat(mem, kernel)
    ensures OwnershipOk(mem', kernel, free - {r})
    ensures forall f :: IsTable(mem', r, f) ==> f == r || IsTable(mem, kernel, f)
    ensures HalfWalks(mem, kernel, mem', r, HALF, ENTRIES)
  {
    assert !IsTable(mem, kernel, r);
    HalfWellFormed(mem, kernel, mem', r, HALF, ENTRIES);
    forall f: nat | IsTable(mem', r, f) ensures f == r || IsTable(mem, kernel, f) {
      var q :| IsPath(q) && Walk(mem', r, q) == Some(f);
      assert q != [] ==> Walk(mem, kernel, q) == Some(f);
    }
    TreeIsPages(mem, kernel);
    TreeFrame(mem, mem', kernel);
    SameTables(mem, mem', kernel);
    SameOwnership(mem, free, mem', free - {r}, kernel);
  }

  /** A tree with the same flat map and the same tables owns what it owned. */
  lemma SameOwnership(mem: Mem, free: set<nat>, mem': Mem, free': set<nat>, root: nat)
    requires OwnershipOk(mem, root, free) && Flat(mem', root) == Flat(mem, root)
    requires forall f :: IsTable(mem', root, f) <==> IsTable(mem, root, f)
    requires forall f :: IsPage(mem, f) ==> IsPage(mem', f)
    requires forall v :: Owns(mem, root, v) ==> Flat(mem, root)[v].frame !in free'
    ensures OwnershipOk(mem', root, free')
  {
    hide Flat, IsTable;
    assert forall v :: Owns(mem', root, v) <==> Owns(mem, root, v);
  }

  lemma SharedFlat(mem: Mem, free: set<nat>, kernel: nat, mem': Mem, r: nat)
    requires TreeOk(mem, free, kernel) && r in free && KeepsOnly(mem, kernel, mem', r, HALF, ENTRIES)
    requires HalfWalks(mem, kernel, mem', r, HALF, ENTRIES)
    ensures Flat(mem', r) == map v | v in Flat(mem, kernel) && v >= VPNS / 2 :: Flat(mem, kernel)[v]
  {
    FlatBound(mem, kernel);
    FlatBound(mem', r);
    hide Flat, TreeOk, KeepsOnly, HalfWalks, IsTable;
    forall v: nat | v < VPNS
      ensures v in Flat(mem', r) <==> v in Flat(mem, kernel) && v >= VPNS / 2
      ensures v in Flat(mem', r) ==> Flat(mem', r)[v] == Flat(mem, kernel)[v]
    {
      SharedFlatAt(mem, free, kernel, mem', r, v);
    }
  }

  lemma SharedFlatAt(mem: Mem, free: set<nat>, kernel: nat, mem': Mem, r: nat, v: nat)
    requires TreeOk(mem, free, kernel) && r in free && KeepsOnly(mem, kernel, mem', r, HALF, ENTRIES)
    requires HalfWalks(mem, kernel, mem', r, HALF, ENTRIES) && v < VPNS
    ensures v in Flat(mem', r) <==> v in Flat(mem, kernel) && v >= VPNS / 2
    ensures v in Flat(mem', r) ==> Flat(mem', r)[v] == Flat(mem, kernel)[v]
  {
    assert !IsTable(mem, kernel, r);
    HalfFlat(mem, kernel, mem', r, HALF, ENTRIES, v);
    hide Flat, TreeOk, KeepsOnly, HalfWalks, IsTable;
    assert HALF <= v / 0x800_0000 < ENTRIES <==> v >= VPNS / 2;
  }

  lemma SharedOwnership(mem: Mem, free: set<nat>, kernel: nat, mem': Mem, r: nat)
    requires TreeOk(mem, free, kernel) && OwnershipOk(mem, kernel, free) && r in free && IsPage(mem', r)
    requires mem' == mem[r := mem'[r]]
    requires Flat(mem', r) == map v | v in Flat(mem, kernel) && v >= VPNS / 2 :: Flat(mem, kernel)[v]
    requires forall f :: IsTable(mem', r, f) ==> f == r || IsTable(mem, kernel, f)
    ensures OwnershipOk(mem', r, free - {r})
  {
    hide Flat, IsTable, WellFormed;
    forall v: nat ensures Owns(mem', r, v) ==> Owns(mem, kernel, v) && Flat(mem', r)[v] == Flat(mem, kernel)[v] {
    }
  }

  lemma KeepsOnlyAfterZero(mem: Mem, k: nat, mem': Mem, r: nat)
    requires r != k && IsPage(mem, k) && KeepsOnly(mem[r := ZeroPage()], k, mem', r, HALF, ENTRIES)
    ensures KeepsOnly(mem, k, mem', r, HALF, ENTRIES)
  {
  }

  lemma CanFreeOnce(mem: Mem, free: set<nat>, s: seq<nat>)
    requires CanFree(mem, free, s)
    ensures Once(s)
  {
  }

  lemma RootIsLower(mem: Mem, root: nat)
    ensures LowerHalfPage(mem, root, root)
  {
    WalkRoot(mem, root);
  }

  lemma KeepsFreePages(mem: Mem, mem': Mem, r: nat, free: set<nat>)
    requires TreeOk(mem, free, r) && KeepsOnly(mem, r, mem', r, 0, HALF) && r !in free
    ensures FreePagesOk(mem', free)
  {
  }

  /** Where the search for free regions starts in a new space. */
  const FIRST_REGION: nat := 0x400000

  class Space {
    const m: Machine
    var pml: nat
    var freeAddress: nat

    constructor (m: Machine)
      ensures this.m == m
    {
      this.m := m;
      pml, freeAddress := 0, 0;
    }

    ghost predicate Valid()
      reads this, m
    {
      && m.Tree(pml) && OwnershipOk(m.mem, pml, m.free) && pml < FRAMES
      && freeAddress < ADDRESSES && freeAddress % PAGE_SIZE == 0
    }

    /** The loop of space_init over the upper half of the root. */
    method CopyUpper(kernelPml: nat)
      requires IsPage(m.mem, pml) && IsPage(m.mem, kernelPml) && pml != kernelPml && m.mem[pml] == ZeroPage()
      modifies m`mem
      ensures KeepsOnly(old(m.mem), kernelPml, m.mem, pml, HALF, ENTRIES)
    {
      for i := HALF to ENTRIES
        invariant IsPage(m.mem, pml) && m.mem == old(m.mem)[pml := m.mem[pml]]
        invariant forall j ::
          0 <= j < ENTRIES ==> m.mem[pml][j] == if HALF <= j < i then old(m.mem)[kernelPml][j] else ZERO
      {
        m.mem := Store(m.mem, pml, i, m.mem[kernelPml][i]);
      }
    }

    /** The loop of space_cleanup over the upper half of the root. */
    method ClearUpper()
      requires IsPage(m.mem, pml)
      modifies m`mem
      ensures KeepsOnly(old(m.mem), pml, m.mem, pml, 0, HALF)
    {
      for i := HALF to ENTRIES
        invariant IsPage(m.mem, pml) && m.mem == old(m.mem)[pml := m.mem[pml]]
        invariant forall j :: 0 <= j < ENTRIES ==> m.mem[pml][j] == if HALF <= j < i then ZERO else old(m.mem)[pml][j]
      {
        m.mem := Store(m.mem, pml, i, ZERO);
      }
    }

    /** space_init: a new root that shares the kernel half and maps nothing else. */
    method Init(kernelPml: nat) returns (ok: bool)
      requires m.Tree(kernelPml) && OwnershipOk(m.mem, kernelPml, m.free)
      modifies this, m`mem, m`free
      ensures m.Tree(kernelPml) && OwnershipOk(m.mem, kernelPml, m.free)
      ensures Flat(m.mem, kernelPml) == old(Flat(m.mem, kernelPml))
      ensures ok <==> old(m.free) != {}
      ensures !ok ==> unchanged(m)
      ensures ok ==> Valid() && freeAddress == FIRST_REGION && pml in old(m.free) && m.free <= old(m.free) - {pml}
      ensures ok ==> KeepsOnly(old(m.mem), kernelPml, m.mem, pml, HALF, ENTRIES)
      ensures ok ==>
        Flat(m.mem, pml) == map v | v in old(Flat(m.mem, kernelPml)) && v >= VPNS / 2 :: old(Flat(m.mem, kernelPml))[v]
    {
      RootIsTable(m.mem, m.free, kernelPml);
      hide Flat, OwnershipOk, HalfWalks, WellFormed, IsTable;
      var r := m.PmlNew();
      if r.None? { return false; }
      pml := r.value;
      freeAddress := FIRST_REGION;
      CopyUpper(kernelPml);
      KeepsOnlyAfterZero(old(m.mem), kernelPml, m.mem, pml);
      SharedHalf(old(m.mem), old(m.free), kernelPml, m.mem, pml);
      SharedFlat(old(m.mem), old(m.free), kernelPml, m.mem, pml);
      SharedOwnership(old(m.mem), old(m.free), kernelPml, m.mem, pml);
      SharedFree(m.mem, old(m.free) - {pml}, m.free, kernelPml, pml);
      return true;
    }

    /** space_cleanup: gives back each lower-half table and each page owned there exactly once, and no other page. */
    method Cleanup() returns (ghost s: seq<nat>)
      requires Valid()
      modifies m
      ensures m.Valid() && m.freed == old(m.freed) + s && Once(s)
      ensures forall f :: f in s <==> LowerHalfPage(old(m.mem), pml, f)
      ensures forall f :: f in m.free <==> f in old(m.free) || (f in s && f >= FIRST_STACK_FRAME)
      ensures forall f :: f in old(m.mem) && f !in m.free && !LowerHalfPage(old(m.mem), pml, f) ==>
        f in m.mem && m.mem[f] == old(m.mem[f])
      ensures forall f :: IsPage(old(m.mem), f) ==> IsPage(m.mem, f)
    {
      RootIsTable(m.mem, m.free, pml);
      hide CanFree, FreeList, TreeOk, OwnershipOk, LowerHalfPage, Once, FreePagesOk, Released, KeepsOnly, IsPage;
      ClearUpper();
      ghost var mem1 := m.mem;
      CleanupList(old(m.mem), m.free, m.mem, pml);
      KeepsFreePages(old(m.mem), m.mem, pml, m.free);
      s := FreeList(m.mem, pml, 4);
      CanFreeOnce(m.mem, m.free, s);
      FreeLevel(m, pml, 4);
      CleanupFrame(old(m.mem), old(m.free), mem1, m.mem, m.free, pml, s);
    }
  }

  /** Fewer pages may be free than those that were not taken. */
  lemma SharedFree(mem: Mem, free: set<nat>, fewer: set<nat>, kernel: nat, r: nat)
    requires fewer <= free && TreeOk(mem, free, r) && TreeOk(mem, free, kernel)
    requires OwnershipOk(mem, r, free) && OwnershipOk(mem, kernel, free)
    ensures TreeOk(mem, fewer, r) && TreeOk(mem, fewer, kernel)
    ensures OwnershipOk(mem, r, fewer) && OwnershipOk(mem, kernel, fewer)
  {
    TreeFewerFree(mem, free, fewer, r);
    TreeFewerFree(mem, free, fewer, kernel);
    OwnershipFewerFree(mem, free, fewer, r);
    OwnershipFewerFree(mem, free, fewer, kernel);
  }

  lemma CleanupFrame(mem: Mem, free: set<nat>, mem1: Mem, mem2: Mem, free2: set<nat>, root: nat, s: seq<nat>)
    requires KeepsOnly(mem, root, mem1, root, 0, HALF) && Released(mem1, free, mem2, free2, s)
    requires forall f :: f in s <==> LowerHalfPage(mem, root, f)
    ensures forall f :: f in free2 <==> f in free || (f in s && f >= FIRST_STACK_FRAME)
    ensures forall f :: f in mem && f !in free2 && !LowerHalfPage(mem, root, f) ==> f in mem2 && mem2[f] == mem[f]
    ensures forall f :: IsPage(mem, f) ==> IsPage(mem2, f)
  {
    RootIsLower(mem, root);
    hide LowerHalfPage;
  }

  /** The kernel half stays: a table reached through the upper half of a valid space is not given back by Cleanup. */
  lemma UpperHalfKept(mem: Mem, free: set<nat>, root: nat, q: seq<nat>)
    requires WellFormed(mem, root) && OwnershipOk(mem, root, free)
    requires IsPath(q) && q != [] && q[0] >= HALF && Walk(mem, root, q).Some?
    ensures !LowerHalfPage(mem, root, Walk(mem, root, q).value)
  {
    var f := Walk(mem, root, q).value;
    assert IsTable(mem, root, f);
    forall p | IsPath(p) && Under(p, HALF) ensures Walk(mem, root, p) != Some(f) {
      assert p != q;
    }
  }
}
