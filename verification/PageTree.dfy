/**
 What the recursive free visits.  A node is a table or an owned page, found along a path of up to four indices.
 In a well-formed tree the recursive free lists every node below its start exactly once, and nothing else.
 */
module PageTree {
  import opened Options
  import opened Paging
  import opened FlatRanges
  import opened PageTable

  // ---------- The order in which the recursive free gives pages back ----------

  /** Whether the recursion at a level follows an entry: every present one, but at level 1 only if owned. */
  predicate Follows(e: Entry, level: int) { e.Present() && (level != 1 || e.Owned()) }

  /** The pages that pml_free_level gives back for a table at a level, in order. */
  function FreeList(mem: Mem, t: nat, level: int): seq<nat>
    decreases level + 1, ENTRIES + 1
  {
    if level < 0 then [] else (if IsPage(mem, t) then FreeFrom(mem, t, level, 0) else []) + [t]
  }

  /** The part of that list that entries i and up contribute. */
  function FreeFrom(mem: Mem, t: nat, level: int, i: nat): seq<nat>
    requires level >= 0 && IsPage(mem, t) && i <= ENTRIES
    decreases level + 1, ENTRIES - i
  {
    if i == ENTRIES then [] else FreeEntry(mem, t, level, i) + FreeFrom(mem, t, level, i + 1)
  }

  function FreeEntry(mem: Mem, t: nat, level: int, i: nat): seq<nat>
    requires level >= 0 && IsPage(mem, t) && i < ENTRIES
    decreases level + 1, 0
  {
    if Follows(mem[t][i], level) then FreeList(mem, mem[t][i].frame, level - 1) else []
  }

  /** A page at level 0 contributes itself alone, whatever its contents look like. */
  lemma {:induction false} FreeFromLeaf(mem: Mem, t: nat, i: nat)
    requires IsPage(mem, t) && i <= ENTRIES
    ensures FreeFrom(mem, t, 0, i) == []
    decreases ENTRIES - i
  {
    if i < ENTRIES { FreeFromLeaf(mem, t, i + 1); }
  }

  /** The list depends only on the pages in it. */
  lemma {:induction false} FreeListFrame(mem: Mem, mem': Mem, t: nat, level: int)
    requires forall f :: f in FreeList(mem, t, level) ==> IsPage(mem, f) && f in mem' && mem'[f] == mem[f]
    ensures FreeList(mem', t, level) == FreeList(mem, t, level)
    decreases level + 1, ENTRIES + 1
  {
    if level >= 0 {
      assert t in FreeList(mem, t, level);
      FreeFromFrame(mem, mem', t, level, 0);
    }
  }

  lemma {:induction false} FreeFromFrame(mem: Mem, mem': Mem, t: nat, level: int, i: nat)
    requires level >= 0 && IsPage(mem, t) && i <= ENTRIES && t in mem' && mem'[t] == mem[t]
    requires forall f :: f in FreeFrom(mem, t, level, i) ==> IsPage(mem, f) && f in mem' && mem'[f] == mem[f]
    ensures FreeFrom(mem', t, level, i) == FreeFrom(mem, t, level, i)
    decreases level + 1, ENTRIES - i
  {
    if i < ENTRIES {
      var s := FreeFrom(mem, t, level, i);
      assert s == FreeEntry(mem, t, level, i) + FreeFrom(mem, t, level, i + 1);
      assert forall f :: f in FreeEntry(mem, t, level, i) ==> f in s;
      if Follows(mem[t][i], level) { FreeListFrame(mem, mem', mem[t][i].frame, level - 1); }
      FreeFromFrame(mem, mem', t, level, i + 1);
    }
  }

  ghost predicate Once(s: seq<nat>) { forall f :: multiset(s)[f] <= 1 }

  lemma OnceConcat(a: seq<nat>, b: seq<nat>)
    requires Once(a) && Once(b) && forall f :: f in a ==> f !in b
    ensures Once(a + b)
  {
    forall f ensures multiset(a + b)[f] <= 1 {
      assert multiset(a + b)[f] == multiset(a)[f] + multiset(b)[f];
      if f in a { assert f !in multiset(b); } else { assert f !in multiset(a); }
    }
  }

  lemma OnceParts(a: seq<nat>, b: seq<nat>)
    requires Once(a + b)
    ensures Once(a) && Once(b) && forall f :: f in a ==> f !in b
  {
    forall f ensures multiset(a)[f] <= 1 && multiset(b)[f] <= 1 && (f in a ==> f !in b) {
      assert multiset(a + b)[f] == multiset(a)[f] + multiset(b)[f];
      assert f in a ==> f in multiset(a);
      assert f in b ==> f in multiset(b);
    }
  }

  // ---------- Nodes ----------

  predicate IsNodePath(p: seq<nat>) { |p| <= 4 && forall k :: 0 <= k < |p| ==> p[k] < ENTRIES }

  /** The page found along p: a table, or at the fourth step an owned page. */
  function NodeAt(mem: Mem, root: nat, p: seq<nat>): Option<nat> {
    if |p| < 4 then Walk(mem, root, p)
    else NodeUnder(mem, Walk(mem, root, p[..3]), p[3])
  }

  function NodeUnder(mem: Mem, t: Option<nat>, i: nat): Option<nat> {
    if t.Some? && t.value in mem && i < |mem[t.value]| && mem[t.value][i].Present() && mem[t.value][i].Owned()
    then Some(mem[t.value][i].frame) else None
  }

  /** Tables and owned pages are pairwise distinct pages. */
  ghost predicate NodesOk(mem: Mem, root: nat) {
    && (forall p :: IsNodePath(p) && NodeAt(mem, root, p).Some? ==> IsPage(mem, NodeAt(mem, root, p).value))
    && (forall p, q ::
          IsNodePath(p) && IsNodePath(q) && NodeAt(mem, root, p).Some? && NodeAt(mem, root, p) == NodeAt(mem, root, q)
          ==> p == q)
  }

  /** f is a node strictly below p, through an entry i or later. */
  ghost predicate Below(mem: Mem, root: nat, p: seq<nat>, i: nat, f: nat) {
    exists q :: IsNodePath(q) && |p| < |q| && q[..|p|] == p && q[|p|] >= i && NodeAt(mem, root, q) == Some(f)
  }

  /** A followed entry of the table at p leads to the node at p + [i]. */
  lemma FollowsToNode(mem: Mem, root: nat, p: seq<nat>, i: nat)
    requires IsPath(p) && Walk(mem, root, p).Some? && IsPage(mem, Walk(mem, root, p).value) && i < ENTRIES
    ensures var e := mem[Walk(mem, root, p).value][i];
            NodeAt(mem, root, p + [i]) == if Follows(e, 4 - |p|) then Some(e.frame) else None
  {
    var q := p + [i];
    if |p| < 3 { assert q[..|q|-1] == p; } else { assert q[..3] == p; }
  }

  lemma BelowChild(mem: Mem, root: nat, p: seq<nat>, i: nat, f: nat)
    requires IsNodePath(p + [i]) && (Below(mem, root, p + [i], 0, f) || NodeAt(mem, root, p + [i]) == Some(f))
    ensures exists q :: IsNodePath(q) && |p| < |q| && q[..|p|] == p && q[|p|] == i && NodeAt(mem, root, q) == Some(f)
  {
    var c := p + [i];
    if NodeAt(mem, root, c) == Some(f) {
      assert c[..|p|] == p && c[|p|] == i;
    } else {
      var q :| IsNodePath(q) && |c| < |q| && q[..|c|] == c && q[|c|] >= 0 && NodeAt(mem, root, q) == Some(f);
      assert q[..|p|] == q[..|c|][..|p|] == p;
      assert q[|p|] == q[..|c|][|p|] == i;
    }
  }

  /** A node at p, or below p through an entry before i, is not a node below p through i or later. */
  lemma NodeApart(mem: Mem, root: nat, p: seq<nat>, q: seq<nat>, i: nat, f: nat)
    requires NodesOk(mem, root) && IsNodePath(q) && NodeAt(mem, root, q).Some? && Below(mem, root, p, i, f)
    requires q == p || (|p| < |q| && q[|p|] < i)
    ensures NodeAt(mem, root, q) != Some(f)
  {
    var q' :| IsNodePath(q') && |p| < |q'| && q'[..|p|] == p && q'[|p|] >= i && NodeAt(mem, root, q') == Some(f);
    assert q != q';
  }

  /** The list for the node at p holds that node and nodes below it, none of them twice. */
  lemma {:induction false} FreeListNodes(mem: Mem, root: nat, p: seq<nat>)
    requires NodesOk(mem, root) && IsNodePath(p) && NodeAt(mem, root, p).Some?
    ensures var s := FreeList(mem, NodeAt(mem, root, p).value, 4 - |p|);
            Once(s) && forall f :: f in s ==> NodeAt(mem, root, p) == Some(f) || Below(mem, root, p, 0, f)
    decreases 5 - |p|, ENTRIES + 1
  {
    var t := NodeAt(mem, root, p).value;
    if |p| == 4 {
      FreeFromLeaf(mem, t, 0);
      assert FreeList(mem, t, 0) == [t];
    } else {
      FreeFromNodes(mem, root, p, 0);
      var a := FreeFrom(mem, t, 4 - |p|, 0);
      forall f | f in a ensures f != t { NodeApart(mem, root, p, p, 0, f); }
      OnceConcat(a, [t]);
    }
  }

  lemma {:induction false} FreeFromNodes(mem: Mem, root: nat, p: seq<nat>, i: nat)
    requires NodesOk(mem, root) && IsPath(p) && Walk(mem, root, p).Some? && IsPage(mem, Walk(mem, root, p).value)
    requires i <= ENTRIES
    ensures var s := FreeFrom(mem, Walk(mem, root, p).value, 4 - |p|, i);
            Once(s) && forall f :: f in s ==> Below(mem, root, p, i, f)
    decreases 5 - |p|, ENTRIES - i
  {
    hide NodesOk, Once, NodeAt, Walk, FreeList, Below;
    if i < ENTRIES {
      var t, level := Walk(mem, root, p).value, 4 - |p|;
      var a, b := FreeEntry(mem, t, level, i), FreeFrom(mem, t, level, i + 1);
      FreeFromNodes(mem, root, p, i + 1);
      FollowsToNode(mem, root, p, i);
      if Follows(mem[t][i], level) {
        assert IsNodePath(p + [i]);
        FreeListNodes(mem, root, p + [i]);
      } else {
        OnceEmpty();
      }
      forall f | f in a
        ensures Below(mem, root, p, i, f) && f !in b
      {
        BelowFirst(mem, root, p, i, f);
        forall g | g in b ensures f != g { BelowApart(mem, root, p, i, f, g); }
      }
      forall f | f in b ensures Below(mem, root, p, i, f) { BelowLater(mem, root, p, i, f); }
      OnceConcat(a, b);
    } else {
      OnceEmpty();
    }
  }

  lemma OnceEmpty()
    ensures Once([])
  {
  }

  lemma BelowFirst(mem: Mem, root: nat, p: seq<nat>, i: nat, f: nat)
    requires IsNodePath(p + [i]) && (Below(mem, root, p + [i], 0, f) || NodeAt(mem, root, p + [i]) == Some(f))
    ensures Below(mem, root, p, i, f)
  {
    BelowChild(mem, root, p, i, f);
  }

  lemma BelowLater(mem: Mem, root: nat, p: seq<nat>, i: nat, f: nat)
    requires Below(mem, root, p, i + 1, f)
    ensures Below(mem, root, p, i, f)
  {
  }

  lemma BelowApart(mem: Mem, root: nat, p: seq<nat>, i: nat, f: nat, g: nat)
    requires NodesOk(mem, root) && Below(mem, root, p, i + 1, g)
    requires IsNodePath(p + [i]) && (Below(mem, root, p + [i], 0, f) || NodeAt(mem, root, p + [i]) == Some(f))
    ensures f != g
  {
    BelowChild(mem, root, p, i, f);
    var q :| IsNodePath(q) && |p| < |q| && q[..|p|] == p && q[|p|] == i && NodeAt(mem, root, q) == Some(f);
    NodeApart(mem, root, p, q, i + 1, g);
  }

  /** Every node at or below p is in the list for p. */
  lemma {:induction false} NodeInFreeList(mem: Mem, root: nat, p: seq<nat>, q: seq<nat>)
    requires NodesOk(mem, root) && IsNodePath(q) && |p| <= |q| && q[..|p|] == p
    requires NodeAt(mem, root, p).Some? && NodeAt(mem, root, q).Some?
    ensures NodeAt(mem, root, q).value in FreeList(mem, NodeAt(mem, root, p).value, 4 - |p|)
    decreases |q| - |p|
  {
    assert IsNodePath(p);
    var t := NodeAt(mem, root, p).value;
    if |p| < |q| {
      var i, c := q[|p|], q[..|p| + 1];
      assert c == p + [i];
      FollowsToNode(mem, root, p, i);
      NodePrefix(mem, root, q, |p| + 1);
      NodeInFreeList(mem, root, c, q);
      EntryInFrom(mem, t, 4 - |p|, 0, i, NodeAt(mem, root, q).value);
    } else {
      assert p == q;
    }
  }

  lemma NodePrefix(mem: Mem, root: nat, q: seq<nat>, k: nat)
    requires IsNodePath(q) && k <= |q| && NodeAt(mem, root, q).Some?
    ensures NodeAt(mem, root, q[..k]).Some?
  {
    if k == |q| { assert q[..k] == q; }
    else if |q| == 4 {
      assert q[..3][..k] == q[..k];
      WalkPrefix(mem, root, q[..3], k);
    } else { WalkPrefix(mem, root, q, k); }
  }

  lemma {:induction false} EntryInFrom(mem: Mem, t: nat, level: int, i: nat, j: nat, f: nat)
    requires level >= 0 && IsPage(mem, t) && i <= j < ENTRIES && f in FreeEntry(mem, t, level, j)
    ensures f in FreeFrom(mem, t, level, i)
    decreases j - i
  {
    if i < j { EntryInFrom(mem, t, level, i + 1, j, f); }
  }

  // ---------- Owned pages are the nodes at depth four ----------

  function VpnAt(p: seq<nat>): (v: nat)
    requires IsNodePath(p) && |p| == 4
    ensures v < VPNS
  {
    p[0] * 0x800_0000 + p[1] * 0x4_0000 + p[2] * ENTRIES + p[3]
  }

  lemma VpnAtPath(p: seq<nat>)
    requires IsNodePath(p) && |p| == 4
    ensures TablePath(VpnAt(p)) == p[..3] && Slot(VpnAt(p)) == p[3]
  {
    var a, b, c, d := p[0], p[1], p[2], p[3];
    Digits(a, b, c, d);
    assert TablePath(VpnAt(p)) == [a, b, c] == p[..3];
  }

  function PathAt(v: nat): seq<nat>
    requires v < VPNS
  {
    TablePath(v) + [Slot(v)]
  }

  lemma PathOfVpn(v: nat)
    requires v < VPNS
    ensures IsNodePath(PathAt(v)) && |PathAt(v)| == 4 && VpnAt(PathAt(v)) == v
  {
    FromIndices(v);
  }

  lemma FlatBound(mem: Mem, root: nat)
    ensures forall v :: v in Flat(mem, root) ==> v < VPNS
  {
  }

  lemma NodeRoot(mem: Mem, root: nat)
    ensures NodeAt(mem, root, []) == Some(root)
  {
  }

  lemma Digits(a: nat, b: nat, c: nat, d: nat)
    requires a < ENTRIES && b < ENTRIES && c < ENTRIES && d < ENTRIES
    ensures var v := a * 0x800_0000 + b * 0x4_0000 + c * ENTRIES + d;
            v / 0x800_0000 == a && v / 0x4_0000 % ENTRIES == b && v / ENTRIES % ENTRIES == c && v % ENTRIES == d
  {
    TopDigits(a * ENTRIES + b, c, d);
    assert (a * ENTRIES + b) / ENTRIES == a && (a * ENTRIES + b) % ENTRIES == b;
    var v := a * 0x800_0000 + b * 0x4_0000 + c * ENTRIES + d;
    assert v / 0x800_0000 == v / 0x4_0000 / ENTRIES;
  }

  lemma TopDigits(h: nat, c: nat, d: nat)
    requires c < ENTRIES && d < ENTRIES
    ensures var v := h * 0x4_0000 + c * ENTRIES + d;
            v / 0x4_0000 == h && v / ENTRIES % ENTRIES == c && v % ENTRIES == d
  {
    var v := h * 0x4_0000 + c * ENTRIES + d;
    assert v / ENTRIES == h * ENTRIES + c;
  }

  lemma OwnedNode(mem: Mem, root: nat, p: seq<nat>)
    requires TablesArePages(mem, root) && IsNodePath(p) && |p| == 4
    ensures NodeAt(mem, root, p) == if Owns(mem, root, VpnAt(p)) then Some(Flat(mem, root)[VpnAt(p)].frame) else None
  {
    VpnAtPath(p);
  }

  lemma NodesDistinct(mem: Mem, root: nat, free: set<nat>)
    requires WellFormed(mem, root) && OwnershipOk(mem, root, free)
    ensures NodesOk(mem, root)
  {
    forall p | IsNodePath(p) && NodeAt(mem, root, p).Some? ensures IsPage(mem, NodeAt(mem, root, p).value) {
      if |p| == 4 { OwnedNode(mem, root, p); }
    }
    forall p, q | IsNodePath(p) && IsNodePath(q) && NodeAt(mem, root, p).Some? &&
        NodeAt(mem, root, p) == NodeAt(mem, root, q)
      ensures p == q
    {
      NodePairDistinct(mem, root, free, p, q);
    }
  }

  lemma NodePairDistinct(mem: Mem, root: nat, free: set<nat>, p: seq<nat>, q: seq<nat>)
    requires WellFormed(mem, root) && OwnershipOk(mem, root, free)
    requires IsNodePath(p) && IsNodePath(q) && NodeAt(mem, root, p).Some?
    requires NodeAt(mem, root, p) == NodeAt(mem, root, q)
    ensures p == q
  {
    var f := NodeAt(mem, root, p).value;
    if |p| == 4 {
      OwnedNode(mem, root, p);
      assert !IsTable(mem, root, f);
    }
    if |q| == 4 {
      OwnedNode(mem, root, q);
      assert !IsTable(mem, root, f);
    }
    if |p| == 4 && |q| == 4 {
      VpnAtPath(p);
      VpnAtPath(q);
      assert p == p[..3] + [p[3]] && q == q[..3] + [q[3]];
    }
  }

  // ---------- Access rights ----------

  /** The entry that translation of page v reads at depth d, 0 being the root. */
  function EntryOn(mem: Mem, root: nat, v: nat, d: nat): Entry
    requires v < VPNS && d < 4
  {
    var t := Walk(mem, root, PathAt(v)[..d]);
    if t.Some? && t.value in mem && PathAt(v)[d] < |mem[t.value]| then mem[t.value][PathAt(v)[d]] else ZERO
  }

  /** A right holds only if all four levels grant it (Intel SDM volume 3A, section 4.6). */
  predicate Grants(mem: Mem, root: nat, v: nat, bit: Flags)
    requires v < VPNS
  {
    forall d :: 0 <= d < 4 ==> Has(EntryOn(mem, root, v, d).flags, bit)
  }

  /** In a well-formed tree the leaf alone decides who may write and whether user mode may reach a page. */
  lemma EffectiveRights(mem: Mem, root: nat, v: nat)
    requires WellFormed(mem, root) && v in Flat(mem, root)
    ensures Grants(mem, root, v, WRITE) <==> Has(Flat(mem, root)[v].flags, WRITE)
    ensures Grants(mem, root, v, USER) <==> Has(Flat(mem, root)[v].flags, USER)
  {
    PathOfVpn(v);
    assert PathAt(v)[..3] == TablePath(v);
    assert EntryOn(mem, root, v, 3) == Flat(mem, root)[v];
    forall d: nat | d < 3
      ensures Has(EntryOn(mem, root, v, d).flags, WRITE) && Has(EntryOn(mem, root, v, d).flags, USER)
    {
      UpperEntryGrants(mem, root, v, d);
    }
  }

  lemma UpperEntryGrants(mem: Mem, root: nat, v: nat, d: nat)
    requires WellFormed(mem, root) && v < VPNS && Walk(mem, root, TablePath(v)).Some? && d < 3
    ensures Has(EntryOn(mem, root, v, d).flags, WRITE) && Has(EntryOn(mem, root, v, d).flags, USER)
  {
    var p := TablePath(v);
    WalkPrefix(mem, root, p, d);
    WalkPrefix(mem, root, p, d + 1);
    assert PathAt(v)[..d] == p[..d] && p[..d + 1][..d] == p[..d] && PathAt(v)[d] == p[d];
    assert IsPath(p[..d]);
    var t := Walk(mem, root, p[..d]).value;
    assert GrantsAll(mem[t], p[..d] == []);
  }
}
