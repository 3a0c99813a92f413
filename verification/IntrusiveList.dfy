/**
 The circular intrusive list: entries linked both ways, with the list's head as one of them, and the queue
 that counts its elements.
 */
module IntrusiveList {
  class Entry {
    var prev: Entry
    var next: Entry

    /** list_entry_init: an entry on its own is a ring of one. */
    constructor ()
      ensures prev == this && next == this
    {
      prev, next := this, this;
    }
  }

  function Succ(i: nat, n: nat): nat
    requires i < n
  {
    if i + 1 == n then 0 else i + 1
  }

  ghost predicate Distinct(ring: seq<Entry>) { forall i, j :: 0 <= i < j < |ring| ==> ring[i] != ring[j] }

  /** The entries of ring, in this order, form one closed chain in both directions. */
  ghost predicate Linked(ring: seq<Entry>)
    reads ring
  {
    && |ring| > 0 && Distinct(ring)
    && forall i :: 0 <= i < |ring| ==> ring[i].next == ring[Succ(i, |ring|)] && ring[Succ(i, |ring|)].prev == ring[i]
  }

  /** ring with elem right after position i. */
  function Inserted(ring: seq<Entry>, i: nat, elem: Entry): seq<Entry>
    requires i < |ring|
  {
    ring[..i + 1] + [elem] + ring[i + 1..]
  }

  function Removed(ring: seq<Entry>, i: nat): seq<Entry>
    requires i < |ring|
  {
    ring[..i] + ring[i + 1..]
  }

  lemma StaysDistinct(ring: seq<Entry>, i: nat, elem: Entry?)
    requires Distinct(ring) && i < |ring|
    ensures Distinct(Removed(ring, i)) && (elem != null && elem !in ring ==> Distinct(Inserted(ring, i, elem)))
  {
    if elem != null && elem !in ring {
      var r := Inserted(ring, i, elem);
      forall j, k | 0 <= j < k < |r| ensures r[j] != r[k] {
        assert r[j] == (if j <= i then ring[j] else if j == i + 1 then elem else ring[j - 1]);
        assert r[k] == (if k <= i then ring[k] else if k == i + 1 then elem else ring[k - 1]);
      }
    }
  }

  /** list_add: elem goes between two neighbours. */
  method Add(prev: Entry, next: Entry, elem: Entry, ghost ring: seq<Entry>, ghost i: nat)
    requires Linked(ring) && i < |ring| && prev == ring[i] && next == ring[Succ(i, |ring|)] && elem !in ring
    modifies next`prev, elem, prev`next
    ensures Linked(Inserted(ring, i, elem))
  {
    next.prev := elem;
    elem.next := next;
    elem.prev := prev;
    prev.next := elem;
    ghost var r, n := Inserted(ring, i, elem), |ring|;
    StaysDistinct(ring, i, elem);
    forall k | 0 <= k < n + 1 ensures r[k].next == r[Succ(k, n + 1)] && r[Succ(k, n + 1)].prev == r[k] {
      if k < i {
        assert r[k] == ring[k] && r[k + 1] == ring[k + 1];
      } else if k > i + 1 {
        assert r[k] == ring[k - 1];
      }
    }
  }

  /** list_remove: the entry leaves its ring and becomes a ring of its own.  An entry already on its own stays so. */
  method Remove(entry: Entry, ghost ring: seq<Entry>, ghost i: nat)
    requires Linked(ring) && i < |ring| && entry == ring[i]
    modifies ring
    ensures Linked([entry]) && (|ring| > 1 ==> Linked(Removed(ring, i)))
  {
    ghost var n := |ring|;
    ghost var before := Pred(i, n);
    StaysDistinct(ring, i, null);
    SuccDistinct(n);
    hide Removed, Pred, Succ;
    assert ring[before].next == ring[Succ(before, n)] && ring[Succ(before, n)].prev == ring[before];
    entry.prev.next := entry.next;
    entry.next.prev := entry.prev;
    entry.next := entry;
    entry.prev := entry;
    if n > 1 { RestLinked(ring, i); }
    Alone(entry);
  }

  lemma SuccDistinct(n: nat)
    ensures forall j, k :: 0 <= j < n && 0 <= k < n && j != k ==> Succ(j, n) != Succ(k, n)
    ensures forall j :: 0 <= j < n ==> Succ(j, n) < n && (n > 1 ==> Succ(j, n) != j)
  {
  }

  lemma Alone(entry: Entry)
    requires entry.next == entry && entry.prev == entry
    ensures Linked([entry])
  {
  }

  /** The others, with the neighbours of entry i linked to each other and all other links as in the ring, form a ring.
      */
  lemma RestLinked(ring: seq<Entry>, i: nat)
    requires i < |ring| && |ring| > 1 && Distinct(Removed(ring, i))
    requires ring[Pred(i, |ring|)].next == ring[Succ(i, |ring|)] && ring[Succ(i, |ring|)].prev == ring[Pred(i, |ring|)]
    requires forall a :: 0 <= a < |ring| && a != i && a != Pred(i, |ring|) ==>
      ring[a].next == ring[Succ(a, |ring|)] && ring[Succ(a, |ring|)].prev == ring[a]
    ensures Linked(Removed(ring, i))
  {
    var n, r := |ring|, Removed(ring, i);
    forall k | 0 <= k < n - 1 ensures r[k].next == r[Succ(k, n - 1)] && r[Succ(k, n - 1)].prev == r[k] {
      RemovedAt(ring, i, k);
      RemovedAt(ring, i, Succ(k, n - 1));
      SkipSucc(k, i, n);
    }
  }

  function Pred(i: nat, n: nat): (p: nat)
    requires i < n
    ensures p < n && Succ(p, n) == i
  {
    if i == 0 then n - 1 else i - 1
  }

  /** The position in the whole ring of the k-th entry left when position i is removed. */
  function Skip(k: nat, i: nat): nat { if k < i then k else k + 1 }

  lemma RemovedAt(ring: seq<Entry>, i: nat, k: nat)
    requires i < |ring| && k < |ring| - 1
    ensures Removed(ring, i)[k] == ring[Skip(k, i)]
  {
  }

  lemma SkipSucc(k: nat, i: nat, n: nat)
    requires i < n && k < n - 1
    ensures var a := Skip(k, i);
            if a == Pred(i, n) then Skip(Succ(k, n - 1), i) == Succ(i, n)
            else Skip(Succ(k, n - 1), i) == Succ(a, n) != i
  {
  }

  /** A list head and the entries after it, in order; the queue keeps their number in length. */
  class List {
    const head: Entry
    var length: nat
    ghost var elems: seq<Entry>

    ghost function Ring(): seq<Entry>
      reads this
    {
      [head] + elems
    }

    ghost predicate Valid()
      reads this, Ring()
    {
      Linked(Ring()) && length == |elems|
    }

    constructor ()
      ensures Valid() && elems == [] && fresh(head)
    {
      head := new Entry();
      length := 0;
      elems := [];
    }

    /** list_empty. */
    method IsEmpty() returns (b: bool)
      requires Valid()
      ensures b <==> elems == []
    {
      assert head == Ring()[0] && head.next == Ring()[Succ(0, |Ring()|)];
      b := head.next == head;
    }

    /** queue_push: list_push at the end. */
    method Push(elem: Entry)
      requires Valid() && elem !in Ring()
      modifies this, Ring(), elem
      ensures Valid() && elems == old(elems) + [elem]
    {
      ghost var ring := Ring();
      ghost var last := |ring| - 1;
      assert ring[last].next == ring[Succ(last, |ring|)] && ring[Succ(last, |ring|)].prev == ring[last];
      length := length + 1;
      Add(head.prev, head, elem, ring, last);
      elems := elems + [elem];
      assert Ring() == Inserted(ring, last, elem);
    }

    /** list_prepend on an element of the list: elem goes right before it. */
    method InsertBefore(other: Entry, elem: Entry, ghost k: nat)
      requires Valid() && k < |elems| && other == elems[k] && elem !in Ring()
      modifies this, Ring(), elem
      ensures Valid() && elems == old(elems)[..k] + [elem] + old(elems)[k..]
    {
      ghost var ring := Ring();
      assert ring[k + 1] == other && ring[k].next == ring[Succ(k, |ring|)] && ring[Succ(k, |ring|)].prev == ring[k];
      length := length + 1;
      Add(other.prev, other, elem, ring, k);
      elems := elems[..k] + [elem] + elems[k..];
      assert Ring() == Inserted(ring, k, elem);
    }

    /** list_remove of an element, with the count that goes with it. */
    method RemoveAt(elem: Entry, ghost k: nat)
      requires Valid() && k < |elems| && elem == elems[k]
      modifies this, Ring()
      ensures Valid() && elems == old(elems)[..k] + old(elems)[k + 1..] && Linked([elem])
    {
      ghost var ring := Ring();
      assert ring[k + 1] == elem;
      length := length - 1;
      Remove(elem, ring, k + 1);
      elems := elems[..k] + elems[k + 1..];
      assert Ring() == Removed(ring, k + 1);
    }

    /** queue_pop: the first element, or null if there is none. */
    method Pop() returns (r: Entry?)
      requires Valid()
      modifies this, Ring()
      ensures Valid()
      ensures if old(elems) == [] then r == null && elems == []
        else r == old(elems)[0] && elems == old(elems)[1..] && Linked([r])
    {
      if length == 0 { return null; }
      assert head == Ring()[0] && head.next == Ring()[Succ(0, |Ring()|)];
      r := head.next;
      RemoveAt(r, 0);
    }
  }
}
