/**
 The physical page stack: free pages that themselves hold the lists of free pages.
 A buffer page holds a link to the previous buffer and 511 slots.
 */
module PageStack {
  const NULL: nat := 0
  const BUFFER_MAX: nat := 511

  /** The stack's registers, the contents of memory seen as buffers, and the counter of free pages. */
  datatype State = State(last: nat, index: nat, prev: map<nat, nat>, slots: map<nat, seq<nat>>, freePageAmount: int)

  /** Every page of the machine can be read as a buffer. */
  predicate Memory(s: State, pages: set<nat>) {
    NULL !in pages && forall p :: p in pages ==> p in s.prev && p in s.slots && |s.slots[p]| == BUFFER_MAX
  }

  /** The stack gave out its last buffer: asking again before a page is freed would read through NULL. */
  predicate Drained(s: State) { s.last == NULL && s.index != 0 }

  // ---------- One step ----------

  function Put(page: seq<nat>, i: nat, a: nat): seq<nat>
    requires i < |page|
  {
    page[..i] + [a] + page[i + 1..]
  }

  function AllocStep(s: State): (r: (nat, State))
    requires !Drained(s) && (s.last != NULL ==> s.last in s.prev && s.last in s.slots && s.index <= |s.slots[s.last]|)
  {
    if s.index == 0 then
      if s.last == NULL then (NULL, s)
      else (s.last, s.(last := s.prev[s.last], index := BUFFER_MAX - 1, freePageAmount := s.freePageAmount - 1))
    else (s.slots[s.last][s.index - 1], s.(index := s.index - 1, freePageAmount := s.freePageAmount - 1))
  }

  function FreeStep(s: State, a: nat): State
    requires s.last != NULL && s.index < BUFFER_MAX ==> s.last in s.slots && s.index < |s.slots[s.last]|
  {
    var t := s.(freePageAmount := s.freePageAmount + 1);
    if s.last == NULL then t.(last := a, index := 0, prev := s.prev[a := NULL])
    else if s.index >= BUFFER_MAX then t.(last := a, index := 0, prev := s.prev[a := s.last])
    else t.(index := s.index + 1, slots := s.slots[s.last := Put(s.slots[s.last], s.index, a)])
  }

  class Stack {
    var last: nat
    var index: nat
    var prev: map<nat, nat>
    var slots: map<nat, seq<nat>>
    var freePageAmount: int

    function View(): State
      reads this
    {
      State(last, index, prev, slots, freePageAmount)
    }

    constructor (prev: map<nat, nat>, slots: map<nat, seq<nat>>)
      ensures View() == State(NULL, 0, prev, slots, 0)
    {
      last, index, freePageAmount := NULL, 0, 0;
      this.prev, this.slots := prev, slots;
    }

    /** page_stack_alloc. */
    method Alloc() returns (address: nat)
      requires !Drained(View()) && (last != NULL ==> last in prev && last in slots && index <= |slots[last]|)
      modifies this
      ensures (address, View()) == AllocStep(old(View()))
    {
      if index == 0 {
        if last == NULL {
          return NULL;
        }
        address := last;
        last := prev[last];
        index := BUFFER_MAX - 1;
      } else {
        index := index - 1;
        address := slots[last][index];
      }
      freePageAmount := freePageAmount - 1;
    }

    /** page_stack_free. */
    method Free(address: nat)
      requires last != NULL && index < BUFFER_MAX ==> last in slots && index < |slots[last]|
      requires index <= BUFFER_MAX
      modifies this
      ensures View() == FreeStep(old(View()), address)
    {
      freePageAmount := freePageAmount + 1;
      if last == NULL {
        last := address;
        prev := prev[last := NULL];
        index := 0;
      } else if index == BUFFER_MAX {
        prev := prev[address := last];
        last := address;
        index := 0;
      } else {
        slots := slots[last := Put(slots[last], index, address)];
        index := index + 1;
      }
    }
  }

  /** The page freed last is handed out first, and if it did not start a buffer the stack is then as it was. */
  lemma LastFreedFirst(s: State, a: nat)
    requires s.last != NULL ==> s.last in s.prev && s.last in s.slots && s.index <= |s.slots[s.last]| == BUFFER_MAX
    requires a != NULL && a in s.slots
    ensures var r := AllocStep(FreeStep(s, a));
            && r.0 == a && r.1.freePageAmount == s.freePageAmount
            && (s.last != NULL ==> r.1.last == s.last)
            && (s.last != NULL && s.index < BUFFER_MAX ==>
                  r.1.index == s.index && r.1.prev == s.prev
                  && r.1.slots[s.last][..s.index] == s.slots[s.last][..s.index])
  {
  }

  // ---------- What the stack holds ----------

  /** From p, the links lead through the buffers in c and then to NULL. */
  predicate Linked(prev: map<nat, nat>, p: nat, c: seq<nat>)
    decreases |c|
  {
    if c == [] then p == NULL else p == c[0] != NULL && p in prev && Linked(prev, prev[p], c[1..])
  }

  predicate Buffers(slots: map<nat, seq<nat>>, c: seq<nat>) {
    && (forall p :: p in c ==> p in slots && |slots[p]| == BUFFER_MAX)
    && (forall i, j :: 0 <= i < j < |c| ==> c[i] != c[j])
  }

  /** The buffers from the newest to the oldest. */
  predicate Chain(s: State, c: seq<nat>) {
    Linked(s.prev, s.last, c) && Buffers(s.slots, c) && s.index <= BUFFER_MAX
  }

  /** Buffers below the newest one are full. */
  function Full(slots: map<nat, seq<nat>>, c: seq<nat>): seq<nat>
    requires Buffers(slots, c)
  {
    if c == [] then [] else [c[0]] + slots[c[0]] + Full(slots, c[1..])
  }

  /** Every page the stack holds: each buffer, the filled slots of the newest, and all slots of the others. */
  function Listed(s: State, c: seq<nat>): seq<nat>
    requires Chain(s, c)
  {
    if c == [] then [] else [c[0]] + s.slots[c[0]][..s.index] + Full(s.slots, c[1..])
  }

  /** Stepping back onto a buffer starts below its top slot: the page there is dropped. */
  function Dropped(s: State, c: seq<nat>): set<nat>
    requires Chain(s, c)
  {
    if |c| >= 2 && s.index == 0 then {s.slots[c[1]][BUFFER_MAX - 1]} else {}
  }

  /** Each page of the machine is in exactly one place: held outside, listed, or dropped for good. */
  ghost predicate Inv(s: State, c: seq<nat>, held: set<nat>, lost: set<nat>, pages: set<nat>) {
    && Memory(s, pages) && Chain(s, c)
    && multiset(Listed(s, c)) + multiset(held) + multiset(lost) == multiset(pages)
    && s.freePageAmount == |Listed(s, c)| + |lost|
  }

  lemma {:induction false} FullFrame(slots: map<nat, seq<nat>>, slots': map<nat, seq<nat>>, c: seq<nat>)
    requires Buffers(slots, c) && forall p :: p in c ==> p in slots' && slots[p] == slots'[p]
    ensures Buffers(slots', c) && Full(slots', c) == Full(slots, c)
    decreases |c|
  {
    if c != [] { FullFrame(slots, slots', c[1..]); }
  }

  lemma {:induction false} LinkedFrame(prev: map<nat, nat>, prev': map<nat, nat>, p: nat, c: seq<nat>)
    requires Linked(prev, p, c) && forall q :: q in c && q in prev ==> q in prev' && prev'[q] == prev[q]
    ensures Linked(prev', p, c)
    decreases |c|
  {
    if c != [] { LinkedFrame(prev, prev', prev[p], c[1..]); }
  }

  lemma {:induction false} ChainInFull(slots: map<nat, seq<nat>>, c: seq<nat>, i: nat)
    requires Buffers(slots, c) && i < |c|
    ensures c[i] in Full(slots, c)
    decreases |c|
  {
    if i > 0 { ChainInFull(slots, c[1..], i - 1); }
  }

  lemma ChainListed(s: State, c: seq<nat>, i: nat)
    requires Chain(s, c) && i < |c|
    ensures c[i] in Listed(s, c)
  {
    if i > 0 { ChainInFull(s.slots, c[1..], i - 1); }
  }

  /** A held page is not listed. */
  lemma HeldNotListed(s: State, c: seq<nat>, held: set<nat>, lost: set<nat>, pages: set<nat>, p: nat)
    requires Inv(s, c, held, lost, pages) && p in held
    ensures p in pages && p !in Listed(s, c) && p !in lost
  {
    assert multiset(pages)[p] == multiset(Listed(s, c))[p] + multiset(held)[p] + multiset(lost)[p];
    assert multiset(held)[p] == 1;
    assert p !in multiset(Listed(s, c));
  }

  lemma ListedNotHeld(s: State, c: seq<nat>, held: set<nat>, lost: set<nat>, pages: set<nat>, p: nat)
    requires Inv(s, c, held, lost, pages) && p in Listed(s, c)
    ensures p in pages && p !in held && p !in lost
  {
    assert multiset(pages)[p] == multiset(Listed(s, c))[p] + multiset(held)[p] + multiset(lost)[p];
    assert p in multiset(Listed(s, c));
  }

  // ---------- What one step keeps ----------

  function AllocChain(s: State, c: seq<nat>): seq<nat> { if s.index == 0 && c != [] then c[1..] else c }

  /** Taking the top slot. */
  lemma PopSlot(s: State, c: seq<nat>)
    requires Chain(s, c) && c != [] && s.index > 0
    ensures var s' := s.(index := s.index - 1);
            Chain(s', c) && multiset(Listed(s, c)) == multiset(Listed(s', c)) + multiset{s.slots[c[0]][s.index - 1]}
  {
    var page, r, rest := s.slots[c[0]], s.slots[c[0]][s.index - 1], Full(s.slots, c[1..]);
    assert page[..s.index] == page[..s.index - 1] + [r];
    assert Listed(s, c) == ([c[0]] + page[..s.index - 1]) + [r] + rest;
    assert Listed(s.(index := s.index - 1), c) == [c[0]] + page[..s.index - 1] + rest;
  }

  /** The stack after its emptied newest buffer was taken. */
  function SteppedBack(s: State): State
    requires s.last in s.prev
  {
    s.(last := s.prev[s.last], index := BUFFER_MAX - 1)
  }

  lemma PopChain(s: State, c: seq<nat>)
    requires Chain(s, c) && c != []
    ensures s.last in s.prev && Chain(SteppedBack(s), c[1..])
  {
  }

  /** Taking the emptied buffer itself. */
  lemma PopBuffer(s: State, c: seq<nat>)
    requires Chain(s, c) && c != [] && s.index == 0 && s.last in s.prev && Chain(SteppedBack(s), c[1..])
    ensures multiset(Listed(s, c))
        == multiset(Listed(SteppedBack(s), c[1..])) + multiset{c[0]} + multiset(Dropped(s, c))
  {
    TopListed(s, c);
    if |c| > 1 {
      OlderListed(s, c);
      hide Chain, Full, Listed;
      PopOlder(s, c[0], c[1..]);
    }
  }

  lemma TopListed(s: State, c: seq<nat>)
    requires Chain(s, c) && c != [] && s.index == 0
    ensures Listed(s, c) == [c[0]] + Full(s.slots, c[1..])
  {
    assert s.slots[c[0]][..0] == [];
  }

  lemma OlderListed(s: State, c: seq<nat>)
    requires Chain(s, c) && |c| > 1 && s.last in s.prev && Chain(SteppedBack(s), c[1..])
    ensures Listed(SteppedBack(s), c[1..]) == [c[1]] + s.slots[c[1]][..BUFFER_MAX - 1] + Full(s.slots, c[1..][1..])
  {
  }

  lemma PopOlder(s: State, a: nat, tail: seq<nat>)
    requires tail != [] && Buffers(s.slots, tail)
    ensures multiset([a] + Full(s.slots, tail))
         == multiset([tail[0]] + s.slots[tail[0]][..BUFFER_MAX - 1] + Full(s.slots, tail[1..]))
          + multiset{a} + multiset{s.slots[tail[0]][BUFFER_MAX - 1]}
  {
    var page, rest := s.slots[tail[0]], Full(s.slots, tail[1..]);
    SplitTop(page);
    LoseTop(a, tail[0], page[..BUFFER_MAX - 1], page[BUFFER_MAX - 1], rest);
  }

  lemma SplitTop(page: seq<nat>)
    requires |page| == BUFFER_MAX
    ensures page == page[..BUFFER_MAX - 1] + [page[BUFFER_MAX - 1]]
  {
  }

  lemma LoseTop(a: nat, b: nat, page: seq<nat>, x: nat, rest: seq<nat>)
    ensures multiset([a] + ([b] + (page + [x]) + rest)) == multiset([b] + page + rest) + multiset{a} + multiset{x}
  {
    var u := [b] + page;
    assert [a] + ([b] + (page + [x]) + rest) == ([a] + u) + ([x] + rest);
  }

  lemma AllocListed(s: State, c: seq<nat>)
    requires Chain(s, c) && c != [] && !Drained(s)
    ensures var (r, s') := AllocStep(s);
            && Chain(s', AllocChain(s, c)) && s'.prev == s.prev && s'.slots == s.slots
            && s'.freePageAmount == s.freePageAmount - 1
            && multiset(Listed(s, c)) == multiset(Listed(s', AllocChain(s, c))) + multiset{r} + multiset(Dropped(s, c))
  {
    var (r, s') := AllocStep(s);
    if s.index > 0 {
      PopSlot(s, c);
      assert Listed(s', c) == Listed(s.(index := s.index - 1), c);
    } else {
      PopChain(s, c);
      PopBuffer(s, c);
      assert Listed(s', c[1..]) == Listed(SteppedBack(s), c[1..]);
    }
  }

  /** Counting: page r moves from the list to the holders and the pages in d are dropped. */
  lemma MovePage(listed: multiset<nat>, left: multiset<nat>, r: nat, d: set<nat>, held: set<nat>, lost: set<nat>,
                 pages: set<nat>)
    requires listed == left + multiset{r} + multiset(d) && listed + multiset(held) + multiset(lost) == multiset(pages)
    ensures r in pages && r !in held && left + multiset(held + {r}) + multiset(lost + d) == multiset(pages)
    ensures |listed| == |left| + 1 + |d| && |lost + d| == |lost| + |d|
  {
    var md: multiset<nat>, mh: multiset<nat>, ml: multiset<nat> := multiset(d), multiset(held), multiset(lost);
    assert multiset(pages)[r] == left[r] + 1 + md[r] + mh[r] + ml[r];
    assert multiset(held + {r}) == mh + multiset{r};
    forall x | x in d ensures x !in lost {
      assert multiset(pages)[x] == left[x] + multiset{r}[x] + 1 + mh[x] + ml[x];
    }
    assert multiset(lost + d) == ml + md;
  }

  /** One allocation hands out a page nobody holds, and drops at most one page for good. */
  lemma AllocKeeps(s: State, c: seq<nat>, held: set<nat>, lost: set<nat>, pages: set<nat>)
    requires Inv(s, c, held, lost, pages) && c != [] && !Drained(s)
    ensures var (r, s') := AllocStep(s);
            r in pages && r !in held && Inv(s', AllocChain(s, c), held + {r}, lost + Dropped(s, c), pages)
  {
    var (r, s') := AllocStep(s);
    AllocListed(s, c);
    MovePage(multiset(Listed(s, c)), multiset(Listed(s', AllocChain(s, c))), r, Dropped(s, c), held, lost, pages);
  }

  function FreeChain(s: State, c: seq<nat>, a: nat): seq<nat> {
    if c == [] || s.index == BUFFER_MAX then [a] + c else c
  }

  /** Filling the next slot. */
  lemma PushSlot(s: State, c: seq<nat>, a: nat)
    requires Chain(s, c) && c != [] && s.index < BUFFER_MAX
    ensures var s' := s.(index := s.index + 1, slots := s.slots[c[0] := Put(s.slots[c[0]], s.index, a)]);
            Chain(s', c) && multiset(Listed(s', c)) == multiset(Listed(s, c)) + multiset{a}
  {
    var s' := s.(index := s.index + 1, slots := s.slots[c[0] := Put(s.slots[c[0]], s.index, a)]);
    var page, rest := s.slots[c[0]], Full(s.slots, c[1..]);
    assert Put(page, s.index, a)[..s.index + 1] == page[..s.index] + [a];
    FullFrame(s.slots, s'.slots, c[1..]);
    assert Listed(s, c) == ([c[0]] + page[..s.index]) + rest;
    assert Listed(s', c) == ([c[0]] + page[..s.index]) + [a] + rest;
  }

  /** Starting a buffer in the freed page. */
  lemma PushBuffer(s: State, c: seq<nat>, a: nat)
    requires Chain(s, c) && (c == [] || s.index == BUFFER_MAX) && a !in c && a != NULL && a in s.slots
    requires |s.slots[a]| == BUFFER_MAX
    ensures var s' := s.(last := a, index := 0, prev := s.prev[a := s.last]);
            Chain(s', [a] + c) && multiset(Listed(s', [a] + c)) == multiset(Listed(s, c)) + multiset{a}
  {
    var s' := s.(last := a, index := 0, prev := s.prev[a := s.last]);
    var c' := [a] + c;
    assert c'[1..] == c;
    LinkedFrame(s.prev, s'.prev, s.last, c);
    assert Chain(s', c');
    hide Linked, Full;
    TopListed(s', c');
    if c != [] { FullListed(s, c); }
  }

  /** A stack whose newest buffer is full lists all slots of all buffers. */
  lemma FullListed(s: State, c: seq<nat>)
    requires Chain(s, c) && c != [] && s.index == BUFFER_MAX
    ensures Listed(s, c) == Full(s.slots, c)
  {
    assert s.slots[c[0]][..s.index] == s.slots[c[0]];
  }

  lemma FreeListed(s: State, c: seq<nat>, a: nat)
    requires Chain(s, c) && a !in Listed(s, c) && a != NULL && a in s.slots && |s.slots[a]| == BUFFER_MAX
    ensures Chain(FreeStep(s, a), FreeChain(s, c, a))
    ensures multiset(Listed(FreeStep(s, a), FreeChain(s, c, a))) == multiset(Listed(s, c)) + multiset{a}
  {
    forall i | 0 <= i < |c| ensures c[i] != a { ChainListed(s, c, i); }
    if c == [] || s.index == BUFFER_MAX {
      PushBuffer(s, c, a);
      assert Listed(FreeStep(s, a), [a] + c) == Listed(s.(last := a, index := 0, prev := s.prev[a := s.last]), [a] + c);
    } else {
      PushSlot(s, c, a);
      var slots' := s.slots[c[0] := Put(s.slots[c[0]], s.index, a)];
      assert Listed(FreeStep(s, a), c) == Listed(s.(index := s.index + 1, slots := slots'), c);
    }
  }

  lemma FreeMemory(s: State, a: nat, pages: set<nat>)
    requires Memory(s, pages) && a in pages
    requires (s.last != NULL && s.index < BUFFER_MAX ==> s.last in s.slots && s.index < |s.slots[s.last]|)
    ensures Memory(FreeStep(s, a), pages) && FreeStep(s, a).freePageAmount == s.freePageAmount + 1
  {
  }

  /** Freeing a held page lists it. */
  lemma FreeKeeps(s: State, c: seq<nat>, held: set<nat>, lost: set<nat>, pages: set<nat>, a: nat)
    requires Inv(s, c, held, lost, pages) && a in held
    ensures Inv(FreeStep(s, a), FreeChain(s, c, a), held - {a}, lost, pages)
  {
    HeldNotListed(s, c, held, lost, pages, a);
    FreeListed(s, c, a);
    FreeMemory(s, a, pages);
    hide Chain, FreeChain, FreeStep, Listed, Memory;
    GivePage(multiset(Listed(s, c)), multiset(Listed(FreeStep(s, a), FreeChain(s, c, a))), a, held, lost, pages);
  }

  lemma GivePage(listed: multiset<nat>, more: multiset<nat>, a: nat, held: set<nat>, lost: set<nat>, pages: set<nat>)
    requires a in held && more == listed + multiset{a} && listed + multiset(held) + multiset(lost) == multiset(pages)
    ensures more + multiset(held - {a}) + multiset(lost) == multiset(pages) && |more| == |listed| + 1
  {
    assert multiset(held) == multiset(held - {a}) + multiset{a};
  }

  /** Whoever holds a page may write anything into it. */
  function WriteStep(s: State, p: nat, link: nat, page: seq<nat>): State {
    s.(prev := s.prev[p := link], slots := s.slots[p := page])
  }

  lemma WriteKeeps(s: State, c: seq<nat>, held: set<nat>, lost: set<nat>, pages: set<nat>, p: nat, link: nat,
                   page: seq<nat>)
    requires Inv(s, c, held, lost, pages) && p in held && |page| == BUFFER_MAX
    ensures Inv(WriteStep(s, p, link, page), c, held, lost, pages)
  {
    var s' := WriteStep(s, p, link, page);
    HeldNotListed(s, c, held, lost, pages, p);
    forall i | 0 <= i < |c| ensures c[i] != p { ChainListed(s, c, i); }
    LinkedFrame(s.prev, s'.prev, s.last, c);
    FullFrame(s.slots, s'.slots, c);
    if c != [] { FullFrame(s.slots, s'.slots, c[1..]); }
    assert Listed(s', c) == Listed(s, c);
  }

  // ---------- Runs ----------

  datatype Event = Alloc | Free(page: nat) | Write(into: nat, link: nat, words: seq<nat>)

  /** The stack, who holds what, and how often an allocation stepped back onto an older buffer. */
  datatype World = World(s: State, held: set<nat>, stepsBack: nat)

  /** What callers may do: free and write only pages they hold, and not ask a drained stack. */
  predicate Allowed(w: World, e: Event) {
    match e
    case Alloc => !Drained(w.s)
    case Free(p) => p in w.held
    case Write(p, link, page) => p in w.held && |page| == BUFFER_MAX
  }

  /** The next operation reads and writes inside memory. */
  predicate Ready(s: State) {
    s.index <= BUFFER_MAX
    && (s.last != NULL ==> s.last in s.prev && s.last in s.slots && |s.slots[s.last]| == BUFFER_MAX)
  }

  /** What an allowed event does; nothing is assumed once an operation would leave memory. */
  predicate Next(w: World, e: Event, w': World) {
    && Allowed(w, e)
    && (Ready(w.s) ==>
          match e
          case Alloc =>
            if w.s.last == NULL then w' == w
            else
              var (r, s') := AllocStep(w.s);
              w' == World(s', w.held + {r}, if w.s.index == 0 && s'.last != NULL then w.stepsBack + 1 else w.stepsBack)
          case Free(p) => w' == World(FreeStep(w.s, p), w.held - {p}, w.stepsBack)
          case Write(p, link, page) => w' == w.(s := WriteStep(w.s, p, link, page)))
  }

  /** All pages start out held, and are freed at boot. */
  predicate Start(w: World, pages: set<nat>) {
    w.s.last == NULL && w.s.index == 0 && w.s.freePageAmount == 0
    && w.held == pages && w.stepsBack == 0 && Memory(w.s, pages)
  }

  predicate Run(ws: seq<World>, es: seq<Event>, pages: set<nat>) {
    |ws| == |es| + 1 && Start(ws[0], pages) && forall i :: 0 <= i < |es| ==> Next(ws[i], es[i], ws[i + 1])
  }

  ghost predicate Accounted(w: World, pages: set<nat>) {
    exists c, lost: set<nat> :: Inv(w.s, c, w.held, lost, pages) && |lost| == w.stepsBack
  }

  lemma AllocAccounted(w: World, w': World, c: seq<nat>, lost: set<nat>, pages: set<nat>)
    requires Inv(w.s, c, w.held, lost, pages) && |lost| == w.stepsBack && c != [] && w.s.last != NULL && Ready(w.s)
    requires Next(w, Alloc, w')
    ensures Accounted(w', pages) && AllocStep(w.s).0 in pages && AllocStep(w.s).0 !in w.held
  {
    hide Chain, Listed, Dropped, Memory;
    AllocKeeps(w.s, c, w.held, lost, pages);
    DroppedCount(w.s, c, w.held, lost, pages);
    hide Inv;
    assert Inv(w'.s, AllocChain(w.s, c), w'.held, lost + Dropped(w.s, c), pages);
  }

  lemma NextAccounted(w: World, e: Event, w': World, pages: set<nat>)
    requires Accounted(w, pages) && Next(w, e, w')
    ensures Accounted(w', pages) && Ready(w.s)
    ensures e.Alloc? && w.s.last != NULL ==> AllocStep(w.s).0 in pages && AllocStep(w.s).0 !in w.held
  {
    var c, lost: set<nat> :| Inv(w.s, c, w.held, lost, pages) && |lost| == w.stepsBack;
    assert Ready(w.s) && (c == [] <==> w.s.last == NULL);
    hide Chain, Listed, Dropped, Memory;
    match e
    case Alloc =>
      if c != [] { AllocAccounted(w, w', c, lost, pages); }
    case Free(p) =>
      FreeKeeps(w.s, c, w.held, lost, pages, p);
      hide Inv;
      assert Inv(w'.s, FreeChain(w.s, c, p), w'.held, lost, pages);
    case Write(p, link, page) =>
      WriteKeeps(w.s, c, w.held, lost, pages, p, link, page);
      hide Inv;
      assert Inv(w'.s, c, w'.held, lost, pages);
  }

  lemma DroppedCount(s: State, c: seq<nat>, held: set<nat>, lost: set<nat>, pages: set<nat>)
    requires Inv(s, c, held, lost, pages) && c != []
    ensures |lost + Dropped(s, c)| == |lost| + (if s.index == 0 && s.prev[s.last] != NULL then 1 else 0)
  {
    var d := Dropped(s, c);
    assert Linked(s.prev, s.prev[s.last], c[1..]);
    assert c[1..] == [] <==> s.prev[s.last] == NULL;
    if d != {} {
      var x := s.slots[c[1]][BUFFER_MAX - 1];
      assert Full(s.slots, c[1..]) == [c[1]] + s.slots[c[1]] + Full(s.slots, c[1..][1..]);
      assert x in s.slots[c[1]];
      assert x in Listed(s, c);
      ListedNotHeld(s, c, held, lost, pages, x);
    }
  }

  /** Over every run, in every state: each page is held, listed or dropped, never two of these, and the counter
      of free pages is the number listed plus one for each step back. */
  lemma {:induction false} RunAccounted(ws: seq<World>, es: seq<Event>, pages: set<nat>, i: nat)
    requires Run(ws, es, pages) && i < |ws|
    ensures Accounted(ws[i], pages)
  {
    if i == 0 {
      var s := ws[0].s;
      assert Chain(s, []) && Listed(s, []) == [];
      assert Inv(s, [], ws[0].held, {}, pages);
    } else {
      RunAccounted(ws, es, pages, i - 1);
      NextAccounted(ws[i - 1], es[i - 1], ws[i], pages);
    }
  }

  /** The page that an allocation in world w hands out, NULL if none. */
  function Handed(w: World): nat { if Ready(w.s) && w.s.last != NULL then AllocStep(w.s).0 else NULL }

  /** No page is handed out while someone holds it. */
  lemma NeverHandedOutTwice(ws: seq<World>, es: seq<Event>, pages: set<nat>, i: nat)
    requires Run(ws, es, pages) && i < |es| && es[i] == Alloc
    ensures Ready(ws[i].s) && !Drained(ws[i].s)
    ensures ws[i].s.last != NULL ==>
      Handed(ws[i]) in pages && Handed(ws[i]) !in ws[i].held && Handed(ws[i]) in ws[i + 1].held
  {
    RunAccounted(ws, es, pages, i);
    assert Next(ws[i], es[i], ws[i + 1]);
    NextAccounted(ws[i], es[i], ws[i + 1], pages);
  }

  /** Between two allocations of the same page in a run lies a free of that page. */
  lemma FreedInBetween(ws: seq<World>, es: seq<Event>, pages: set<nat>, i: nat, j: nat) returns (k: nat)
    requires Run(ws, es, pages) && i < j < |es| && es[i] == Alloc && es[j] == Alloc
    requires Handed(ws[i]) == Handed(ws[j]) != NULL
    ensures i < k < j && es[k] == Free(Handed(ws[i]))
  {
    var p := Handed(ws[i]);
    NeverHandedOutTwice(ws, es, pages, i);
    NeverHandedOutTwice(ws, es, pages, j);
    k := i + 1;
    while es[k] != Free(p)
      invariant i < k <= j && p in ws[k].held
      decreases j - k
    {
      RunAccounted(ws, es, pages, k);
      assert Next(ws[k], es[k], ws[k + 1]);
      NextAccounted(ws[k], es[k], ws[k + 1], pages);
      k := k + 1;
    }
  }

  // ---------- When the stack is drained ----------

  /** Some page was freed in the first i events. */
  predicate FreedBefore(es: seq<Event>, i: nat)
    requires i <= |es|
  {
    exists k :: 0 <= k < i && es[k].Free?
  }

  /** A stack has a buffer only after a free, and without one it is drained exactly after a free. */
  predicate Emptied(s: State, freed: bool) { if s.last == NULL then Drained(s) <==> freed else freed }

  lemma NextEmptied(w: World, e: Event, w': World, pages: set<nat>, freed: bool)
    requires Accounted(w, pages) && Next(w, e, w') && Emptied(w.s, freed)
    ensures Emptied(w'.s, freed || e.Free?)
  {
    NextAccounted(w, e, w', pages);
    if e.Free? { HeldIsPage(w, pages, e.page); }
    hide Accounted;
  }

  lemma HeldIsPage(w: World, pages: set<nat>, p: nat)
    requires Accounted(w, pages) && p in w.held
    ensures p != NULL
  {
    var c, lost: set<nat> :| Inv(w.s, c, w.held, lost, pages) && |lost| == w.stepsBack;
    HeldNotListed(w.s, c, w.held, lost, pages, p);
  }

  /** Over every run: a stack without a buffer is drained if and only if some page was freed before. */
  lemma {:induction false} DrainedIff(ws: seq<World>, es: seq<Event>, pages: set<nat>, i: nat)
    requires Run(ws, es, pages) && i < |ws|
    ensures Emptied(ws[i].s, FreedBefore(es, i))
  {
    hide Accounted, Next, Emptied, FreedBefore;
    if i == 0 {
      StartEmptied(ws[0], es, pages);
    } else {
      DrainedIff(ws, es, pages, i - 1);
      RunAccounted(ws, es, pages, i - 1);
      NextEmptied(ws[i - 1], es[i - 1], ws[i], pages, FreedBefore(es, i - 1));
      FreedNext(es, i - 1);
    }
  }

  lemma StartEmptied(w: World, es: seq<Event>, pages: set<nat>)
    requires Start(w, pages)
    ensures Emptied(w.s, FreedBefore(es, 0))
  {
  }

  lemma FreedNext(es: seq<Event>, i: nat)
    requires i < |es|
    ensures FreedBefore(es, i + 1) <==> FreedBefore(es, i) || es[i].Free?
  {
  }

  /** So once a page was freed, an allocation that may be made never hands out NULL: when the pages run out the stack is
      drained instead. */
  lemma NeverNull(ws: seq<World>, es: seq<Event>, pages: set<nat>, i: nat)
    requires Run(ws, es, pages) && i < |es| && es[i] == Alloc && FreedBefore(es, i)
    ensures Handed(ws[i]) != NULL
  {
    DrainedIff(ws, es, pages, i);
    RunAccounted(ws, es, pages, i);
    NeverHandedOutTwice(ws, es, pages, i);
    HandedIsPage(ws[i], pages);
  }

  lemma HandedIsPage(w: World, pages: set<nat>)
    requires Accounted(w, pages) && Ready(w.s) && !Drained(w.s) && w.s.last != NULL && AllocStep(w.s).0 in pages
    ensures Handed(w) != NULL
  {
    var c, lost: set<nat> :| Inv(w.s, c, w.held, lost, pages) && |lost| == w.stepsBack;
  }

  // ---------- The allocator that the rest of the kernel sees ----------

  /** The pages that the stack can still hand out. */
  function FreePages(s: State, c: seq<nat>): set<nat>
    requires Chain(s, c)
  {
    set p | p in Listed(s, c)
  }

  /** Seen from outside, an allocation takes one free page, and may lose another; none is left exactly when there is no
      buffer, and then the stack hands out NULL, or, drained, must not be asked. */
  lemma AllocRefines(s: State, c: seq<nat>, held: set<nat>, lost: set<nat>, pages: set<nat>)
    requires Inv(s, c, held, lost, pages)
    ensures FreePages(s, c) == {} <==> s.last == NULL
    ensures s.last == NULL && !Drained(s) ==> AllocStep(s) == (NULL, s)
    ensures c != [] && !Drained(s) ==>
      var (r, s') := AllocStep(s);
      && Chain(s', AllocChain(s, c)) && r in FreePages(s, c)
      && FreePages(s', AllocChain(s, c)) == FreePages(s, c) - {r} - Dropped(s, c)
  {
    NoneFree(s, c);
    hide Listed, Dropped, AllocChain, Linked, Buffers, Memory;
    if c != [] && !Drained(s) {
      OnceListed(s, c, held, lost, pages);
      AllocListed(s, c);
      hide AllocStep, Inv, Chain;
      var (r, s') := AllocStep(s);
      Split(Listed(s, c), Listed(s', AllocChain(s, c)), r, Dropped(s, c));
      SplitFree(s, c, s', AllocChain(s, c), r, Dropped(s, c));
    }
  }

  lemma SplitFree(s: State, c: seq<nat>, s': State, c': seq<nat>, r: nat, d: set<nat>)
    requires Chain(s, c) && Chain(s', c') && forall p :: p in Listed(s', c') <==> p in Listed(s, c) && p != r && p !in d
    ensures FreePages(s', c') == FreePages(s, c) - {r} - d
  {
    hide Chain, Listed;
  }

  lemma NoneFree(s: State, c: seq<nat>)
    requires Chain(s, c)
    ensures (c == [] <==> s.last == NULL) && (FreePages(s, c) == {} <==> c == [])
  {
    if c == [] {
      assert Listed(s, c) == [];
    } else {
      ChainListed(s, c, 0);
      hide Listed;
      assert c[0] in FreePages(s, c);
    }
  }

  lemma OnceListed(s: State, c: seq<nat>, held: set<nat>, lost: set<nat>, pages: set<nat>)
    requires Inv(s, c, held, lost, pages)
    ensures forall p :: multiset(Listed(s, c))[p] <= 1
  {
    hide Chain, Listed, Memory;
    forall p ensures multiset(Listed(s, c))[p] <= 1 {
      assert multiset(pages)[p] == multiset(Listed(s, c))[p] + multiset(held)[p] + multiset(lost)[p];
    }
  }

  lemma Split(all: seq<nat>, left: seq<nat>, r: nat, d: set<nat>)
    requires multiset(all) == multiset(left) + multiset{r} + multiset(d) && forall p :: multiset(all)[p] <= 1
    ensures forall p :: p in left <==> p in all && p != r && p !in d
    ensures r in all
  {
    forall p ensures p in left <==> p in all && p != r && p !in d {
      assert multiset(all)[p] == multiset(left)[p] + multiset{r}[p] + multiset(d)[p];
      assert (p in left <==> p in multiset(left)) && (p in all <==> p in multiset(all));
    }
    assert r in multiset(all);
  }

  /** Giving a page back adds it to the free pages. */
  lemma FreeRefines(s: State, c: seq<nat>, held: set<nat>, lost: set<nat>, pages: set<nat>, a: nat)
    requires Inv(s, c, held, lost, pages) && a in held
    ensures Chain(FreeStep(s, a), FreeChain(s, c, a))
    ensures FreePages(FreeStep(s, a), FreeChain(s, c, a)) == FreePages(s, c) + {a}
  {
    HeldNotListed(s, c, held, lost, pages, a);
    hide Listed, Linked, Buffers;
    FreeListed(s, c, a);
    JoinFree(s, c, FreeStep(s, a), FreeChain(s, c, a), a);
  }

  lemma JoinFree(s: State, c: seq<nat>, s': State, c': seq<nat>, a: nat)
    requires Chain(s, c) && Chain(s', c') && multiset(Listed(s', c')) == multiset(Listed(s, c)) + multiset{a}
    ensures FreePages(s', c') == FreePages(s, c) + {a}
  {
    hide Chain, Listed;
    forall p ensures p in Listed(s', c') <==> p in Listed(s, c) || p == a {
      assert p in Listed(s, c) <==> p in multiset(Listed(s, c));
      assert p in Listed(s', c') <==> p in multiset(Listed(s', c'));
    }
  }

  // ---------- A page is dropped ----------

  /** The pages 1 to n. */
  function UpTo(n: nat): (r: set<nat>)
    ensures forall p: nat :: p in r <==> 1 <= p <= n
  {
    if n == 0 then {} else UpTo(n - 1) + {n}
  }

  /** One page for a full buffer, its 511 slots, and one page more. */
  const ENOUGH: nat := BUFFER_MAX + 2

  /** Pages 1 to n are on the stack: page 1 is the buffer, the others fill its slots. */
  ghost predicate Filling(w: World, n: nat) {
    && Memory(w.s, UpTo(ENOUGH)) && w.s.last == 1 && w.s.index == n - 1 && w.s.prev[1] == NULL
    && w.s.freePageAmount == n && w.stepsBack == 0 && forall p: nat :: p in w.held <==> n < p <= ENOUGH
  }

  lemma RunMore(ws: seq<World>, es: seq<Event>, pages: set<nat>, e: Event, w: World)
    requires Run(ws, es, pages) && Next(ws[|es|], e, w)
    ensures Run(ws + [w], es + [e], pages)
  {
    hide Next;
    var ws', es' := ws + [w], es + [e];
    forall i | 0 <= i < |es'| ensures Next(ws'[i], es'[i], ws'[i + 1]) {
      if i < |es| { assert Next(ws[i], es[i], ws[i + 1]); }
    }
  }

  lemma FillNext(w: World, n: nat) returns (w': World)
    requires Filling(w, n) && 1 <= n <= BUFFER_MAX
    ensures Next(w, Free(n + 1), w') && Filling(w', n + 1)
  {
    hide UpTo;
    w' := World(FreeStep(w.s, n + 1), w.held - {n + 1}, w.stepsBack);
  }

  lemma {:induction false} Fill(w: World, n: nat) returns (ws: seq<World>, es: seq<Event>)
    requires Start(w, UpTo(ENOUGH)) && 1 <= n <= BUFFER_MAX + 1
    ensures Run(ws, es, UpTo(ENOUGH)) && ws[0] == w && Filling(ws[|es|], n)
    decreases n
  {
    hide UpTo;
    if n == 1 {
      var w' := World(FreeStep(w.s, 1), w.held - {1}, 0);
      ws, es := [w, w'], [Free(1)];
    } else {
      hide Filling, Next, Start;
      ws, es := Fill(w, n - 1);
      var w' := FillNext(ws[|es|], n - 1);
      RunMore(ws, es, UpTo(ENOUGH), Free(n), w');
      ws, es := ws + [w'], es + [Free(n)];
    }
  }

  /** From every start with enough pages there is a run that steps back: 513 pages freed and one taken leave 511 pages
      on the stack, while the counter says 512. */
  lemma StepsBack(w: World) returns (ws: seq<World>, es: seq<Event>)
    requires Start(w, UpTo(ENOUGH))
    ensures Run(ws, es, UpTo(ENOUGH)) && ws[0] == w && ws[|es|].stepsBack == 1
    ensures var s := ws[|es|].s; Chain(s, [1]) && |Listed(s, [1])| == BUFFER_MAX && s.freePageAmount == BUFFER_MAX + 1
  {
    hide UpTo;
    ws, es := Fill(w, BUFFER_MAX + 1);
    var w1 := ws[|es|];
    var w2 := World(FreeStep(w1.s, ENOUGH), w1.held - {ENOUGH}, 0);
    RunMore(ws, es, UpTo(ENOUGH), Free(ENOUGH), w2);
    ws, es := ws + [w2], es + [Free(ENOUGH)];
    var w3 := World(AllocStep(w2.s).1, w2.held + {ENOUGH}, 1);
    assert Next(w2, Alloc, w3);
    RunMore(ws, es, UpTo(ENOUGH), Alloc, w3);
    ws, es := ws + [w3], es + [Alloc];
    assert Chain(w3.s, [1]) by { assert [1][1..] == []; }
  }
}
