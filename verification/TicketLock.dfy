/**
 The ticket lock as a protocol: any number of threads take tickets, spin and release, one atomic access at a time.
 Both counters are 32 bits wide and wrap.
 */
module TicketLock {
  const TICKETS: nat := 0x1_0000_0000

  type Thread = nat

  /** Where a thread is in lock_acquire or lock_release. */
  datatype Place = Outside | Spinning(ticket: nat) | Inside

  /** The lock's words and the threads' places. */
  datatype Lock = Lock(nextTicket: nat, nowServing: nat, places: map<Thread, Place>)

  datatype Event =
    | Take(t: Thread)      // fetch_add of nextTicket
    | Enter(t: Thread)     // the spin loop reads nowServing equal to the ticket
    | Release(t: Thread)   // fetch_add of nowServing

  function PlaceOf(l: Lock, t: Thread): Place { if t in l.places then l.places[t] else Outside }

  predicate Enabled(l: Lock, e: Event) {
    match e
    case Take(t) => PlaceOf(l, t) == Outside
    case Enter(t) => PlaceOf(l, t) == Spinning(l.nowServing)
    case Release(t) => PlaceOf(l, t) == Inside
  }

  function Step(l: Lock, e: Event): Lock {
    match e
    case Take(t) => Lock((l.nextTicket + 1) % TICKETS, l.nowServing, l.places[t := Spinning(l.nextTicket)])
    case Enter(t) => l.(places := l.places[t := Inside])
    case Release(t) => Lock(l.nextTicket, (l.nowServing + 1) % TICKETS, l.places[t := Outside])
  }

  const INIT := Lock(0, 0, map[])

  // ---------- Runs ----------

  /** The lock after a run. */
  function After(es: seq<Event>): Lock {
    if es == [] then INIT else Step(After(es[..|es|-1]), es[|es|-1])
  }

  function TakenBy(e: Event): seq<Thread> { if e.Take? then [e.t] else [] }
  function EnteredBy(e: Event): seq<Thread> { if e.Enter? then [e.t] else [] }
  function ReleasedBy(e: Event): nat { if e.Release? then 1 else 0 }

  /** The threads that took a ticket, in order. */
  function Taken(es: seq<Event>): seq<Thread> {
    if es == [] then [] else Taken(es[..|es|-1]) + TakenBy(es[|es|-1])
  }

  /** The threads that got the lock, in order. */
  function Entered(es: seq<Event>): seq<Thread> {
    if es == [] then [] else Entered(es[..|es|-1]) + EnteredBy(es[|es|-1])
  }

  function Releases(es: seq<Event>): nat {
    if es == [] then 0 else Releases(es[..|es|-1]) + ReleasedBy(es[|es|-1])
  }

  /** Every event was enabled when it happened. */
  predicate Run(es: seq<Event>) {
    es == [] || (Run(es[..|es|-1]) && Enabled(After(es[..|es|-1]), es[|es|-1]))
  }

  /** At no time do more than 2^32 threads spin or hold the lock. */
  predicate Bounded(es: seq<Event>) {
    es == [] || (Bounded(es[..|es|-1]) && |Taken(es)| - Releases(es) <= TICKETS)
  }

  // ---------- The queue behind the counters ----------

  /** The k-th thread to take a ticket spins on ticket k modulo 2^32, unless its turn has come. */
  ghost predicate Inv(l: Lock, taken: seq<Thread>, entered: seq<Thread>, released: nat) {
    && l.nextTicket == |taken| % TICKETS && l.nowServing == released % TICKETS
    && entered <= taken && released <= |entered| <= released + 1
    && |taken| - released <= TICKETS
    && (forall k :: |entered| <= k < |taken| ==> PlaceOf(l, taken[k]) == Spinning(k % TICKETS))
    && (released < |entered| ==> PlaceOf(l, taken[released]) == Inside)
    && (forall j, k :: released <= j < k < |taken| ==> taken[j] != taken[k])
    && (forall t :: PlaceOf(l, t) != Outside ==> t in taken[released..])
  }

  lemma SameTicket(k: nat, r: nat)
    requires r <= k < r + TICKETS && k % TICKETS == r % TICKETS
    ensures k == r
  {
  }

  /** A thread may enter only if it holds the oldest ticket not yet served and nobody is inside. */
  lemma EnterIsNext(l: Lock, taken: seq<Thread>, entered: seq<Thread>, released: nat, t: Thread)
    requires Inv(l, taken, entered, released) && PlaceOf(l, t) == Spinning(l.nowServing)
    ensures |entered| == released < |taken| && taken[released] == t
  {
    assert t in taken[released..];
    var k :| released <= k < |taken| && taken[k] == t;
    assert k >= |entered|;
    SameTicket(k, released);
  }

  lemma TakeKeeps(l: Lock, taken: seq<Thread>, entered: seq<Thread>, released: nat, t: Thread)
    requires Inv(l, taken, entered, released) && PlaceOf(l, t) == Outside && |taken| + 1 - released <= TICKETS
    ensures Inv(Step(l, Take(t)), taken + [t], entered, released)
  {
    var l', taken' := Step(l, Take(t)), taken + [t];
    NextTicket(|taken|);
    forall k | released <= k < |taken| ensures taken[k] != t {
      assert k >= |entered| || k == released;
    }
    assert taken'[released..] == taken[released..] + [t];
  }

  lemma NextTicket(n: nat)
    ensures (n % TICKETS + 1) % TICKETS == (n + 1) % TICKETS
  {
  }

  lemma EnterKeeps(l: Lock, taken: seq<Thread>, entered: seq<Thread>, released: nat, t: Thread)
    requires Inv(l, taken, entered, released) && PlaceOf(l, t) == Spinning(l.nowServing)
    ensures Inv(Step(l, Enter(t)), taken, entered + [t], released)
  {
    EnterIsNext(l, taken, entered, released, t);
    assert t in taken[released..];
  }

  lemma ReleaseKeeps(l: Lock, taken: seq<Thread>, entered: seq<Thread>, released: nat, t: Thread)
    requires Inv(l, taken, entered, released) && PlaceOf(l, t) == Inside
    ensures |entered| == released + 1 && taken[released] == t && Inv(Step(l, Release(t)), taken, entered, released + 1)
  {
    var l' := Step(l, Release(t));
    assert t in taken[released..];
    var k :| released <= k < |taken| && taken[k] == t;
    assert k < |entered|;
    NextTicket(released);
    forall u | PlaceOf(l', u) != Outside ensures u in taken[released + 1..] {
      assert u in taken[released..];
      var j :| released <= j < |taken| && taken[j] == u;
      assert taken[released + 1..][j - released - 1] == u;
    }
  }

  lemma StepKeeps(l: Lock, taken: seq<Thread>, entered: seq<Thread>, released: nat, e: Event)
    requires Inv(l, taken, entered, released) && Enabled(l, e)
    requires |taken + TakenBy(e)| - (released + ReleasedBy(e)) <= TICKETS
    ensures Inv(Step(l, e), taken + TakenBy(e), entered + EnteredBy(e), released + ReleasedBy(e))
  {
    assert taken + [] == taken && entered + [] == entered;
    hide Inv, Step;
    match e
    case Take(t) => TakeKeeps(l, taken, entered, released, t);
    case Enter(t) => EnterKeeps(l, taken, entered, released, t);
    case Release(t) => ReleaseKeeps(l, taken, entered, released, t);
  }

  lemma {:induction false} RunKeeps(es: seq<Event>)
    requires Run(es) && Bounded(es)
    ensures Inv(After(es), Taken(es), Entered(es), Releases(es))
  {
    if es != [] {
      hide Inv, Step, Enabled, TakenBy, EnteredBy, ReleasedBy;
      var before, e := es[..|es|-1], es[|es|-1];
      RunKeeps(before);
      StepKeeps(After(before), Taken(before), Entered(before), Releases(before), e);
    }
  }

  // ---------- What the lock promises ----------

  /** In every bounded run, however often the counters wrapped, at most one thread is inside. */
  lemma MutualExclusion(es: seq<Event>, t: Thread, u: Thread)
    requires Run(es) && Bounded(es) && PlaceOf(After(es), t) == Inside && PlaceOf(After(es), u) == Inside
    ensures t == u
  {
    RunKeeps(es);
    ReleaseKeeps(After(es), Taken(es), Entered(es), Releases(es), t);
    ReleaseKeeps(After(es), Taken(es), Entered(es), Releases(es), u);
  }

  /** In every bounded run threads get the lock in exactly the order in which they took tickets. */
  lemma FirstComeFirstServed(es: seq<Event>)
    requires Run(es) && Bounded(es)
    ensures Entered(es) <= Taken(es)
  {
    RunKeeps(es);
  }

  /** Nobody is shut out by the counters: while the lock is free, the thread that waited longest can enter. */
  lemma LongestWaiterCanEnter(es: seq<Event>)
    requires Run(es) && Bounded(es) && |Entered(es)| == Releases(es) < |Taken(es)|
    ensures Run(es + [Enter(Taken(es)[Releases(es)])])
  {
    RunKeeps(es);
    var e := Enter(Taken(es)[Releases(es)]);
    assert (es + [e])[..|es + [e]|-1] == es;
  }

  /** The bound is exact: a further ticket is a duplicate of the one being served if and only if 2^32 threads are
      there already; then its owner may enter although another thread is inside or next. */
  lemma DuplicateTicketIff(es: seq<Event>, t: Thread)
    requires Run(es) && Bounded(es) && PlaceOf(After(es), t) == Outside && |Taken(es)| > Releases(es)
    ensures Enabled(Step(After(es), Take(t)), Enter(t)) <==> |Taken(es)| - Releases(es) == TICKETS
  {
    RunKeeps(es);
    TicketClash(|Taken(es)|, Releases(es));
  }

  lemma TicketClash(n: nat, r: nat)
    requires r < n <= r + TICKETS
    ensures n % TICKETS == r % TICKETS <==> n == r + TICKETS
  {
    if n < r + TICKETS && n % TICKETS == r % TICKETS { SameTicket(n, r); }
  }

  // ---------- The bound is reached ----------

  /** Thread 0 holds the lock and threads 1 to n - 1 have come to wait. */
  function Crowd(n: nat): seq<Event>
    requires n > 0
  {
    if n == 1 then [Take(0), Enter(0)] else Crowd(n - 1) + [Take(n - 1)]
  }

  /** The lock and the history of such a crowd. */
  ghost predicate Crowded(es: seq<Event>, n: nat) {
    var l := After(es);
    && Run(es) && l.nextTicket == n % TICKETS && l.nowServing == 0 && PlaceOf(l, 0) == Inside
    && (forall t :: t >= n ==> PlaceOf(l, t) == Outside)
    && |Taken(es)| == n && Releases(es) == 0 && (n <= TICKETS ==> Bounded(es))
  }

  lemma FirstCrowd()
    ensures Crowded(Crowd(1), 1)
  {
    var es := [Take(0), Enter(0)];
    assert es[..1] == [Take(0)] && [Take(0)][..0] == [];
    assert After([Take(0)]) == Step(INIT, Take(0));
    assert After(es) == Step(After([Take(0)]), Enter(0));
    assert Taken([Take(0)]) == [0] && Taken(es) == [0] + [];
    assert Run([Take(0)]) && Bounded([Take(0)]);
    assert Releases([Take(0)]) == 0;
  }

  lemma CrowdNext(es: seq<Event>, n: nat)
    requires n > 0 && Crowded(es, n)
    ensures Crowded(es + [Take(n)], n + 1)
  {
    var more := es + [Take(n)];
    assert more[..|more|-1] == es && more[|more|-1] == Take(n);
    NextTicket(n);
    forall t | t >= n + 1 ensures PlaceOf(After(more), t) == PlaceOf(After(es), t) {
    }
  }

  lemma {:induction false} CrowdRuns(n: nat)
    requires n > 0
    ensures Crowded(Crowd(n), n)
  {
    hide Crowded;
    if n == 1 {
      FirstCrowd();
    } else {
      CrowdRuns(n - 1);
      CrowdNext(Crowd(n - 1), n - 1);
    }
  }

  /** With 2^32 threads the lock is still right, and with one more two threads are inside: the last ticket is
      number 0 again. */
  lemma OneTooMany()
    ensures Run(Crowd(TICKETS)) && Bounded(Crowd(TICKETS))
    ensures var es := Crowd(TICKETS + 1) + [Enter(TICKETS)];
            && Run(es) && PlaceOf(After(es), 0) == Inside && PlaceOf(After(es), TICKETS) == Inside
  {
    hide Crowd, Crowded, After, Run;
    CrowdRuns(TICKETS);
    CrowdGrows(TICKETS);
    CrowdIsRun(Crowd(TICKETS), TICKETS);
    DuplicateEnters(Crowd(TICKETS), TICKETS);
  }

  lemma CrowdGrows(n: nat)
    requires n > 0
    ensures Crowd(n + 1) == Crowd(n) + [Take(n)]
  {
  }

  lemma CrowdIsRun(es: seq<Event>, n: nat)
    requires Crowded(es, n) && n <= TICKETS
    ensures Run(es) && Bounded(es)
  {
  }

  /** When the number of threads is a multiple of 2^32, the next one to come gets the ticket that is being served. */
  lemma DuplicateEnters(before: seq<Event>, n: nat)
    requires n > 0 && n % TICKETS == 0 && Crowded(before, n)
    ensures var es := before + [Take(n)] + [Enter(n)];
            Run(es) && PlaceOf(After(es), 0) == Inside && PlaceOf(After(es), n) == Inside
  {
    var crowd := before + [Take(n)];
    CrowdNext(before, n);
    assert crowd[..|crowd|-1] == before && crowd[|crowd|-1] == Take(n);
    assert PlaceOf(After(crowd), n) == Spinning(0);
    var es := crowd + [Enter(n)];
    assert es[..|es|-1] == crowd && es[|es|-1] == Enter(n);
  }
}

/**
 Interrupt nesting on one CPU: each lock held keeps interrupts off, and the last release restores them, also when
 interrupt handlers that take locks themselves come in between.
 */
module InterruptNesting {
  /** cliAmount and prevFlags of the CPU, the interrupt flags saved in its trap frames (as many as its trap depth), and
      the processor's interrupt flag; and those saved in the frames of the threads that do not run. */
  datatype Cpu = Cpu(
    smp: bool, cliAmount: nat, prevEnabled: bool, frames: seq<bool>, enabled: bool, waiting: seq<bool>)

  /** cli_push, cli_pop, the beginning of an interrupt handler, a thread switch in it, which exchanges its frame for
      that of thread i, its end, and a new thread. */
  datatype Op = Push | Pop | Trap | Switch(i: nat) | Return | New

  predicate CanApply(c: Cpu, op: Op) {
    match op
    case Push => true
    case Pop => !c.smp || c.cliAmount != 0
    case Trap => c.enabled
    case Switch(i) => c.frames != [] && i < |c.waiting|
    case Return => c.frames != []
    case New => true
  }

  function Apply(c: Cpu, op: Op): Cpu
    requires CanApply(c, op)
  {
    match op
    case Push =>
      if !c.smp then c
      else c.(cliAmount := c.cliAmount + 1,
              prevEnabled := if c.cliAmount == 0 then c.enabled else c.prevEnabled,
              enabled := false)
    case Pop =>
      if !c.smp then c
      else c.(cliAmount := c.cliAmount - 1,
              enabled := c.enabled || (c.cliAmount == 1 && c.prevEnabled && c.frames == []))
    case Trap => c.(frames := c.frames + [c.enabled], enabled := false)
    case Switch(i) =>
      var last := |c.frames| - 1;
      c.(frames := c.frames[last := c.waiting[i]], waiting := c.waiting[i := c.frames[last]])
    case Return => c.(frames := c.frames[..|c.frames|-1], enabled := c.frames[|c.frames|-1])
    case New => c.(waiting := c.waiting + [true])
  }

  /** How many pushes are open, before each handler began and now: a handler pops what it pushed, and nothing else. */
  datatype Nest = Nest(outer: seq<nat>, depth: nat)

  function Bottom(n: Nest): nat { if n.outer == [] then 0 else n.outer[|n.outer|-1] }

  /** Whether an operation keeps to the nesting, and what it makes of it. */
  predicate Keeps(n: Nest, op: Op) {
    match op
    case Pop => n.depth > Bottom(n)
    case Return => n.outer != [] && n.depth == Bottom(n)
    case _ => true
  }

  function Inner(n: Nest, op: Op): Nest
    requires Keeps(n, op)
  {
    match op
    case Push => Nest(n.outer, n.depth + 1)
    case Pop => Nest(n.outer, n.depth - 1)
    case Trap => Nest(n.outer + [n.depth], n.depth)
    case Return => Nest(n.outer[..|n.outer|-1], n.depth)
    case _ => n
  }

  /** What holds between operations on a CPU whose interrupt flag was entry before the first of them. */
  predicate Section(c: Cpu, n: Nest, entry: bool) {
    && c.cliAmount == n.depth && |c.frames| == |n.outer|
    && (forall k :: 0 <= k < |n.outer| ==> n.outer[k] == 0 && c.frames[k])
    && (if n.outer == [] && n.depth == 0 then c.enabled == entry else !c.enabled)
    && (n.depth > 0 ==> c.prevEnabled == (entry && n.outer == []))
    && (n.outer != [] ==> entry && |n.outer| == 1)
    && (forall k :: 0 <= k < |c.waiting| ==> c.waiting[k])
  }

  lemma OneOp(c: Cpu, n: Nest, op: Op, entry: bool)
    requires c.smp && Section(c, n, entry) && Keeps(n, op) && CanApply(c, op)
    ensures Apply(c, op).smp && Section(Apply(c, op), Inner(n, op), entry)
  {
  }

  /** A sequence of operations that keeps to the nesting; interrupts come only while they are on. */
  predicate Nested(c: Cpu, n: Nest, ops: seq<Op>)
    decreases |ops|
  {
    ops == [] || (CanApply(c, ops[0]) && Keeps(n, ops[0]) && Nested(Apply(c, ops[0]), Inner(n, ops[0]), ops[1..]))
  }

  function ApplyAll(c: Cpu, n: Nest, ops: seq<Op>): (Cpu, Nest)
    requires Nested(c, n, ops)
    decreases |ops|
  {
    if ops == [] then (c, n) else ApplyAll(Apply(c, ops[0]), Inner(n, ops[0]), ops[1..])
  }

  /** Any nest of pushes, pops, interrupt handlers and thread switches leaves interrupts off while a push is open or a
      handler runs, and as they were when all are closed. */
  lemma {:induction false} FlagRestored(c: Cpu, n: Nest, ops: seq<Op>, entry: bool)
    requires c.smp && Nested(c, n, ops) && Section(c, n, entry)
    ensures var (c', n') := ApplyAll(c, n, ops);
            && Section(c', n', entry)
            && c'.enabled == (entry && n' == Nest([], 0))
    decreases |ops|
  {
    if ops != [] {
      OneOp(c, n, ops[0], entry);
      FlagRestored(Apply(c, ops[0]), Inner(n, ops[0]), ops[1..], entry);
    }
  }

  /** The assertion in cli_pop does not fire. */
  lemma PopIsSafe(c: Cpu, n: Nest, entry: bool)
    requires c.smp && Section(c, n, entry) && Keeps(n, Pop)
    ensures CanApply(c, Pop)
  {
  }

  // ---------- Before the other processors are up ----------

  predicate CanApplyAll(c: Cpu, ops: seq<Op>)
    decreases |ops|
  {
    ops == [] || (CanApply(c, ops[0]) && CanApplyAll(Apply(c, ops[0]), ops[1..]))
  }

  function AfterAll(c: Cpu, ops: seq<Op>): Cpu
    requires CanApplyAll(c, ops)
    decreases |ops|
  {
    if ops == [] then c else AfterAll(Apply(c, ops[0]), ops[1..])
  }

  /** The operations that are not pushes and pops. */
  function Others(ops: seq<Op>): seq<Op> {
    if ops == [] then [] else (if ops[0].Push? || ops[0].Pop? then [] else [ops[0]]) + Others(ops[1..])
  }

  /** Over every sequence of operations before then, nested or not, pushes and pops change nothing, never fail, and
      leave the interrupt flag to interrupts alone: without them the same sequence is possible and ends the same. */
  lemma {:induction false} BeforeSmp(c: Cpu, ops: seq<Op>)
    requires !c.smp
    ensures CanApplyAll(c, ops) <==> CanApplyAll(c, Others(ops))
    ensures CanApplyAll(c, ops) ==>
      && AfterAll(c, ops) == AfterAll(c, Others(ops))
      && AfterAll(c, ops).cliAmount == c.cliAmount && AfterAll(c, ops).prevEnabled == c.prevEnabled
    decreases |ops|
  {
    if ops != [] {
      if ops[0].Push? || ops[0].Pop? {
        assert Others(ops) == Others(ops[1..]);
        BeforeSmp(c, ops[1..]);
      } else {
        assert Others(ops)[0] == ops[0] && Others(ops)[1..] == Others(ops[1..]);
        if CanApply(c, ops[0]) { BeforeSmp(Apply(c, ops[0]), ops[1..]); }
      }
    }
  }
}
